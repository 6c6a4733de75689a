/**
 Offer/answer negotiation on parsed session descriptions (internal/media/sdp.go).

 A description that cannot be parsed is `None`. Parsing of one candidate line is the
 parameter `parse`; random credentials are parameters. The two validators are modelled
 one check at a time, each in its own order.
 */
module Sdp {
  import opened Words
  import opened Sequences
  import opened Text
  import opened Fingerprint

  datatype Key =
    | FingerprintKey | SetupKey | RtcpMuxKey | UfragKey | PwdKey | RtpmapKey | CandidateKey
    | OtherKey(name: string)

  datatype Attr = Attr(key: Key, value: string)

  datatype Media = Media(kind: string, protos: seq<string>, formats: seq<string>, attributes: seq<Attr>)

  datatype Session = Session(attributes: seq<Attr>, media: seq<Media>)

  datatype Error =
    | OfferStateMissing | Unparsable | AudioMissing | FingerprintMissing | Sha256Required
    | FingerprintMalformed | SetupMissing | RtcpMuxRequired | IceMissing | UfragMissing
    | PwdMissing | OpusMissing | CandidateMissing | SetupUnsupported | LocalInvalid | CredentialFailed

  datatype Result<+T> = Ok(value: T) | Err(error: Error) {
    predicate IsFailure() { Err? }

    function PropagateFailure<U>(): Result<U>
      requires Err?
    {
      Err(error)
    }

    function Extract(): T
      requires Ok?
    {
      value
    }
  }

  /** A candidate line as the ICE library reads it; `ip4` is its address if that is IPv4. */
  datatype Candidate = Candidate(
    raw: string, component: int, udp4: bool, ip4: Option<string>, port: int,
    foundation: string, priority: U32, kind: int)

  type Parser = string -> Option<Candidate>

  datatype Neg = Neg(
    remoteFingerprint: string, remoteSetup: string, localSetup: string, isClient: bool,
    certificate: Option<Digest>, remoteUfrag: string, remotePwd: string, localUfrag: string, localPwd: string,
    remoteCandidates: seq<Candidate>, localIP: string, localPort: U16, payloadType: U8)

  // ----------------------------------------------------------------- searches

  function Lookup(attrs: seq<Attr>, key: Key): Option<string> {
    if attrs == [] then None
    else if attrs[0].key == key then Some(attrs[0].value)
    else Lookup(attrs[1..], key)
  }

  /** Media level first, then session level. */
  function LookupEither(m: Media, s: Session, key: Key): Option<string> {
    if Lookup(m.attributes, key).Some? then Lookup(m.attributes, key) else Lookup(s.attributes, key)
  }

  predicate Compatible(m: Media) {
    m.kind == "audio" && EqualFold(Join(m.protos, "/"), "UDP/TLS/RTP/SAVPF")
  }

  function CompatibleAudio(media: seq<Media>): Option<Media> {
    if media == [] then None
    else if Compatible(media[0]) then Some(media[0])
    else CompatibleAudio(media[1..])
  }

  /** The payload type of one rtpmap attribute, if it is Opus and was offered. */
  function OpusOf(a: Attr, formats: seq<string>): Option<U8> {
    var f := Fields(a.value);
    if a.key != RtpmapKey || |f| != 2 || !EqualFold(f[1], "opus/48000/2") then None
    else
      var v := Atoi(f[0]);
      if v.Some? && 0 <= v.value <= 127 && f[0] in formats then Some(v.value) else None
  }

  function OpusPayload(attrs: seq<Attr>, formats: seq<string>): Option<U8> {
    if attrs == [] then None
    else if OpusOf(attrs[0], formats).Some? then OpusOf(attrs[0], formats)
    else OpusPayload(attrs[1..], formats)
  }

  predicate Supported(c: Candidate) {
    c.component == 1 && c.udp4 && c.ip4.Some? && 1 <= c.port <= 65535
  }

  /** The supported candidate of an attribute, if it is one. */
  function CandidateOf(a: Attr, parse: Parser): Option<Candidate> {
    if a.key != CandidateKey then None
    else if parse(a.value).Some? && Supported(parse(a.value).value) then parse(a.value)
    else None
  }

  function Raws(cs: seq<Candidate>): set<string> { set c | c in cs :: c.raw }

  /** Supported candidates in order, keeping the first of those that print alike. */
  function Candidates(attrs: seq<Attr>, parse: Parser): seq<Candidate> {
    if attrs == [] then []
    else
      var init, c := Candidates(attrs[..|attrs| - 1], parse), CandidateOf(attrs[|attrs| - 1], parse);
      if c.Some? && c.value.raw !in Raws(init) then init + [c.value] else init
  }

  /** The collecting loop with its set of printed forms already seen. */
  method CollectCandidates(attrs: seq<Attr>, parse: Parser) returns (out: seq<Candidate>)
    ensures out == Candidates(attrs, parse)
  {
    out := [];
    var seen: set<string> := {};
    for i := 0 to |attrs|
      invariant out == Candidates(attrs[..i], parse)
      invariant seen == Raws(out)
    {
      assert attrs[..i + 1][..i] == attrs[..i];
      var c := CandidateOf(attrs[i], parse);
      if c.Some? && c.value.raw !in seen {
        seen := seen + {c.value.raw};
        assert Raws(out + [c.value]) == Raws(out) + {c.value.raw};
        out := out + [c.value];
      }
    }
    assert attrs[..|attrs|] == attrs;
  }

  /** A candidate line that the ICE library reads as component 1 over UDP on IPv4, with a usable port. */
  predicate GoodLine(a: Attr, parse: Parser) {
    && a.key == CandidateKey && parse(a.value).Some?
    && var c := parse(a.value).value; c.component == 1 && c.udp4 && c.ip4.Some? && 1 <= c.port <= 65535
  }

  /** `cs` are the candidates of the lines `at`: in order, all good, and each the first that prints so. */
  ghost predicate TakenFrom(attrs: seq<Attr>, parse: Parser, cs: seq<Candidate>, at: seq<nat>) {
    && |at| == |cs|
    && (forall i :: 0 <= i < |at| ==>
          at[i] < |attrs| && GoodLine(attrs[at[i]], parse) && parse(attrs[at[i]].value) == Some(cs[i]))
    && (forall i, j :: 0 <= i < j < |at| ==> at[i] < at[j] && cs[i].raw != cs[j].raw)
    && (forall i, k :: 0 <= i < |at| && 0 <= k < at[i] && GoodLine(attrs[k], parse) ==>
          parse(attrs[k].value).value.raw != cs[i].raw)
  }

  /** Every good line is represented by a candidate that prints like it. */
  ghost predicate Represents(attrs: seq<Attr>, parse: Parser, cs: seq<Candidate>) {
    forall k :: 0 <= k < |attrs| && GoodLine(attrs[k], parse) ==> parse(attrs[k].value).value.raw in Raws(cs)
  }

  lemma RawsAppend(cs: seq<Candidate>, c: Candidate)
    ensures Raws(cs + [c]) == Raws(cs) + {c.raw}
  {
  }

  /** One more line: it is taken if it is good and prints like none before. */
  lemma TakenAppend(init: seq<Attr>, a: Attr, parse: Parser, cs: seq<Candidate>, at: seq<nat>)
    requires TakenFrom(init, parse, cs, at) && Represents(init, parse, cs)
    requires GoodLine(a, parse) && parse(a.value).value.raw !in Raws(cs)
    ensures TakenFrom(init + [a], parse, cs + [parse(a.value).value], at + [|init|])
    ensures Represents(init + [a], parse, cs + [parse(a.value).value])
  {
    var c := parse(a.value).value;
    hide GoodLine;
    forall i | 0 <= i < |cs| ensures cs[i].raw != c.raw {
      assert cs[i].raw in Raws(cs);
    }
    RawsAppend(cs, c);
    hide Raws;
  }

  lemma TakenSkip(init: seq<Attr>, a: Attr, parse: Parser, cs: seq<Candidate>, at: seq<nat>)
    requires TakenFrom(init, parse, cs, at) && Represents(init, parse, cs)
    requires GoodLine(a, parse) ==> parse(a.value).value.raw in Raws(cs)
    ensures TakenFrom(init + [a], parse, cs, at) && Represents(init + [a], parse, cs)
  {
    hide GoodLine, Raws;
  }

  /** What is collected: in order, the first good line of each printed form, and nothing else. */
  lemma {:induction false} CandidatesAreTheFirstGoodLines(attrs: seq<Attr>, parse: Parser) returns (at: seq<nat>)
    ensures TakenFrom(attrs, parse, Candidates(attrs, parse), at) && Represents(attrs, parse, Candidates(attrs, parse))
  {
    if attrs == [] {
      at := [];
    } else {
      var init, last := attrs[..|attrs| - 1], attrs[|attrs| - 1];
      at := CandidatesAreTheFirstGoodLines(init, parse);
      var cs, c := Candidates(init, parse), CandidateOf(last, parse);
      assert c == if GoodLine(last, parse) then parse(last.value) else None;
      assert attrs == init + [last];
      hide GoodLine, CandidateOf, TakenFrom, Represents, Raws;
      if c.Some? && c.value.raw !in Raws(cs) {
        TakenAppend(init, last, parse, cs, at);
        at := at + [|init|];
      } else {
        TakenSkip(init, last, parse, cs, at);
      }
    }
  }

  // --------------------------------------------------------------- validators

  /** What a description tells about the remote side. */
  datatype Remote = Remote(
    fingerprint: string, setup: string, ufrag: string, pwd: string, candidates: seq<Candidate>, payloadType: U8)

  function Need<T>(o: Option<T>, error: Error): Result<T> {
    if o.Some? then Ok(o.value) else Err(error)
  }

  function Check(condition: bool, error: Error): Result<()> {
    if condition then Ok(()) else Err(error)
  }

  /** The checks of ParseOfferAndAnswer, lines 193 to 247, in their order. */
  function OfferParameters(raw: Option<Session>, parse: Parser): Result<Remote> {
    var session :- Need(raw, Unparsable);
    var m :- Need(CompatibleAudio(session.media), AudioMissing);
    var fp :- Need(LookupEither(m, session, FingerprintKey), FingerprintMissing);
    var f := Fields(fp);
    var _ :- Check(|f| == 2 && EqualFold(f[0], "sha-256"), Sha256Required);
    var _ :- Check(Decoded(f[1]).Some?, FingerprintMalformed);
    var setup :- Need(LookupEither(m, session, SetupKey), SetupMissing);
    var _ :- Check(Lookup(m.attributes, RtcpMuxKey).Some?, RtcpMuxRequired);
    var ufrag :- Need(LookupEither(m, session, UfragKey), UfragMissing);
    var _ :- Check(ufrag != "", UfragMissing);
    var pwd :- Need(LookupEither(m, session, PwdKey), PwdMissing);
    var _ :- Check(pwd != "", PwdMissing);
    var pt :- Need(OpusPayload(m.attributes, m.formats), OpusMissing);
    var cands := Candidates(m.attributes, parse);
    var _ :- Check(cands != [], CandidateMissing);
    Ok(Remote(ToUpper(f[1]), ToLower(setup), ufrag, pwd, cands, pt))
  }

  /** The checks of ApplyAnswer, lines 79 to 126, in their order. */
  function AnswerParameters(raw: Option<Session>, parse: Parser): Result<Remote> {
    if raw.None? then Err(Unparsable)
    else if CompatibleAudio(raw.value.media).None? then Err(AudioMissing)
    else
      var m, session := CompatibleAudio(raw.value.media).value, raw.value;
      var fp := LookupEither(m, session, FingerprintKey);
      if fp.None? then Err(FingerprintMissing)
      else
        var f := Fields(fp.value);
        if |f| != 2 || !EqualFold(f[0], "sha-256") then Err(Sha256Required)
        else if Decoded(f[1]).None? then Err(FingerprintMalformed)
        else
          var setup := LookupEither(m, session, SetupKey);
          if setup.None? then Err(SetupMissing)
          else if Lookup(m.attributes, RtcpMuxKey).None? then Err(RtcpMuxRequired)
          else
            var ufrag, pwd := LookupEither(m, session, UfragKey), LookupEither(m, session, PwdKey);
            if ufrag.None? || pwd.None? || ufrag.value == "" || pwd.value == "" then Err(IceMissing)
            else
              var pt, cands := OpusPayload(m.attributes, m.formats), Candidates(m.attributes, parse);
              if pt.None? then Err(OpusMissing)
              else if cands == [] then Err(CandidateMissing)
              else Ok(Remote(ToUpper(f[1]), ToLower(setup.value), ufrag.value, pwd.value, cands, pt.value))
  }

  function WithRemote(n: Neg, r: Remote): Neg {
    n.(remoteFingerprint := r.fingerprint, remoteSetup := r.setup, remoteUfrag := r.ufrag, remotePwd := r.pwd,
       remoteCandidates := r.candidates, payloadType := r.payloadType)
  }

  function NewOffer(cert: Option<Digest>, is4: bool, ip: string, port: int,
                    ufrag: Option<seq<U8>>, pwd: Option<seq<U8>>): Result<Neg> {
    if cert.None? || !is4 || port < 1 || port > 65535 then Err(LocalInvalid)
    else if ufrag.None? || pwd.None? then Err(CredentialFailed)
    else
      Ok(Neg("", "", "actpass", false, cert, "", "", HexEncodeLower(ufrag.value), HexEncodeLower(pwd.value),
             [], ip, port, 111))
  }

  function ParseOfferAndAnswer(raw: Option<Session>, cert: Digest, ip: string, port: int,
                               ufrag: Option<seq<U8>>, pwd: Option<seq<U8>>, parse: Parser): Result<Neg> {
    var r :- OfferParameters(raw, parse);
    var lu :- Need(ufrag, CredentialFailed);
    var lp :- Need(pwd, CredentialFailed);
    var n := WithRemote(
      Neg("", "", "", false, Some(cert), "", "", HexEncodeLower(lu), HexEncodeLower(lp), [], ip, Wrap16(port), 0), r);
    if r.setup == "actpass" || r.setup == "active" then Ok(n.(localSetup := "passive", isClient := false))
    else if r.setup == "passive" then Ok(n.(localSetup := "active", isClient := true))
    else Err(SetupUnsupported)
  }

  /** The negotiation after ApplyAnswer, and the error if it was rejected. */
  function Applied(n: Neg, raw: Option<Session>, parse: Parser): (Neg, Option<Error>) {
    AppliedParameters(n, AnswerParameters(raw, parse))
  }

  /** Lines 76 and 127 to 137: what happens to the record once the answer was read. */
  function AppliedParameters(n: Neg, answer: Result<Remote>): (Neg, Option<Error>) {
    if n.certificate.None? || n.localUfrag == "" || n.localPwd == "" then (n, Some(OfferStateMissing))
    else
      match answer
      case Err(e) => (n, Some(e))
      case Ok(r) =>
        var n' := WithRemote(n, r);
        if r.setup == "active" then (n'.(localSetup := "passive", isClient := false), None)
        else if r.setup == "passive" then (n'.(localSetup := "active", isClient := true), None)
        else (n', Some(SetupUnsupported))
  }

  /** The negotiation record that ApplyAnswer writes in place. */
  class Negotiation {
    var remoteFingerprint: string
    var remoteSetup: string
    var localSetup: string
    var isClient: bool
    const certificate: Option<Digest>
    var remoteUfrag: string
    var remotePwd: string
    const localUfrag: string
    const localPwd: string
    var remoteCandidates: seq<Candidate>
    const localIP: string
    const localPort: U16
    var payloadType: U8

    constructor (n: Neg)
      ensures View() == n
    {
      remoteFingerprint, remoteSetup := n.remoteFingerprint, n.remoteSetup;
      localSetup, isClient := n.localSetup, n.isClient;
      certificate, remoteUfrag, remotePwd := n.certificate, n.remoteUfrag, n.remotePwd;
      localUfrag, localPwd, remoteCandidates := n.localUfrag, n.localPwd, n.remoteCandidates;
      localIP, localPort, payloadType := n.localIP, n.localPort, n.payloadType;
    }

    function View(): Neg
      reads this
    {
      Neg(remoteFingerprint, remoteSetup, localSetup, isClient, certificate, remoteUfrag, remotePwd,
          localUfrag, localPwd, remoteCandidates, localIP, localPort, payloadType)
    }

    method ApplyAnswer(raw: Option<Session>, parse: Parser) returns (err: Option<Error>)
      modifies this
      ensures (View(), err) == Applied(old(View()), raw, parse)
    {
      hide Lookup, Fields, EqualFold, Decoded, OpusPayload, Candidates, ToUpper, ToLower, CompatibleAudio;
      if certificate.None? || localUfrag == "" || localPwd == "" {
        return Some(OfferStateMissing);
      }
      var parameters := AnswerParameters(raw, parse);
      if parameters.Err? {
        return Some(parameters.error);
      }
      var r := parameters.value;
      remoteFingerprint, remoteSetup := r.fingerprint, r.setup;
      remoteUfrag, remotePwd, remoteCandidates, payloadType := r.ufrag, r.pwd, r.candidates, r.payloadType;
      if remoteSetup == "active" {
        localSetup, isClient := "passive", false;
      } else if remoteSetup == "passive" {
        localSetup, isClient := "active", true;
      } else {
        return Some(SetupUnsupported);
      }
      return None;
    }
  }

  // ------------------------------------------------------ the validators agree

  /** ApplyAnswer has one error for both ICE credentials, ParseOfferAndAnswer has two. */
  function AsAnswer(r: Result<Remote>): Result<Remote> {
    if r.Err? && (r.error.UfragMissing? || r.error.PwdMissing?) then Err(IceMissing) else r
  }

  lemma ParametersAgree(raw: Option<Session>, parse: Parser)
    ensures AnswerParameters(raw, parse) == AsAnswer(OfferParameters(raw, parse))
  {
    hide Lookup, Fields, EqualFold, Decoded, OpusPayload, Candidates, ToUpper, ToLower, CompatibleAudio;
  }

  predicate OfferState(n: Neg) { n.certificate.Some? && n.localUfrag != "" && n.localPwd != "" }

  /**
   ApplyAnswer accepts exactly what ParseOfferAndAnswer accepts with a setup other than
   actpass, and both then hold the same remote parameters and the same role.
   */
  lemma ValidatorsAgree(n: Neg, raw: Option<Session>, cert: Digest, ip: string, port: int,
                        ufrag: seq<U8>, pwd: seq<U8>, parse: Parser)
    requires OfferState(n)
    ensures
      var applied := Applied(n, raw, parse);
      var parsed := ParseOfferAndAnswer(raw, cert, ip, port, Some(ufrag), Some(pwd), parse);
      && (applied.1.None? <==> parsed.Ok? && parsed.value.remoteSetup != "actpass")
      && (applied.1.None? ==>
          var a, p := applied.0, parsed.value;
          && a.remoteFingerprint == p.remoteFingerprint && a.remoteSetup == p.remoteSetup
          && a.remoteUfrag == p.remoteUfrag && a.remotePwd == p.remotePwd
          && a.remoteCandidates == p.remoteCandidates && a.payloadType == p.payloadType
          && a.localSetup == p.localSetup && a.isClient == p.isClient)
  {
    hide OfferParameters, AnswerParameters;
    ParametersAgree(raw, parse);
    assert "active"[1] != "passive"[1] && |"actpass"| == |"passive"| && "actpass"[0] != "passive"[0];
  }

  // ------------------------------------------------------ where parameters come from

  predicate FirstWith(attrs: seq<Attr>, key: Key, i: nat) {
    i < |attrs| && attrs[i].key == key && forall j :: 0 <= j < i ==> attrs[j].key != key
  }

  predicate NoneWith(attrs: seq<Attr>, key: Key) { forall j :: 0 <= j < |attrs| ==> attrs[j].key != key }

  /** The value of the section's first attribute with the key, or, if it has none, of the session's first. */
  predicate Told(m: Media, s: Session, key: Key, value: string) {
    || (exists i :: 0 <= i < |m.attributes| && FirstWith(m.attributes, key, i) && m.attributes[i].value == value)
    || (&& NoneWith(m.attributes, key)
        && exists i :: 0 <= i < |s.attributes| && FirstWith(s.attributes, key, i) && s.attributes[i].value == value)
  }

  /** An rtpmap attribute of stereo Opus at 48 kHz for an offered payload type below 128. */
  predicate OpusLine(a: Attr, formats: seq<string>, v: int) {
    && a.key == RtpmapKey
    && var f := Fields(a.value);
       |f| == 2 && EqualFold(f[1], "opus/48000/2") && Atoi(f[0]) == Some(v) && 0 <= v <= 127 && f[0] in formats
  }

  predicate IsWebRtcAudio(m: Media) { m.kind == "audio" && EqualFold(Join(m.protos, "/"), "UDP/TLS/RTP/SAVPF") }

  /** The first audio section with the WebRTC profile. */
  predicate FirstAudio(media: seq<Media>, k: nat) {
    k < |media| && IsWebRtcAudio(media[k]) && forall j :: 0 <= j < k ==> !IsWebRtcAudio(media[j])
  }

  /** The remote half of the record is what audio section `k` of the description tells. */
  ghost predicate Recorded(n: Neg, s: Session, k: nat, parse: Parser)
    requires k < |s.media|
  {
    var m := s.media[k];
    && Told(m, s, UfragKey, n.remoteUfrag) && Told(m, s, PwdKey, n.remotePwd)
    && (exists v :: Told(m, s, SetupKey, v) && n.remoteSetup == ToLower(v))
    && (exists v :: Told(m, s, FingerprintKey, v) && |Fields(v)| == 2 && n.remoteFingerprint == ToUpper(Fields(v)[1]))
    && !NoneWith(m.attributes, RtcpMuxKey)
    && (exists i :: && 0 <= i < |m.attributes| && OpusLine(m.attributes[i], m.formats, n.payloadType)
                    && forall j, v :: 0 <= j < i ==> !OpusLine(m.attributes[j], m.formats, v))
    && (exists at :: TakenFrom(m.attributes, parse, n.remoteCandidates, at))
    && n.remoteCandidates != [] && Represents(m.attributes, parse, n.remoteCandidates)
  }

  lemma {:induction false} LookupIff(attrs: seq<Attr>, key: Key)
    ensures Lookup(attrs, key).None? ==> NoneWith(attrs, key)
    ensures Lookup(attrs, key).Some? ==>
      exists i :: 0 <= i < |attrs| && FirstWith(attrs, key, i) && attrs[i].value == Lookup(attrs, key).value
  {
    if attrs != [] {
      if attrs[0].key == key {
        assert FirstWith(attrs, key, 0);
      } else {
        LookupIff(attrs[1..], key);
        if Lookup(attrs, key).Some? {
          var rest := attrs[1..];
          var i :| 0 <= i < |rest| && FirstWith(rest, key, i) && rest[i].value == Lookup(attrs, key).value;
          assert forall j :: 1 <= j < |attrs| ==> attrs[j] == attrs[1..][j - 1];
          assert FirstWith(attrs, key, i + 1);
        }
      }
    }
  }

  lemma EitherIff(m: Media, s: Session, key: Key)
    ensures forall v :: LookupEither(m, s, key) == Some(v) <==> Told(m, s, key, v)
  {
    LookupIff(m.attributes, key);
    LookupIff(s.attributes, key);
    hide Lookup;
    forall v ensures LookupEither(m, s, key) == Some(v) <==> Told(m, s, key, v) {
    }
  }

  lemma {:induction false} OpusIsFirst(attrs: seq<Attr>, formats: seq<string>)
    ensures OpusPayload(attrs, formats).Some? ==>
      exists i :: && 0 <= i < |attrs| && OpusLine(attrs[i], formats, OpusPayload(attrs, formats).value)
                  && forall j, v :: 0 <= j < i ==> !OpusLine(attrs[j], formats, v)
  {
    if attrs != [] {
      var v := OpusPayload(attrs, formats);
      assert forall v :: OpusLine(attrs[0], formats, v) <==> OpusOf(attrs[0], formats) == Some(v);
      hide OpusLine, OpusOf;
      if OpusOf(attrs[0], formats).None? && v.Some? {
        OpusIsFirst(attrs[1..], formats);
        var i :| && 0 <= i < |attrs[1..]| && OpusLine(attrs[1..][i], formats, v.value)
                 && forall j, v :: 0 <= j < i ==> !OpusLine(attrs[1..][j], formats, v);
        assert forall j :: 1 <= j < |attrs| ==> attrs[j] == attrs[1..][j - 1];
        assert OpusLine(attrs[i + 1], formats, v.value);
      } else if v.Some? {
        assert OpusLine(attrs[0], formats, v.value);
      }
    }
  }

  lemma {:induction false} AudioIsFirst(media: seq<Media>, k: nat)
    requires FirstAudio(media, k)
    ensures CompatibleAudio(media) == Some(media[k])
  {
    hide EqualFold, Join;
    if k > 0 {
      assert !Compatible(media[0]);
      assert forall j :: 1 <= j < |media| ==> media[j] == media[1..][j - 1];
      AudioIsFirst(media[1..], k - 1);
    }
  }

  lemma {:induction false} NoAudio(media: seq<Media>)
    requires forall k :: 0 <= k < |media| ==> !FirstAudio(media, k)
    ensures CompatibleAudio(media).None?
  {
    hide EqualFold, Join;
    if media != [] {
      assert !FirstAudio(media, 0);
      forall k | 0 <= k < |media[1..]| ensures !FirstAudio(media[1..], k) {
        assert !FirstAudio(media, k + 1);
        assert forall j :: 1 <= j < |media| ==> media[j] == media[1..][j - 1];
      }
      NoAudio(media[1..]);
    }
  }

  lemma ParametersFromSection(s: Session, k: nat, parse: Parser)
    requires FirstAudio(s.media, k) && AnswerParameters(Some(s), parse).Ok?
    ensures
      var m, r := s.media[k], AnswerParameters(Some(s), parse).value;
      var fp, setup := LookupEither(m, s, FingerprintKey), LookupEither(m, s, SetupKey);
      && fp.Some? && |Fields(fp.value)| == 2 && r.fingerprint == ToUpper(Fields(fp.value)[1])
      && setup.Some? && r.setup == ToLower(setup.value)
      && LookupEither(m, s, UfragKey) == Some(r.ufrag) && LookupEither(m, s, PwdKey) == Some(r.pwd)
      && Lookup(m.attributes, RtcpMuxKey).Some?
      && OpusPayload(m.attributes, m.formats) == Some(r.payloadType)
      && r.candidates == Candidates(m.attributes, parse) && r.candidates != []
  {
    AudioIsFirst(s.media, k);
    hide CompatibleAudio, FirstAudio, Lookup, LookupEither, Fields, EqualFold, Decoded, OpusPayload, Candidates;
    hide ToUpper, ToLower;
  }

  lemma ParametersAreTold(s: Session, k: nat, parse: Parser, n: Neg)
    requires FirstAudio(s.media, k) && AnswerParameters(Some(s), parse).Ok?
    ensures Recorded(WithRemote(n, AnswerParameters(Some(s), parse).value), s, k, parse)
  {
    hide AnswerParameters, FirstAudio, Lookup, LookupEither, Told, NoneWith, Fields, OpusLine, OpusPayload, Candidates;
    hide TakenFrom, Represents, ToUpper, ToLower;
    FirstAudioExists(s.media, k);
    var m := s.media[k];
    ParametersFromSection(s, k, parse);
    EitherIff(m, s, FingerprintKey);
    EitherIff(m, s, SetupKey);
    EitherIff(m, s, UfragKey);
    EitherIff(m, s, PwdKey);
    MuxIff(m.attributes);
    OpusIsFirst(m.attributes, m.formats);
    var at := CandidatesAreTheFirstGoodLines(m.attributes, parse);
  }

  /**
   Whichever function accepts a description, the parameters it records are those of the first
   compatible audio section, where each attribute of the section takes precedence over the
   session's; and a description without such a section is never accepted.
   */
  lemma AcceptedParametersAreTold(n: Neg, s: Session, cert: Digest, ip: string, port: int,
                                  ufrag: Option<seq<U8>>, pwd: Option<seq<U8>>, parse: Parser, k: nat)
    ensures Applied(n, Some(s), parse).1.None? && FirstAudio(s.media, k) ==>
      Recorded(Applied(n, Some(s), parse).0, s, k, parse)
    ensures
      var parsed := ParseOfferAndAnswer(Some(s), cert, ip, port, ufrag, pwd, parse);
      parsed.Ok? && FirstAudio(s.media, k) ==> Recorded(parsed.value, s, k, parse)
    ensures (forall j :: 0 <= j < |s.media| ==> !FirstAudio(s.media, j)) ==>
      && Applied(n, Some(s), parse).1.Some?
      && ParseOfferAndAnswer(Some(s), cert, ip, port, ufrag, pwd, parse).Err?
  {
    hide OfferParameters, AnswerParameters, Recorded, FirstAudio;
    ParametersAgree(Some(s), parse);
    if forall j :: 0 <= j < |s.media| ==> !FirstAudio(s.media, j) {
      NoAudioNoParameters(s, parse);
    } else if AnswerParameters(Some(s), parse).Ok? && FirstAudio(s.media, k) {
      RecordedIgnoresLocal(n, s, k, cert, ip, port, ufrag, pwd, parse);
    }
  }

  lemma NoAudioNoParameters(s: Session, parse: Parser)
    requires forall j :: 0 <= j < |s.media| ==> !FirstAudio(s.media, j)
    ensures AnswerParameters(Some(s), parse).Err?
  {
    NoAudio(s.media);
    hide CompatibleAudio, FirstAudio;
  }

  lemma FirstAudioExists(media: seq<Media>, k: nat)
    requires FirstAudio(media, k)
    ensures k < |media|
  {
  }

  lemma SameRemoteRecorded(n: Neg, a: Neg, s: Session, k: nat, parse: Parser)
    requires k < |s.media| && Recorded(n, s, k, parse)
    requires n.remoteUfrag == a.remoteUfrag && n.remotePwd == a.remotePwd && n.remoteSetup == a.remoteSetup
    requires n.remoteFingerprint == a.remoteFingerprint && n.payloadType == a.payloadType
    requires n.remoteCandidates == a.remoteCandidates
    ensures Recorded(a, s, k, parse)
  {
    hide Told, NoneWith, OpusLine, TakenFrom, Represents, Fields, ToUpper, ToLower;
  }

  lemma RecordedIgnoresLocal(n: Neg, s: Session, k: nat, cert: Digest, ip: string, port: int,
                             ufrag: Option<seq<U8>>, pwd: Option<seq<U8>>, parse: Parser)
    requires FirstAudio(s.media, k) && AnswerParameters(Some(s), parse).Ok?
    ensures Applied(n, Some(s), parse).1.None? ==> Recorded(Applied(n, Some(s), parse).0, s, k, parse)
    ensures
      var parsed := ParseOfferAndAnswer(Some(s), cert, ip, port, ufrag, pwd, parse);
      parsed.Ok? ==> Recorded(parsed.value, s, k, parse)
  {
    hide OfferParameters, AnswerParameters, Recorded, FirstAudio, HexEncodeLower;
    var known := WithRemote(n, AnswerParameters(Some(s), parse).value);
    ParametersAreTold(s, k, parse, n);
    ParametersAgree(Some(s), parse);
    FirstAudioExists(s.media, k);
    var applied, parsed := Applied(n, Some(s), parse), ParseOfferAndAnswer(Some(s), cert, ip, port, ufrag, pwd, parse);
    if applied.1.None? {
      SameRemoteRecorded(known, applied.0, s, k, parse);
    }
    if parsed.Ok? {
      SameRemoteRecorded(known, parsed.value, s, k, parse);
    }
  }

  /** A passive peer makes us the DTLS client, an active one does not. */
  predicate RoleFollows(n: Neg) {
    if n.remoteSetup == "passive" then n.isClient && n.localSetup == "active"
    else !n.isClient && n.localSetup == "passive"
  }

  /** Who offers to be active is answered passively, and the other way round. */
  lemma RolesFollowSetup(n: Neg, raw: Option<Session>, cert: Digest, ip: string, port: int,
                         ufrag: Option<seq<U8>>, pwd: Option<seq<U8>>, parse: Parser)
    ensures
      var (a, err) := Applied(n, raw, parse);
      err.None? ==> (a.remoteSetup == "active" || a.remoteSetup == "passive") && RoleFollows(a)
    ensures
      var parsed := ParseOfferAndAnswer(raw, cert, ip, port, ufrag, pwd, parse);
      parsed.Ok? ==>
        && (parsed.value.remoteSetup in ["actpass", "active", "passive"])
        && RoleFollows(parsed.value)
  {
    hide OfferParameters, AnswerParameters, HexEncodeLower;
    assert "active"[0] == 'a' && "actpass"[0] == 'a' && "passive"[0] == 'p';
    var words := ["actpass", "active", "passive"];
    assert words[0] == "actpass" && words[1] == "active" && words[2] == "passive";
  }

  /** What the answerer is given about itself goes into its record. */
  lemma LocalParametersAreGiven(raw: Option<Session>, cert: Digest, ip: string, port: int,
                                ufrag: Option<seq<U8>>, pwd: Option<seq<U8>>, parse: Parser)
    ensures
      var parsed := ParseOfferAndAnswer(raw, cert, ip, port, ufrag, pwd, parse);
      parsed.Ok? ==>
        var p := parsed.value;
        && p.certificate == Some(cert) && p.localIP == ip && p.localPort == port % 65536
        && ufrag.Some? && HexDecode(p.localUfrag) == ufrag && pwd.Some? && HexDecode(p.localPwd) == pwd
  {
    hide OfferParameters, HexDecode, HexEncodeLower;
    if ufrag.Some? {
      HexLowerRoundTrip(ufrag.value);
    }
    if pwd.Some? {
      HexLowerRoundTrip(pwd.value);
    }
  }

  // ------------------------------------------------- rejected answers are harmless

  /** Two negotiations of the same offer: equal in everything an answer does not set. */
  predicate SameOffer(a: Neg, b: Neg) {
    && a.certificate == b.certificate && a.localUfrag == b.localUfrag && a.localPwd == b.localPwd
    && a.localIP == b.localIP && a.localPort == b.localPort
  }

  lemma AppliedKeepsOffer(n: Neg, answer: Result<Remote>)
    ensures SameOffer(n, AppliedParameters(n, answer).0)
  {
  }

  /** Acceptance and its outcome depend on the offer only, not on what an earlier answer left. */
  lemma OutcomeDependsOnOffer(a: Neg, b: Neg, answer: Result<Remote>)
    requires SameOffer(a, b)
    ensures AppliedParameters(a, answer).1 == AppliedParameters(b, answer).1
    ensures AppliedParameters(a, answer).1.None? ==> AppliedParameters(a, answer).0 == AppliedParameters(b, answer).0
  {
  }

  /** Trying answers one after another on the same record. */
  function AfterAnswers(n: Neg, answers: seq<Result<Remote>>): Neg {
    if answers == [] then n
    else AppliedParameters(AfterAnswers(n, answers[..|answers| - 1]), answers[|answers| - 1]).0
  }

  lemma {:induction false} AfterAnswersKeepsOffer(n: Neg, answers: seq<Result<Remote>>)
    ensures SameOffer(n, AfterAnswers(n, answers))
  {
    if answers != [] {
      hide AppliedParameters;
      AfterAnswersKeepsOffer(n, answers[..|answers| - 1]);
      AppliedKeepsOffer(AfterAnswers(n, answers[..|answers| - 1]), answers[|answers| - 1]);
    }
  }

  /**
   However many answers were tried before, and although rejected ones may write to the
   record, the next answer fares as on the original offer, and if accepted leaves the
   same negotiation.
   */
  lemma {:induction false} EarlierAnswersDoNotMatter(n: Neg, tried: seq<Result<Remote>>, answer: Result<Remote>)
    ensures AppliedParameters(AfterAnswers(n, tried), answer).1 == AppliedParameters(n, answer).1
    ensures AppliedParameters(n, answer).1.None? ==> AfterAnswers(n, tried + [answer]) == AppliedParameters(n, answer).0
  {
    hide AppliedParameters;
    AfterAnswersKeepsOffer(n, tried);
    OutcomeDependsOnOffer(n, AfterAnswers(n, tried), answer);
    assert (tried + [answer])[..|tried|] == tried;
  }

  // ------------------------------------------------------ what a rejection leaves

  /** The section has a SHA-256 fingerprint, a setup, rtcp-mux, ICE credentials, Opus and a usable candidate. */
  ghost predicate Complete(s: Session, k: nat, parse: Parser)
    requires k < |s.media|
  {
    var m := s.media[k];
    && (exists v :: Told(m, s, FingerprintKey, v) && IsSha256(v))
    && (exists v :: Told(m, s, SetupKey, v))
    && !NoneWith(m.attributes, RtcpMuxKey)
    && (exists v :: Told(m, s, UfragKey, v) && v != "")
    && (exists v :: Told(m, s, PwdKey, v) && v != "")
    && (exists i, v :: 0 <= i < |m.attributes| && OpusLine(m.attributes[i], m.formats, v))
    && (exists i :: 0 <= i < |m.attributes| && GoodLine(m.attributes[i], parse))
  }

  predicate IsSha256(value: string) {
    var f := Fields(value); |f| == 2 && EqualFold(f[0], "sha-256") && Decoded(f[1]).Some?
  }

  /** The first compatible audio section carries everything that is checked, whatever its setup says. */
  ghost predicate Usable(raw: Option<Session>, parse: Parser) {
    raw.Some? && exists k :: FirstAudio(raw.value.media, k) && Complete(raw.value, k, parse)
  }

  lemma {:induction false} OpusPayloadIff(attrs: seq<Attr>, formats: seq<string>)
    ensures OpusPayload(attrs, formats).Some? <==>
      exists i, v :: 0 <= i < |attrs| && OpusLine(attrs[i], formats, v)
  {
    if attrs != [] {
      assert forall v :: OpusLine(attrs[0], formats, v) <==> OpusOf(attrs[0], formats) == Some(v);
      hide OpusOf, OpusLine;
      OpusPayloadIff(attrs[1..], formats);
      assert forall i :: 1 <= i < |attrs| ==> attrs[1..][i - 1] == attrs[i];
      if OpusOf(attrs[0], formats).Some? {
        assert OpusLine(attrs[0], formats, OpusOf(attrs[0], formats).value);
      } else if OpusPayload(attrs, formats).Some? {
        var i, v :| 0 <= i < |attrs[1..]| && OpusLine(attrs[1..][i], formats, v);
        assert OpusLine(attrs[i + 1], formats, v);
      }
    }
  }

  lemma CandidatesIff(attrs: seq<Attr>, parse: Parser)
    ensures Candidates(attrs, parse) != [] <==> exists i :: 0 <= i < |attrs| && GoodLine(attrs[i], parse)
  {
    var at := CandidatesAreTheFirstGoodLines(attrs, parse);
    hide Candidates, GoodLine;
    if Candidates(attrs, parse) != [] {
      assert GoodLine(attrs[at[0]], parse);
    }
  }

  lemma MuxIff(attrs: seq<Attr>)
    ensures Lookup(attrs, RtcpMuxKey).Some? <==> !NoneWith(attrs, RtcpMuxKey)
  {
    LookupIff(attrs, RtcpMuxKey);
  }

  lemma SectionIff(s: Session, k: nat, parse: Parser)
    requires FirstAudio(s.media, k)
    ensures AnswerParameters(Some(s), parse).Ok? <==> Complete(s, k, parse)
  {
    AudioIsFirst(s.media, k);
    var m := s.media[k];
    hide CompatibleAudio, FirstAudio, Lookup, LookupEither, Told, NoneWith, Fields, EqualFold, Decoded, OpusLine;
    hide OpusPayload, Candidates, GoodLine, ToUpper, ToLower;
    EitherIff(m, s, FingerprintKey);
    EitherIff(m, s, SetupKey);
    EitherIff(m, s, UfragKey);
    EitherIff(m, s, PwdKey);
    MuxIff(m.attributes);
    OpusPayloadIff(m.attributes, m.formats);
    CandidatesIff(m.attributes, parse);
  }

  /** The checks before the setup succeed exactly for usable descriptions. */
  lemma ParametersIff(raw: Option<Session>, parse: Parser)
    ensures AnswerParameters(raw, parse).Ok? <==> Usable(raw, parse)
  {
    hide AnswerParameters, Complete, FirstAudio;
    if raw.Some? {
      if k :| 0 <= k < |raw.value.media| && FirstAudio(raw.value.media, k) {
        SectionIff(raw.value, k, parse);
        forall j | FirstAudio(raw.value.media, j) ensures j == k {
          OneFirstAudio(raw.value.media, j, k);
        }
      } else {
        NoAudioNoParameters(raw.value, parse);
        forall j | FirstAudio(raw.value.media, j) ensures false {
          FirstAudioExists(raw.value.media, j);
        }
      }
    } else {
      NothingToParse(parse);
    }
  }

  lemma NothingToParse(parse: Parser)
    ensures AnswerParameters(None, parse).Err?
  {
  }

  lemma OneFirstAudio(media: seq<Media>, j: nat, k: nat)
    requires FirstAudio(media, j) && FirstAudio(media, k)
    ensures j == k
  {
    hide EqualFold, Join;
  }

  /** What a usable description tells; `AcceptedParametersAreTold` says where it comes from. */
  ghost function Announced(raw: Option<Session>, parse: Parser): Remote
    requires Usable(raw, parse)
  {
    ParametersIff(raw, parse);
    AnswerParameters(raw, parse).value
  }

  /** The first compatible audio section, or the session for it, says the word. */
  ghost predicate SaysSetup(s: Session, word: string) {
    exists k: nat, v :: FirstAudio(s.media, k) && Told(s.media[k], s, SetupKey, v) && ToLower(v) == word
  }

  /** An answer is accepted exactly if there is an offer, it is usable, and it takes one of the two roles. */
  lemma AcceptedIff(n: Neg, raw: Option<Session>, parse: Parser)
    ensures Applied(n, raw, parse).1.None? <==>
      OfferState(n) && Usable(raw, parse) && (SaysSetup(raw.value, "active") || SaysSetup(raw.value, "passive"))
  {
    hide AnswerParameters, Usable, SaysSetup;
    ParametersIff(raw, parse);
    NothingToParse(parse);
    if AnswerParameters(raw, parse).Ok? {
      SetupIsSaid(raw, parse, "active");
      SetupIsSaid(raw, parse, "passive");
    }
  }

  lemma SetupIsSaid(raw: Option<Session>, parse: Parser, word: string)
    requires AnswerParameters(raw, parse).Ok? && raw.Some?
    ensures SaysSetup(raw.value, word) <==> AnswerParameters(raw, parse).value.setup == word
  {
    hide AnswerParameters, Complete, FirstAudio, Told, ToLower, LookupEither;
    var s := raw.value;
    var k := UsedSection(s, parse);
    ParametersFromSection(s, k, parse);
    EitherIff(s.media[k], s, SetupKey);
    forall j: nat | FirstAudio(s.media, j) ensures j == k {
      OneFirstAudio(s.media, j, k);
    }
  }

  lemma UsedSection(s: Session, parse: Parser) returns (k: nat)
    requires AnswerParameters(Some(s), parse).Ok?
    ensures FirstAudio(s.media, k) && k < |s.media|
  {
    ParametersIff(Some(s), parse);
    hide AnswerParameters, Complete, EqualFold, Join;
    k :| FirstAudio(s.media, k) && Complete(s, k, parse);
  }

  /** The record already holds the six parameters. */
  predicate AlreadyHolds(n: Neg, r: Remote) {
    && n.remoteFingerprint == r.fingerprint && n.remoteSetup == r.setup
    && n.remoteUfrag == r.ufrag && n.remotePwd == r.pwd
    && n.remoteCandidates == r.candidates && n.payloadType == r.payloadType
  }

  /**
   A rejected answer leaves the record as it was exactly if it was rejected for something
   else than its setup, or tells nothing new.
   */
  lemma RejectionLeavesRecordIff(n: Neg, raw: Option<Session>, parse: Parser)
    requires Applied(n, raw, parse).1.Some?
    ensures Applied(n, raw, parse).0 == n <==>
      !OfferState(n) || !Usable(raw, parse) || AlreadyHolds(n, Announced(raw, parse))
  {
    hide AnswerParameters, Usable;
    ParametersIff(raw, parse);
  }

  // ------------------------------------------------------------ offer and answer

  /** The attributes that buildOffer and buildAnswer print, in their order. */
  function Described(n: Neg, payload: string, setup: string): Session
    requires n.certificate.Some?
  {
    Session(
      [Attr(OtherKey("group"), "BUNDLE 0"), Attr(OtherKey("msid-semantic"), " WMS")],
      [Media("audio", ["UDP", "TLS", "RTP", "SAVPF"], [payload], [
        Attr(OtherKey("mid"), "0"),
        Attr(OtherKey("sendrecv"), ""),
        Attr(RtcpMuxKey, ""),
        Attr(RtpmapKey, payload + " " + "opus/48000/2"),
        Attr(OtherKey("fmtp"), payload + " minptime=10;useinbandfec=1"),
        Attr(UfragKey, n.localUfrag),
        Attr(PwdKey, n.localPwd),
        Attr(CandidateKey, HostCandidate(n)),
        Attr(OtherKey("end-of-candidates"), ""),
        Attr(FingerprintKey, "sha-256" + " " + Printed(n.certificate.value)),
        Attr(SetupKey, setup)])])
  }

  function HostCandidate(n: Neg): string {
    "1 1 udp 2130706431 " + n.localIP + " " + Itoa(n.localPort) + " typ host"
  }

  function BuildOffer(n: Neg): Session
    requires n.certificate.Some?
  {
    Described(n, "111", "actpass")
  }

  function BuildAnswer(n: Neg): Session
    requires n.certificate.Some?
  {
    Described(n, Itoa(n.payloadType), n.localSetup)
  }

  lemma {:induction false} LookupFirst(attrs: seq<Attr>, key: Key, i: nat)
    requires i < |attrs| && attrs[i].key == key
    requires forall j :: 0 <= j < i ==> attrs[j].key != key
    ensures Lookup(attrs, key) == Some(attrs[i].value)
  {
    if i > 0 {
      assert attrs[0].key != key;
      LookupFirst(attrs[1..], key, i - 1);
    }
  }

  lemma {:induction false} OpusFirst(attrs: seq<Attr>, formats: seq<string>, i: nat)
    requires i < |attrs| && OpusOf(attrs[i], formats).Some?
    requires forall j :: 0 <= j < i ==> attrs[j].key != RtpmapKey
    ensures OpusPayload(attrs, formats) == OpusOf(attrs[i], formats)
  {
    if i > 0 {
      assert attrs[0].key != RtpmapKey;
      OpusFirst(attrs[1..], formats, i - 1);
    }
  }

  lemma {:induction false} OneCandidate(attrs: seq<Attr>, parse: Parser, i: nat)
    requires i < |attrs| && CandidateOf(attrs[i], parse).Some?
    requires forall j :: 0 <= j < |attrs| && j != i ==> attrs[j].key != CandidateKey
    ensures Candidates(attrs, parse) == [CandidateOf(attrs[i], parse).value]
  {
    var init, last := attrs[..|attrs| - 1], attrs[|attrs| - 1];
    if i == |init| {
      NoCandidates(init, parse);
    } else {
      OneCandidate(init, parse, i);
    }
  }

  lemma {:induction false} NoCandidates(attrs: seq<Attr>, parse: Parser)
    requires forall j :: 0 <= j < |attrs| ==> attrs[j].key != CandidateKey
    ensures Candidates(attrs, parse) == []
  {
    if attrs != [] {
      NoCandidates(attrs[..|attrs| - 1], parse);
    }
  }

  lemma ProfileIsCompatible()
    ensures EqualFold(Join(["UDP", "TLS", "RTP", "SAVPF"], "/"), "UDP/TLS/RTP/SAVPF")
  {
    var p := ["UDP", "TLS", "RTP", "SAVPF"];
    assert p[..3][..2][..1] == ["UDP"];
    assert Join(p[..3][..2], "/") == "UDP/TLS";
    assert Join(p[..3], "/") == "UDP/TLS" + "/" + "RTP";
    assert Join(p, "/") == "UDP/TLS/RTP" + "/" + "SAVPF" == "UDP/TLS/RTP/SAVPF";
  }

  lemma OpusAttribute(v: U8, formats: seq<string>)
    requires v <= 127 && Itoa(v) in formats
    ensures OpusOf(Attr(RtpmapKey, Itoa(v) + " " + "opus/48000/2"), formats) == Some(v)
  {
    ItoaRoundTrip(v);
    var codec := "opus/48000/2";
    assert NoSpace(codec);
    FieldsOfTwoWords(Itoa(v), codec);
  }

  lemma FingerprintAttribute(d: Digest)
    ensures Fields("sha-256" + " " + Printed(d)) == ["sha-256", Printed(d)]
    ensures Decoded(Printed(d)).Some? && ToUpper(Printed(d)) == Printed(d)
  {
    PrintedChars(d);
    assert NoSpace("sha-256");
    PrintedDecodes(d);
    PrintedIsUpper(d);
    FieldsOfTwoWords("sha-256", Printed(d));
  }

  lemma DescribedLookups(n: Neg, payload: string, setup: string)
    requires n.certificate.Some?
    ensures
      var attrs := Described(n, payload, setup).media[0].attributes;
      && Lookup(attrs, RtcpMuxKey) == Some("")
      && Lookup(attrs, UfragKey) == Some(n.localUfrag)
      && Lookup(attrs, PwdKey) == Some(n.localPwd)
      && Lookup(attrs, FingerprintKey) == Some("sha-256" + " " + Printed(n.certificate.value))
      && Lookup(attrs, SetupKey) == Some(setup)
  {
    hide Printed, Itoa, HostCandidate, Lookup;
    var attrs := Described(n, payload, setup).media[0].attributes;
    LookupFirst(attrs, RtcpMuxKey, 2);
    LookupFirst(attrs, UfragKey, 5);
    LookupFirst(attrs, PwdKey, 6);
    LookupFirst(attrs, FingerprintKey, 9);
    LookupFirst(attrs, SetupKey, 10);
  }

  lemma DescribedAudio(n: Neg, payload: string, setup: string)
    requires n.certificate.Some?
    ensures
      var session := Described(n, payload, setup);
      CompatibleAudio(session.media) == Some(session.media[0])
  {
    ProfileIsCompatible();
    hide Printed, HostCandidate, EqualFold, Join;
  }

  lemma DescribedOpus(n: Neg, pt: U8, setup: string)
    requires n.certificate.Some? && pt <= 127
    ensures
      var m := Described(n, Itoa(pt), setup).media[0];
      OpusPayload(m.attributes, m.formats) == Some(pt)
  {
    hide Printed, Itoa, HostCandidate, OpusPayload, OpusOf;
    var m := Described(n, Itoa(pt), setup).media[0];
    OpusAttribute(pt, m.formats);
    OpusFirst(m.attributes, m.formats, 3);
  }

  lemma DescribedCandidate(n: Neg, payload: string, setup: string, parse: Parser)
    requires n.certificate.Some?
    requires parse(HostCandidate(n)).Some? && Supported(parse(HostCandidate(n)).value)
    ensures Candidates(Described(n, payload, setup).media[0].attributes, parse) == [parse(HostCandidate(n)).value]
  {
    hide Printed, Itoa, HostCandidate, Supported, Candidates;
    OneCandidate(Described(n, payload, setup).media[0].attributes, parse, 7);
  }

  /** Reading back what was printed yields the printer's own parameters. */
  lemma DescriptionReadsBack(n: Neg, pt: U8, setup: string, parse: Parser)
    requires OfferState(n) && pt <= 127
    requires parse(HostCandidate(n)).Some? && Supported(parse(HostCandidate(n)).value)
    ensures OfferParameters(Some(Described(n, Itoa(pt), setup)), parse) ==
            Ok(Remote(Printed(n.certificate.value), ToLower(setup), n.localUfrag, n.localPwd,
                      [parse(HostCandidate(n)).value], pt))
  {
    hide Fields, EqualFold, Decoded, ToUpper, ToLower, Printed, Itoa, Supported, HostCandidate;
    hide Lookup, Candidates, OpusPayload, CompatibleAudio, Described;
    DescribedAudio(n, Itoa(pt), setup);
    DescribedOpus(n, pt, setup);
    DescribedCandidate(n, Itoa(pt), setup, parse);
    DescribedLookups(n, Itoa(pt), setup);
    FingerprintAttribute(n.certificate.value);
    FoldReflexive("sha-256");
  }

  lemma FoldReflexive(s: string)
    ensures EqualFold(s, s)
  {
  }

  lemma SetupWords()
    ensures ToLower("actpass") == "actpass" && ToLower("active") == "active" && ToLower("passive") == "passive"
    ensures "actpass" != "active" && "actpass" != "passive" && "active" != "passive"
    ensures Itoa(111) == "111"
  {
    assert "active"[0] != "passive"[0] && "actpass"[0] != "passive"[0];
    assert Itoa(1) == "1";
    assert Itoa(11) == "1" + "1" == "11";
  }

  /**
   An offer of ours that is answered by ParseOfferAndAnswer, whose answer is then applied:
   both sides accept, hold each other's credentials, fingerprint, candidate and payload
   type, and exactly one of them is the DTLS client.
   */
  lemma OfferAnswerRoundTrip(offerer: Neg, cert: Digest, ip: string, port: int,
                             ufrag: seq<U8>, pwd: seq<U8>, parse: Parser)
    requires OfferState(offerer) && ufrag != [] && pwd != []
    requires parse(HostCandidate(offerer)).Some? && Supported(parse(HostCandidate(offerer)).value)
    ensures ParseOfferAndAnswer(Some(BuildOffer(offerer)), cert, ip, port, Some(ufrag), Some(pwd), parse).Ok?
    ensures
      var offered := Some(BuildOffer(offerer));
      var answerer := ParseOfferAndAnswer(offered, cert, ip, port, Some(ufrag), Some(pwd), parse).value;
      && answerer.remoteFingerprint == Printed(offerer.certificate.value)
      && answerer.remoteUfrag == offerer.localUfrag && answerer.remotePwd == offerer.localPwd
      && answerer.remoteCandidates == [parse(HostCandidate(offerer)).value]
      && OfferState(answerer)
      && (parse(HostCandidate(answerer)).Some? && Supported(parse(HostCandidate(answerer)).value) ==>
          var (applied, err) := Applied(offerer, Some(BuildAnswer(answerer)), parse);
          && err.None?
          && applied.remoteFingerprint == Printed(cert)
          && applied.remoteUfrag == answerer.localUfrag && applied.remotePwd == answerer.localPwd
          && applied.remoteCandidates == [parse(HostCandidate(answerer)).value]
          && applied.payloadType == answerer.payloadType == 111
          && applied.isClient != answerer.isClient)
  {
    SetupWords();
    hide OfferParameters, AnswerParameters, Described, HostCandidate, Supported, Itoa, ToLower;
    DescriptionReadsBack(offerer, 111, "actpass", parse);
    var answerer := ParseOfferAndAnswer(Some(BuildOffer(offerer)), cert, ip, port, Some(ufrag), Some(pwd), parse).value;
    assert OfferState(answerer);
    if parse(HostCandidate(answerer)).Some? && Supported(parse(HostCandidate(answerer)).value) {
      DescriptionReadsBack(answerer, 111, "passive", parse);
      ParametersAgree(Some(BuildAnswer(answerer)), parse);
    }
  }

  /** The same for an offer that NewOffer made: it offers every role, and one client results. */
  lemma NewOfferLeavesOneClient(own: Option<Digest>, is4: bool, ip: string, port: int,
                                u: Option<seq<U8>>, p: Option<seq<U8>>,
                                cert: Digest, ip': string, port': int, ufrag: seq<U8>, pwd: seq<U8>, parse: Parser)
    requires u.Some? ==> u.value != []
    requires p.Some? ==> p.value != []
    requires ufrag != [] && pwd != []
    ensures
      var offer := NewOffer(own, is4, ip, port, u, p);
      && (offer.Ok? <==> own.Some? && is4 && 1 <= port <= 65535 && u.Some? && p.Some?)
      && (offer.Ok? ==> OfferState(offer.value) && offer.value.localSetup == "actpass"
                        && offer.value.certificate == own && offer.value.localIP == ip
                        && offer.value.localPort == port && offer.value.payloadType == 111)
      && (offer.Ok? && parse(HostCandidate(offer.value)).Some? && Supported(parse(HostCandidate(offer.value)).value) ==>
          var offered := Some(BuildOffer(offer.value));
          var answer := ParseOfferAndAnswer(offered, cert, ip', port', Some(ufrag), Some(pwd), parse);
          && answer.Ok? && answer.value.certificate.Some?
          && (parse(HostCandidate(answer.value)).Some? && Supported(parse(HostCandidate(answer.value)).value) ==>
              var (applied, err) := Applied(offer.value, Some(BuildAnswer(answer.value)), parse);
              err.None? && applied.isClient && !answer.value.isClient))
  {
    var offer := NewOffer(own, is4, ip, port, u, p);
    hide OfferParameters, AnswerParameters, Described, HostCandidate, Supported, Itoa, ToLower, Printed;
    if offer.Ok? && parse(HostCandidate(offer.value)).Some? && Supported(parse(HostCandidate(offer.value)).value) {
      OfferAnswerRoundTrip(offer.value, cert, ip', port', ufrag, pwd, parse);
      SetupWords();
      DescriptionReadsBack(offer.value, 111, "actpass", parse);
    }
  }

  lemma CandidatePrefix(tail: string)
    ensures "1 1 udp 2130706431 " + tail == "1" + " " + ("1" + " " + ("udp" + " " + ("2130706431" + " " + tail)))
  {
    assert "1 1 udp 2130706431 " == "1" + " " + ("1" + " " + ("udp" + " " + ("2130706431" + " ")));
  }

  lemma FourWords(tail: string)
    ensures Fields("1 1 udp 2130706431 " + tail) == ["1", "1", "udp", "2130706431"] + Fields(tail)
  {
    assert NoSpace("1") && NoSpace("udp") && NoSpace("2130706431");
    hide Fields, NoSpace;
    CandidatePrefix(tail);
    FieldsOfWord("2130706431", tail);
    FieldsOfWord("udp", "2130706431" + " " + tail);
    FieldsOfWord("1", "udp" + " " + ("2130706431" + " " + tail));
    FieldsOfWord("1", "1" + " " + ("udp" + " " + ("2130706431" + " " + tail)));
  }

  lemma LastWords(ip: string, port: string)
    requires ip != "" && NoSpace(ip) && port != "" && NoSpace(port)
    ensures Fields(ip + " " + (port + " typ host")) == [ip, port, "typ", "host"]
  {
    assert NoSpace("typ") && NoSpace("host");
    hide Fields, NoSpace;
    assert port + " typ host" == port + " " + ("typ" + " " + "host");
    FieldsOfWord("host", "");
    FieldsOfWord("typ", "host");
    FieldsOfWord(port, "typ" + " " + "host");
    FieldsOfWord(ip, port + " typ host");
  }

  /** The announced candidate is a host candidate for component 1 over UDP with our address and port. */
  lemma HostCandidateWords(n: Neg)
    requires n.localIP != "" && NoSpace(n.localIP)
    ensures Fields(HostCandidate(n)) == ["1", "1", "udp", "2130706431", n.localIP, Itoa(n.localPort), "typ", "host"]
  {
    ItoaRoundTrip(n.localPort);
    hide Fields, Itoa, NoSpace;
    var tail := n.localIP + " " + (Itoa(n.localPort) + " typ host");
    assert HostCandidate(n) == "1 1 udp 2130706431 " + tail;
    FourWords(tail);
    LastWords(n.localIP, Itoa(n.localPort));
  }

  /** It does happen: a complete answer that asks to hold the connection is rejected and leaves its parameters. */
  lemma RejectionCanWrite(n: Neg, other: Neg, parse: Parser)
    requires OfferState(n) && OfferState(other) && n.remoteSetup != "holdconn"
    requires parse(HostCandidate(other)).Some? && Supported(parse(HostCandidate(other)).value)
    ensures
      var (after, err) := Applied(n, Some(Described(other, Itoa(111), "holdconn")), parse);
      && err == Some(SetupUnsupported)
      && after != n && after.remoteSetup == "holdconn" && after.remoteUfrag == other.localUfrag
  {
    var raw := Some(Described(other, Itoa(111), "holdconn"));
    assert ToLower("holdconn") == "holdconn";
    assert "holdconn"[0] == 'h' && "active"[0] == 'a' && "passive"[0] == 'p';
    hide AnswerParameters, OfferParameters, Described, HostCandidate, Supported, Itoa, ToLower, Printed;
    DescriptionReadsBack(other, 111, "holdconn", parse);
    ParametersAgree(raw, parse);
  }
}
