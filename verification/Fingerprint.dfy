/**
 Certificate fingerprints: printed by NewCertificate and by the DTLS verification
 callback, checked by the SDP validators, and compared against the peer's certificate
 (internal/media/sdp.go and internal/media/transport.go).
 */
module Fingerprint {
  import opened Words
  import opened Sequences
  import opened Text

  const DIGEST_SIZE: nat := 32

  type Digest = d: seq<U8> | |d| == DIGEST_SIZE witness seq(DIGEST_SIZE, i => 0)

  /** Upper-case byte pairs separated by colons. */
  function Printed(bytes: seq<U8>): string {
    if bytes == [] then ""
    else if |bytes| == 1 then HexByte(bytes[0])
    else Printed(bytes[..|bytes| - 1]) + ":" + HexByte(bytes[|bytes| - 1])
  }

  /** The formatting loop: one part per byte, then a join. */
  method Format(bytes: seq<U8>) returns (s: string)
    ensures s == Printed(bytes)
  {
    var parts: seq<string> := [];
    for i := 0 to |bytes|
      invariant parts == Parts(bytes[..i])
    {
      assert bytes[..i + 1][..i] == bytes[..i];
      parts := parts + [HexByte(bytes[i])];
    }
    assert bytes[..|bytes|] == bytes;
    JoinIsPrinted(bytes);
    s := Join(parts, ":");
  }

  function Parts(bytes: seq<U8>): (parts: seq<string>)
    ensures |parts| == |bytes|
  {
    if bytes == [] then [] else Parts(bytes[..|bytes| - 1]) + [HexByte(bytes[|bytes| - 1])]
  }

  lemma {:induction false} JoinIsPrinted(bytes: seq<U8>)
    ensures Join(Parts(bytes), ":") == Printed(bytes)
  {
    if |bytes| > 1 {
      JoinIsPrinted(bytes[..|bytes| - 1]);
      assert Parts(bytes)[..|bytes| - 1] == Parts(bytes[..|bytes| - 1]);
    } else if |bytes| == 1 {
      assert Parts(bytes) == [HexByte(bytes[0])];
    }
  }

  /** Removes every colon. */
  function Stripped(s: string): string {
    if s == "" then ""
    else if s[|s| - 1] == ':' then Stripped(s[..|s| - 1])
    else Stripped(s[..|s| - 1]) + [s[|s| - 1]]
  }

  /** The validators' check: 32 bytes of hexadecimal once the colons are gone. */
  function Decoded(s: string): Option<seq<U8>> {
    var bytes := HexDecode(Stripped(s));
    if bytes.Some? && |bytes.value| == DIGEST_SIZE then bytes else None
  }

  /** The DTLS callback: does the peer's certificate digest match what was signalled? */
  predicate Accepts(remote: string, digest: Digest) {
    EqualFold(Printed(digest), remote)
  }

  // ------------------------------------------------------------------- lemmas

  lemma {:induction false} StripAppend(s: string, t: string)
    ensures Stripped(s + t) == Stripped(s) + Stripped(t)
  {
    if t == "" {
      assert s + t == s;
    } else {
      var init := t[..|t| - 1];
      StripAppend(s, init);
      assert (s + t)[..|s + t| - 1] == s + init;
    }
  }

  lemma StripByte(b: U8)
    ensures Stripped(HexByte(b)) == HexByte(b) && Stripped(":") == ""
  {
    HexDigitValue(b / 16);
    HexDigitValue(b % 16);
    var s := HexByte(b);
    assert s[..1] == [s[0]] && s[..1][..0] == "";
    assert Stripped(s[..1]) == [s[0]];
    assert ":"[..0] == "";
  }

  lemma {:induction false} StripPrinted(bytes: seq<U8>)
    ensures Stripped(Printed(bytes)) == HexEncode(bytes)
  {
    if bytes != [] {
      var init, b := bytes[..|bytes| - 1], bytes[|bytes| - 1];
      StripByte(b);
      if init != [] {
        StripPrinted(init);
        StripAppend(Printed(init) + ":", HexByte(b));
        StripAppend(Printed(init), ":");
      } else {
        assert HexEncode(bytes) == HexByte(b);
      }
    }
  }

  /** What a fingerprint is made of when printed. */
  predicate PrintedChar(c: char) { c == ':' || '0' <= c <= '9' || 'A' <= c <= 'F' }

  lemma HexByteChars(b: U8)
    ensures forall i :: 0 <= i < 2 ==> PrintedChar(HexByte(b)[i])
  {
    assert forall v :: 0 <= v < 16 ==> HexDigit(v) == if v < 10 then '0' + v as char else 'A' + (v - 10) as char;
  }

  lemma {:induction false} PrintedChars(bytes: seq<U8>)
    ensures forall i :: 0 <= i < |Printed(bytes)| ==> PrintedChar(Printed(bytes)[i])
    ensures NoSpace(Printed(bytes))
  {
    if bytes != [] {
      HexByteChars(bytes[|bytes| - 1]);
      if |bytes| > 1 {
        PrintedChars(bytes[..|bytes| - 1]);
      }
    }
  }

  lemma PrintedIsUpper(bytes: seq<U8>)
    ensures ToUpper(Printed(bytes)) == Printed(bytes)
  {
    PrintedChars(bytes);
  }

  /** Every printed digest passes the validators and decodes back to itself. */
  lemma PrintedDecodes(digest: Digest)
    ensures Decoded(Printed(digest)) == Some(digest)
    ensures Decoded(ToUpper(Printed(digest))) == Some(digest)
  {
    StripPrinted(digest);
    HexRoundTrip(digest);
    PrintedIsUpper(digest);
  }

  /** Two printed characters that fold together are the same character. */
  lemma FoldedCharsAgree(c: char, d: char)
    requires PrintedChar(c) && PrintedChar(d) && FoldChar(c) == FoldChar(d)
    ensures c == d
  {
  }

  /** Among printed fingerprints the peer comparison is equality of digests. */
  lemma ComparisonIsEquality(signalled: Digest, peer: Digest)
    ensures Accepts(ToUpper(Printed(signalled)), peer) <==> signalled == peer
  {
    PrintedIsUpper(signalled);
    PrintedChars(signalled);
    if Accepts(Printed(signalled), peer) {
      MatchIsCanonical(Printed(signalled), peer);
      PrintedDecodes(signalled);
      PrintedDecodes(peer);
    }
  }

  lemma {:induction false} StrippedChars(s: string)
    requires forall i :: 0 <= i < |Stripped(s)| ==> HexValue(Stripped(s)[i]).Some?
    ensures forall i :: 0 <= i < |s| ==> s[i] == ':' || HexValue(s[i]).Some?
  {
    if s != "" {
      var init := s[..|s| - 1];
      if s[|s| - 1] == ':' {
        assert Stripped(s) == Stripped(init);
        StrippedChars(init);
      } else {
        assert Stripped(s) == Stripped(init) + [s[|s| - 1]];
        assert forall i :: 0 <= i < |Stripped(init)| ==> Stripped(s)[i] == Stripped(init)[i];
        StrippedChars(init);
        assert Stripped(s)[|Stripped(s)| - 1] == s[|s| - 1];
      }
    }
  }

  lemma UpperHexIsPrinted(c: char)
    requires c == ':' || HexValue(c).Some?
    ensures PrintedChar(UpperChar(c))
  {
  }

  /** A comparison that succeeds on upper-cased, validated text is an exact match. */
  lemma MatchIsCanonical(remote: string, peer: Digest)
    requires Accepts(remote, peer)
    requires forall i :: 0 <= i < |remote| ==> PrintedChar(remote[i])
    ensures remote == Printed(peer)
  {
    var p := Printed(peer);
    PrintedChars(peer);
    forall i | 0 <= i < |p| ensures p[i] == remote[i] {
      FoldedCharsAgree(p[i], remote[i]);
    }
  }

  lemma {:induction false} StripUpper(s: string)
    ensures Stripped(ToUpper(s)) == ToUpper(Stripped(s))
  {
    if s != "" {
      var init := s[..|s| - 1];
      StripUpper(init);
      assert ToUpper(s)[..|s| - 1] == ToUpper(init);
      if s[|s| - 1] != ':' {
        assert ToUpper(Stripped(s)) == ToUpper(Stripped(init)) + [UpperChar(s[|s| - 1])];
      }
    }
  }

  /**
   A fingerprint that the validators accept can be matched by some certificate exactly
   when it is, up to case, the canonical colon-separated print of its own digest; the
   validators also accept other colon placements, which no certificate can match.
   */
  lemma AcceptedFingerprintMatchableIff(text: string)
    requires Decoded(text).Some?
    ensures (exists peer: Digest :: Accepts(ToUpper(text), peer)) <==> ToUpper(text) == Printed(Decoded(text).value)
    ensures forall peer: Digest :: Accepts(ToUpper(text), peer) ==> peer == Decoded(text).value
  {
    var u := ToUpper(text);
    HexDecodeChars(Stripped(text));
    StrippedChars(text);
    forall i | 0 <= i < |u| ensures PrintedChar(u[i]) {
      UpperHexIsPrinted(text[i]);
    }
    StripUpper(text);
    HexDecodeUpper(Stripped(text));
    forall peer: Digest | Accepts(u, peer) ensures u == Printed(peer) && peer == Decoded(text).value {
      MatchIsCanonical(u, peer);
      PrintedDecodes(peer);
    }
    if u == Printed(Decoded(text).value) {
      var peer: Digest := Decoded(text).value;
      assert Accepts(u, peer);
    }
  }

  lemma {:induction false} BareAndPrinted(bytes: seq<U8>)
    ensures Stripped(HexEncode(bytes)) == HexEncode(bytes) && |HexEncode(bytes)| == 2 * |bytes|
    ensures bytes != [] ==> |Printed(bytes)| == 3 * |bytes| - 1
  {
    if bytes != [] {
      var init, b := bytes[..|bytes| - 1], bytes[|bytes| - 1];
      BareAndPrinted(init);
      StripByte(b);
      StripAppend(HexEncode(init), HexByte(b));
    }
  }

  /** Such a fingerprint exists for every digest: without colons it is accepted, and then matches nobody. */
  lemma BareFingerprintIsNeverMatched(digest: Digest)
    ensures Decoded(HexEncode(digest)) == Some(digest)
    ensures forall peer: Digest :: !Accepts(ToUpper(HexEncode(digest)), peer)
  {
    BareAndPrinted(digest);
    HexRoundTrip(digest);
    forall peer: Digest ensures !Accepts(ToUpper(HexEncode(digest)), peer) {
      BareAndPrinted(peer);
    }
  }
}
