/**
 The text operations the SDP code relies on: case folding, white-space splitting,
 hexadecimal and decimal conversion.

 Folding and lower-casing are exact for comparison with ASCII text, including the
 non-ASCII characters that fold or lower to an ASCII letter.
 */
module Text {
  import opened Words
  import opened Sequences

  function FoldChar(c: char): char {
    if 'A' <= c <= 'Z' then c - 'A' + 'a'
    else if c == '\U{017F}' then 's'
    else if c == '\U{212A}' then 'k'
    else c
  }

  function LowerChar(c: char): char {
    if 'A' <= c <= 'Z' then c - 'A' + 'a'
    else if c == '\U{0130}' then 'i'
    else if c == '\U{212A}' then 'k'
    else c
  }

  function UpperChar(c: char): char {
    if 'a' <= c <= 'z' then c - 'a' + 'A' else c
  }

  predicate EqualFold(a: string, b: string) {
    |a| == |b| && forall i :: 0 <= i < |a| ==> FoldChar(a[i]) == FoldChar(b[i])
  }

  function ToLower(s: string): (r: string)
    ensures |r| == |s| && forall i :: 0 <= i < |s| ==> r[i] == LowerChar(s[i])
  {
    seq(|s|, i requires 0 <= i < |s| => LowerChar(s[i]))
  }

  function ToUpper(s: string): (r: string)
    ensures |r| == |s| && forall i :: 0 <= i < |s| ==> r[i] == UpperChar(s[i])
  {
    seq(|s|, i requires 0 <= i < |s| => UpperChar(s[i]))
  }

  function Join(parts: seq<string>, sep: string): string {
    if parts == [] then ""
    else if |parts| == 1 then parts[0]
    else Join(parts[..|parts| - 1], sep) + sep + parts[|parts| - 1]
  }

  // ------------------------------------------------------------------- fields

  predicate IsSpace(c: char) {
    || '\t' <= c <= '\r' || c == ' ' || c == '\U{0085}' || c == '\U{00A0}' || c == '\U{1680}'
    || '\U{2000}' <= c <= '\U{200A}' || c == '\U{2028}' || c == '\U{2029}' || c == '\U{202F}'
    || c == '\U{205F}' || c == '\U{3000}'
  }

  predicate NoSpace(s: string) { forall i :: 0 <= i < |s| ==> !IsSpace(s[i]) }

  /** Splits around runs of white space. */
  function Fields(s: string): seq<string> { FieldsFrom(s, "") }

  function FieldsFrom(s: string, field: string): seq<string> {
    if s == "" then Closed(field)
    else if IsSpace(s[0]) then Closed(field) + FieldsFrom(s[1..], "")
    else FieldsFrom(s[1..], field + [s[0]])
  }

  function Closed(field: string): seq<string> { if field == "" then [] else [field] }

  lemma {:induction false} FieldsTakeWord(word: string, rest: string, field: string)
    requires NoSpace(word)
    ensures FieldsFrom(word + rest, field) == FieldsFrom(rest, field + word)
  {
    if word == "" {
      assert word + rest == rest && field + word == field;
    } else {
      assert (word + rest)[1..] == word[1..] + rest;
      FieldsTakeWord(word[1..], rest, field + [word[0]]);
      assert field + [word[0]] + word[1..] == field + word;
    }
  }

  /** The first word is split off at a blank. */
  lemma FieldsOfWord(a: string, rest: string)
    requires a != "" && NoSpace(a)
    ensures Fields(a + " " + rest) == [a] + Fields(rest)
    ensures Fields(a) == [a]
  {
    assert a + " " + rest == a + (" " + rest);
    FieldsTakeWord(a, " " + rest, "");
    assert "" + a == a && (" " + rest)[1..] == rest;
    assert a + "" == a;
    FieldsTakeWord(a, "", "");
  }

  /** Two words separated by a blank are split back into the two words. */
  lemma FieldsOfTwoWords(a: string, b: string)
    requires a != "" && b != "" && NoSpace(a) && NoSpace(b)
    ensures Fields(a + " " + b) == [a, b]
  {
    assert a + " " + b == a + (" " + b);
    FieldsTakeWord(a, " " + b, "");
    assert "" + a == a && (" " + b)[1..] == b;
    assert FieldsFrom(" " + b, a) == [a] + FieldsFrom(b, "");
    assert b + "" == b;
    FieldsTakeWord(b, "", "");
    assert "" + b == b;
  }

  // --------------------------------------------------------------- hexadecimal

  function HexValue(c: char): Option<int> {
    if '0' <= c <= '9' then Some(c as int - '0' as int)
    else if 'a' <= c <= 'f' then Some(c as int - 'a' as int + 10)
    else if 'A' <= c <= 'F' then Some(c as int - 'A' as int + 10)
    else None
  }

  function HexDigit(v: int): char
    requires 0 <= v < 16
  {
    "0123456789ABCDEF"[v]
  }

  function LowerHexDigit(v: int): char
    requires 0 <= v < 16
  {
    "0123456789abcdef"[v]
  }

  /** Two upper-case digits, as with the verb %02X. */
  function HexByte(b: U8): string { [HexDigit(b / 16), HexDigit(b % 16)] }

  function HexEncode(bytes: seq<U8>): string {
    if bytes == [] then ""
    else HexEncode(bytes[..|bytes| - 1]) + HexByte(bytes[|bytes| - 1])
  }

  /** Lower-case encoding, as used for ICE credentials. */
  function HexEncodeLower(bytes: seq<U8>): (s: string)
    ensures |s| == 2 * |bytes|
  {
    if bytes == [] then ""
    else
      var b := bytes[|bytes| - 1];
      HexEncodeLower(bytes[..|bytes| - 1]) + [LowerHexDigit(b / 16), LowerHexDigit(b % 16)]
  }

  function HexDecode(s: string): Option<seq<U8>> {
    if s == "" then Some([])
    else if |s| == 1 then None
    else
      var hi, lo := HexValue(s[|s| - 2]), HexValue(s[|s| - 1]);
      var init := HexDecode(s[..|s| - 2]);
      if hi.Some? && lo.Some? && init.Some? then Some(init.value + [HexByteValue(hi.value, lo.value)]) else None
  }

  function HexByteValue(hi: int, lo: int): U8 { Wrap8(16 * hi + lo) }

  lemma HexDigitValue(v: int)
    requires 0 <= v < 16
    ensures HexValue(HexDigit(v)) == Some(v)
    ensures UpperChar(HexDigit(v)) == HexDigit(v) && HexDigit(v) != ':' && !IsSpace(HexDigit(v))
  {
    assert HexDigit(v) == if v < 10 then '0' + v as char else 'A' + (v - 10) as char;
  }

  lemma SplitByte(b: U8)
    ensures HexByteValue(b / 16, b % 16) == b
  {
  }

  lemma HexDecodeAppend(s: string, b: U8)
    requires HexDecode(s).Some?
    ensures HexDecode(s + HexByte(b)) == Some(HexDecode(s).value + [b])
  {
    var hi, lo := b / 16, b % 16;
    HexDigitValue(hi);
    HexDigitValue(lo);
    SplitByte(b);
    hide HexDigit, HexValue, HexByteValue;
    var t := s + [HexDigit(hi), HexDigit(lo)];
    assert t[..|t| - 2] == s;
  }

  /** Decoding undoes encoding. */
  lemma {:induction false} HexRoundTrip(bytes: seq<U8>)
    ensures HexDecode(HexEncode(bytes)) == Some(bytes)
  {
    if bytes != [] {
      hide HexDecode, HexByte;
      var init, b := bytes[..|bytes| - 1], bytes[|bytes| - 1];
      HexRoundTrip(init);
      HexDecodeAppend(HexEncode(init), b);
      assert bytes == init + [b];
    }
  }

  lemma {:induction false} UpperOfLower(bytes: seq<U8>)
    ensures ToUpper(HexEncodeLower(bytes)) == HexEncode(bytes)
  {
    if bytes != [] {
      var init, b := bytes[..|bytes| - 1], bytes[|bytes| - 1];
      UpperOfLower(init);
      UpperDigit(b / 16);
      UpperDigit(b % 16);
      hide HexDigit, LowerHexDigit, UpperChar;
      var low := [LowerHexDigit(b / 16), LowerHexDigit(b % 16)];
      assert ToUpper(low) == HexByte(b);
      assert ToUpper(HexEncodeLower(init) + low) == ToUpper(HexEncodeLower(init)) + ToUpper(low);
    }
  }

  lemma UpperDigit(v: int)
    requires 0 <= v < 16
    ensures UpperChar(LowerHexDigit(v)) == HexDigit(v)
  {
  }

  /** Lower-case encoding is decoded just the same. */
  lemma HexLowerRoundTrip(bytes: seq<U8>)
    ensures HexDecode(HexEncodeLower(bytes)) == Some(bytes)
  {
    hide HexDecode, HexEncode, HexEncodeLower, ToUpper;
    UpperOfLower(bytes);
    HexRoundTrip(bytes);
    HexDecodeUpper(HexEncodeLower(bytes));
  }

  lemma {:induction false} HexDecodeChars(s: string)
    requires HexDecode(s).Some?
    ensures forall i :: 0 <= i < |s| ==> HexValue(s[i]).Some?
  {
    if s != "" {
      HexDecodeChars(s[..|s| - 2]);
      assert forall i :: 0 <= i < |s| - 2 ==> s[i] == s[..|s| - 2][i];
    }
  }

  /** Decoding ignores case. */
  lemma {:induction false} HexDecodeUpper(s: string)
    ensures HexDecode(ToUpper(s)) == HexDecode(s)
  {
    if |s| >= 2 {
      var init := s[..|s| - 2];
      HexDecodeUpper(init);
      assert ToUpper(s)[..|s| - 2] == ToUpper(init);
      HexValueUpper(s[|s| - 2]);
      HexValueUpper(s[|s| - 1]);
    } else {
      assert |s| == 0 ==> ToUpper(s) == s;
    }
  }

  lemma HexValueUpper(c: char)
    ensures HexValue(UpperChar(c)) == HexValue(c)
  {
  }

  // ------------------------------------------------------------------- decimal

  predicate IsDigit(c: char) { '0' <= c <= '9' }

  function DigitValue(c: char): int { c as int - '0' as int }

  /** Unsigned decimal digits; unbounded, since only values up to 127 are accepted. */
  function ParseDigits(s: string): Option<int> {
    if s == "" then None
    else if !IsDigit(s[|s| - 1]) then None
    else if |s| == 1 then Some(DigitValue(s[0]))
    else
      var init := ParseDigits(s[..|s| - 1]);
      if init.Some? then Some(10 * init.value + DigitValue(s[|s| - 1])) else None
  }

  function Atoi(s: string): Option<int> {
    if s != "" && s[0] == '+' then ParseDigits(s[1..])
    else if s != "" && s[0] == '-' then
      var v := ParseDigits(s[1..]);
      if v.Some? then Some(-v.value) else None
    else ParseDigits(s)
  }

  function Itoa(v: nat): (s: string)
    ensures s != ""
  {
    var digit := ['0' + (v % 10) as char];
    if v < 10 then digit else Itoa(v / 10) + digit
  }

  lemma {:induction false} ItoaDigits(v: nat)
    ensures ParseDigits(Itoa(v)) == Some(v)
    ensures forall i :: 0 <= i < |Itoa(v)| ==> IsDigit(Itoa(v)[i])
  {
    var s := Itoa(v);
    assert DigitValue(s[|s| - 1]) == v % 10 && IsDigit(s[|s| - 1]);
    if v >= 10 {
      ItoaDigits(v / 10);
      assert s[..|s| - 1] == Itoa(v / 10);
    }
  }

  /** Parsing undoes printing, and a printed number is one word. */
  lemma ItoaRoundTrip(v: nat)
    ensures Atoi(Itoa(v)) == Some(v) && NoSpace(Itoa(v))
  {
    ItoaDigits(v);
    assert IsDigit(Itoa(v)[0]);
  }
}
