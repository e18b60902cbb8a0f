/** Small pieces every other module needs: an optional value, Python's
    whitespace stripping and substring test, and a few lemmas on them. */
module Common {

  datatype Option<+T> = None | Some(value: T)

  newtype Byte = n: int | 0 <= n < 256

  /** Python's truth value of an optional string: absent and empty are false. */
  predicate Truthy(s: Option<string>) {
    s.Some? && s.value != ""
  }

  function Min(a: nat, b: nat): nat {
    if a <= b then a else b
  }

  function Max(a: nat, b: nat): nat {
    if a >= b then a else b
  }

  function MaxReal(a: real, b: real): real {
    if a >= b then a else b
  }

  /** The characters `str.strip` removes. */
  predicate IsSpace(c: char) {
    var n := c as int;
    || 9 <= n <= 13 || 28 <= n <= 32 || n == 0x85 || n == 0xA0 || n == 0x1680
    || 0x2000 <= n <= 0x200A || n == 0x2028 || n == 0x2029 || n == 0x202F
    || n == 0x205F || n == 0x3000
  }

  /** `str.rstrip` */
  function RStrip(s: string): (r: string)
    ensures r <= s
    ensures forall i :: |r| <= i < |s| ==> IsSpace(s[i])
    ensures r == "" || !IsSpace(r[|r| - 1])
  {
    if s != "" && IsSpace(s[|s| - 1]) then RStrip(s[..|s| - 1]) else s
  }

  /** `str.lstrip` */
  function LStrip(s: string): (r: string)
    ensures |r| <= |s| && r == s[|s| - |r|..]
    ensures r == "" || !IsSpace(r[0])
  {
    if s != "" && IsSpace(s[0]) then LStrip(s[1..]) else s
  }

  /** `str.strip` */
  function Strip(s: string): string {
    LStrip(RStrip(s))
  }

  /** `s.strip()` is falsy */
  predicate Blank(s: string) {
    forall i :: 0 <= i < |s| ==> IsSpace(s[i])
  }

  lemma {:induction false} BlankIffStripsToNothing(s: string)
    ensures Blank(s) <==> Strip(s) == ""
  {
    var r := RStrip(s);
    if Blank(s) {
      forall i | 0 <= i < |r| ensures IsSpace(r[i]) {
        assert r[i] == s[i];
      }
    } else {
      var i :| 0 <= i < |s| && !IsSpace(s[i]);
      assert i < |r| && r[i] == s[i];
      LStripKeeps(r, i);
    }
  }

  lemma {:induction false} LStripKeeps(s: string, i: nat)
    requires i < |s| && !IsSpace(s[i])
    ensures LStrip(s) != ""
  {
    if IsSpace(s[0]) {
      LStripKeeps(s[1..], i - 1);
    }
  }

  predicate StartsWith(text: string, prefix: string) {
    prefix <= text
  }

  predicate At(text: string, i: int, part: string) {
    0 <= i <= |text| - |part| && text[i..i + |part|] == part
  }

  /** Python's `part in text` */
  predicate Contains(text: string, part: string) {
    exists i | 0 <= i <= |text| :: At(text, i, part)
  }

  lemma ContainsInside(before: string, part: string, after: string)
    ensures Contains(before + part + after, part)
  {
    assert At(before + part + after, |before|, part);
  }

  predicate LowerHex(c: char) {
    '0' <= c <= '9' || 'a' <= c <= 'f'
  }

  predicate AnyHex(c: char) {
    LowerHex(c) || 'A' <= c <= 'F'
  }

  /** The 8-4-4-4-12 text form of section 4 of RFC 9562, in either case. */
  predicate IsUuid(s: string) {
    |s| == 36 && forall i :: 0 <= i < 36 ==>
      if i == 8 || i == 13 || i == 18 || i == 23 then s[i] == '-' else AnyHex(s[i])
  }

  /** Thirty-two hexadecimal digits in five groups of 8, 4, 4, 4 and 12 with hyphens between them. */
  lemma UuidShape(s: string)
    ensures IsUuid(s) <==>
              && |s| == 36 && s[8] == s[13] == s[18] == s[23] == '-'
              && AllHex(s[..8]) && AllHex(s[9..13]) && AllHex(s[14..18]) && AllHex(s[19..23]) && AllHex(s[24..])
  {
    if |s| == 36 {
      var a, b, c, d, e := s[..8], s[9..13], s[14..18], s[19..23], s[24..];
      assert forall i | 0 <= i < 8 :: a[i] == s[i];
      assert forall i | 9 <= i < 13 :: s[i] == b[i - 9];
      assert forall i | 14 <= i < 18 :: s[i] == c[i - 14];
      assert forall i | 19 <= i < 23 :: s[i] == d[i - 19];
      assert forall i | 24 <= i < 36 :: s[i] == e[i - 24];
    }
  }

  predicate AllHex(s: string) {
    forall i | 0 <= i < |s| :: '0' <= s[i] <= '9' || 'a' <= s[i] <= 'f' || 'A' <= s[i] <= 'F'
  }

  /** The twenty-nine characters Python takes for white space. */
  lemma SpacesAre(c: char)
    ensures IsSpace(c) <==>
              c as int in {0x09, 0x0A, 0x0B, 0x0C, 0x0D, 0x1C, 0x1D, 0x1E, 0x1F, 0x20, 0x85, 0xA0, 0x1680,
                           0x2000, 0x2001, 0x2002, 0x2003, 0x2004, 0x2005, 0x2006, 0x2007, 0x2008, 0x2009, 0x200A,
                           0x2028, 0x2029, 0x202F, 0x205F, 0x3000}
  {
  }

  /** Sum of the lengths of some pieces of text. */
  function TotalLength(pieces: seq<string>): nat {
    if pieces == [] then 0 else TotalLength(pieces[..|pieces| - 1]) + |pieces[|pieces| - 1]|
  }
}
