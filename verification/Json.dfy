/** JSON strings as `json.dumps(..., ensure_ascii=False)` prints them (section 7 of RFC 8259), the
    values `json.loads` yields, and UTF-8. */
module Json {
  import opened Common

  datatype Value =
    | Null
    | Bool(flag: bool)
    | Integer(number: int)
    | Float(value: real)
    | Text(text: string)
    | List(items: seq<Value>)
    | Object(members: map<string, Value>)

  /** `dict.get` */
  function Get(v: Value, key: string): Option<Value> {
    if v.Object? && key in v.members then Some(v.members[key]) else None
  }

  predicate IsText(v: Option<Value>, text: string) {
    v == Some(Text(text))
  }

  function HexDigit(n: nat): char
    requires n < 16
  {
    if n < 10 then (n + '0' as int) as char else (n - 10 + 'a' as int) as char
  }

  /** Only the quote, the backslash and the controls below U+0020 are escaped. */
  function EscapeChar(c: char): string {
    if c == '\"' then ['\\', '\"']
    else if c == '\\' then ['\\', '\\']
    else if c == '\n' then ['\\', 'n']
    else if c == '\r' then ['\\', 'r']
    else if c == '\t' then ['\\', 't']
    else if c as int == 8 then ['\\', 'b']
    else if c as int == 12 then ['\\', 'f']
    else if (c as int) < 32 then ['\\', 'u', '0', '0', HexDigit(c as int / 16), HexDigit(c as int % 16)]
    else [c]
  }

  function Escape(s: string): string {
    if s == "" then "" else EscapeChar(s[0]) + Escape(s[1..])
  }

  function Quoted(s: string): string {
    ['\"'] + Escape(s) + ['\"']
  }

  /** No character of the text is a newline. */
  predicate NoBreak(s: string) {
    '\n' !in s
  }

  lemma EscapedCharHasNoBreak(c: char)
    ensures NoBreak(EscapeChar(c))
  {
  }

  /** A printed string is one line whatever it holds. */
  lemma {:induction false} EscapeHasNoBreak(s: string)
    ensures NoBreak(Escape(s)) && NoBreak(Quoted(s))
  {
    if s != "" {
      EscapeHasNoBreak(s[1..]);
      EscapedCharHasNoBreak(s[0]);
      hide EscapeChar;
      assert NoBreak(EscapeChar(s[0]) + Escape(s[1..]));
    }
  }

  function ByteOf(n: nat): Byte
    requires n < 256
  {
    n as Byte
  }

  function Utf8Char(c: char): seq<Byte> {
    var n := c as int;
    if n < 0x80 then [ByteOf(n)]
    else if n < 0x800 then [ByteOf(0xC0 + n / 0x40), ByteOf(0x80 + n % 0x40)]
    else if n < 0x10000 then [ByteOf(0xE0 + n / 0x1000), ByteOf(0x80 + n / 0x40 % 0x40), ByteOf(0x80 + n % 0x40)]
    else [ByteOf(0xF0 + n / 0x40000), ByteOf(0x80 + n / 0x1000 % 0x40),
          ByteOf(0x80 + n / 0x40 % 0x40), ByteOf(0x80 + n % 0x40)]
  }

  function Utf8(s: string): seq<Byte> {
    if s == "" then [] else Utf8Char(s[0]) + Utf8(s[1..])
  }

  lemma ByteIsNewline(n: nat)
    requires n < 256 && n != 10
    ensures ByteOf(n) != 10
  {
  }

  lemma CharHasNoBreak(c: char)
    requires c != '\n'
    ensures (10 as Byte) !in Utf8Char(c) && Utf8Char(c) != []
  {
    var n := c as int;
    hide ByteOf;
    if n < 0x80 {
      ByteIsNewline(n);
    } else if n < 0x800 {
      ByteIsNewline(0xC0 + n / 0x40);
      ByteIsNewline(0x80 + n % 0x40);
    } else if n < 0x10000 {
      ByteIsNewline(0xE0 + n / 0x1000);
      ByteIsNewline(0x80 + n / 0x40 % 0x40);
      ByteIsNewline(0x80 + n % 0x40);
    } else {
      ByteIsNewline(0xF0 + n / 0x40000);
      ByteIsNewline(0x80 + n / 0x1000 % 0x40);
      ByteIsNewline(0x80 + n / 0x40 % 0x40);
      ByteIsNewline(0x80 + n % 0x40);
    }
  }

  /** The bytes of a one-line text hold no newline byte. */
  lemma {:induction false} Utf8HasNoBreak(s: string)
    requires NoBreak(s)
    ensures (10 as Byte) !in Utf8(s)
    ensures s != "" ==> Utf8(s) != []
  {
    if s != "" {
      assert s[0] in s;
      assert NoBreak(s[1..]);
      Utf8HasNoBreak(s[1..]);
      CharHasNoBreak(s[0]);
      hide Utf8Char;
    }
  }

  // ---- reading strings back -----------------------------------------------------------

  function HexValue(c: char): Option<nat> {
    if '0' <= c <= '9' then Some(c as int - '0' as int)
    else if 'a' <= c <= 'f' then Some(c as int - 'a' as int + 10)
    else if 'A' <= c <= 'F' then Some(c as int - 'A' as int + 10)
    else None
  }

  /** The character of four hex digits; a surrogate alone is no character here. */
  function HexChar(h: string): Option<char>
    requires |h| == 4
  {
    var a, b, c, d := HexValue(h[0]), HexValue(h[1]), HexValue(h[2]), HexValue(h[3]);
    if a.None? || b.None? || c.None? || d.None? then None
    else
      var n := a.value * 0x1000 + b.value * 0x100 + c.value * 0x10 + d.value;
      if n < 0xD800 || 0xE000 <= n < 0x10000 then Some(n as char) else None
  }

  /** The character an escape of one letter stands for. */
  function ShortEscape(c: char): Option<char> {
    if c == '\"' || c == '\\' || c == '/' then Some(c)
    else if c == 'n' then Some('\n')
    else if c == 'r' then Some('\r')
    else if c == 't' then Some('\t')
    else if c == 'b' then Some(8 as char)
    else if c == 'f' then Some(12 as char)
    else None
  }

  /** The first character a string stands for, and the text behind it. */
  function ReadChar(t: string): (r: Option<(char, string)>)
    ensures r.Some? ==> |r.value.1| < |t|
  {
    if t == "" || t[0] == '\"' || (t[0] as int) < 32 then None
    else if t[0] != '\\' then Some((t[0], t[1..]))
    else if |t| >= 6 && t[1] == 'u' then
      var c := HexChar(t[2..6]);
      if c.Some? then Some((c.value, t[6..])) else None
    else if |t| >= 2 && ShortEscape(t[1]).Some? then Some((ShortEscape(t[1]).value, t[2..]))
    else None
  }

  /** What a string holds, and the text behind its closing quote, read from behind the opening one. */
  function ReadString(t: string): Option<(string, string)> {
    if t != "" && t[0] == '\"' then Some(("", t[1..]))
    else
      var c := ReadChar(t);
      if c.None? then None
      else
        var r := ReadString(c.value.1);
        if r.None? then None else Some(([c.value.0] + r.value.0, r.value.1))
  }

  lemma HexDigitsBack(n: nat)
    requires n < 32
    ensures HexChar(['0', '0', HexDigit(n / 16), HexDigit(n % 16)]) == Some(n as char)
  {
  }

  lemma CharComesBack(c: char, rest: string)
    ensures ReadChar(EscapeChar(c) + rest) == Some((c, rest))
    ensures EscapeChar(c) != "" && EscapeChar(c)[0] != '\"'
  {
    hide HexChar, HexDigit;
    var e := EscapeChar(c);
    assert (e + rest)[|e|..] == rest;
    if |e| == 6 {
      HexDigitsBack(c as int);
      assert (e + rest)[2..6] == ['0', '0', HexDigit(c as int / 16), HexDigit(c as int % 16)];
    }
  }

  /** A printed string is read back exactly, wherever it stands. */
  lemma {:induction false} StringComesBack(s: string, rest: string)
    ensures ReadString(Escape(s) + ['\"'] + rest) == Some((s, rest))
  {
    var t := Escape(s) + ['\"'] + rest;
    if s == "" {
      assert t[1..] == rest;
    } else {
      var more := Escape(s[1..]) + ['\"'] + rest;
      hide EscapeChar, ReadChar;
      assert t == EscapeChar(s[0]) + more;
      CharComesBack(s[0], more);
      StringComesBack(s[1..], rest);
      assert t[0] == EscapeChar(s[0])[0];
      assert s == [s[0]] + s[1..];
    }
  }

  // ---- reading UTF-8 back ----------------------------------------------------------------

  /** How many bytes the first one announces. */
  function Width(b: Byte): nat {
    if b < 0x80 then 1 else if b < 0xE0 then 2 else if b < 0xF0 then 3 else 4
  }

  /** The number some bytes of one character stand for. */
  function CodeOf(u: seq<Byte>): int
    requires u != [] && |u| == Width(u[0])
  {
    var b := u[0] as int;
    if |u| == 1 then b
    else if |u| == 2 then (b - 0xC0) * 0x40 + u[1] as int - 0x80
    else if |u| == 3 then (b - 0xE0) * 0x1000 + (u[1] as int - 0x80) * 0x40 + u[2] as int - 0x80
    else (b - 0xF0) * 0x40000 + (u[1] as int - 0x80) * 0x1000 + (u[2] as int - 0x80) * 0x40 + u[3] as int - 0x80
  }

  function CharOf(n: int): Option<char> {
    if 0 <= n < 0xD800 || 0xE000 <= n < 0x110000 then Some(n as char) else None
  }

  function FromUtf8(u: seq<Byte>): Option<string> {
    if u == [] then Some("")
    else
      var w := Width(u[0]);
      if w > |u| then None
      else
        var c, rest := CharOf(CodeOf(u[..w])), FromUtf8(u[w..]);
        if c.None? || rest.None? then None else Some([c.value] + rest.value)
  }

  lemma Sixes(n: nat)
    ensures n == n / 0x40 * 0x40 + n % 0x40
    ensures n / 0x1000 == n / 0x40 / 0x40 && n / 0x40000 == n / 0x1000 / 0x40
  {
  }

  lemma CharComesFromBytes(c: char)
    ensures Utf8Char(c) != [] && |Utf8Char(c)| == Width(Utf8Char(c)[0])
    ensures CodeOf(Utf8Char(c)) == c as int && CharOf(c as int) == Some(c)
  {
    var n := c as int;
    Sixes(n);
    Sixes(n / 0x40);
    Sixes(n / 0x1000);
    var u := Utf8Char(c);
    if n < 0x80 {
      assert u == [n as Byte];
    } else if n < 0x800 {
      assert u == [(0xC0 + n / 0x40) as Byte, (0x80 + n % 0x40) as Byte];
    } else if n < 0x10000 {
      ThreeBytes(n);
      assert u == [(0xE0 + n / 0x1000) as Byte, (0x80 + n / 0x40 % 0x40) as Byte, (0x80 + n % 0x40) as Byte];
    } else {
      FourBytes(n);
      assert u == [(0xF0 + n / 0x40000) as Byte, (0x80 + n / 0x1000 % 0x40) as Byte,
                   (0x80 + n / 0x40 % 0x40) as Byte, (0x80 + n % 0x40) as Byte];
    }
  }

  lemma ThreeBytes(n: nat)
    ensures n == n / 0x1000 * 0x1000 + n / 0x40 % 0x40 * 0x40 + n % 0x40
  {
    Sixes(n);
    Sixes(n / 0x40);
  }

  lemma FourBytes(n: nat)
    ensures n == n / 0x40000 * 0x40000 + n / 0x1000 % 0x40 * 0x1000 + n / 0x40 % 0x40 * 0x40 + n % 0x40
  {
    ThreeBytes(n);
    Sixes(n);
    Sixes(n / 0x1000);
  }

  /** Encoded text is decoded back exactly. */
  lemma {:induction false} Utf8ComesBack(s: string)
    ensures FromUtf8(Utf8(s)) == Some(s)
  {
    if s != "" {
      hide Utf8Char, CodeOf, CharOf, Width;
      var u, rest := Utf8Char(s[0]), Utf8(s[1..]);
      CharComesFromBytes(s[0]);
      Utf8ComesBack(s[1..]);
      assert (u + rest)[..|u|] == u && (u + rest)[|u|..] == rest;
      assert s == [s[0]] + s[1..];
    }
  }
}
