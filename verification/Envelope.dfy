/** The text envelope of a message (src/peer_chat.py, outbound and decode_frame): attributes, hop
    list and body. The regular expressions of the source are written out as scanners. */
module Envelope {
  import opened Common

  // ---- attributes -------------------------------------------------------------------

  datatype Pair = Pair(key: string, value: string)

  /** [a-z-] */
  predicate KeyChar(c: char) {
    'a' <= c <= 'z' || c == '-'
  }

  /** [^"<>\n] */
  predicate ValueChar(c: char) {
    c != '\"' && c != '<' && c != '>' && c != '\n'
  }

  /** [^<>\n] */
  predicate AttributeChar(c: char) {
    c != '<' && c != '>' && c != '\n'
  }

  predicate WellFormed(p: Pair) {
    && p.key != ""
    && (forall i | 0 <= i < |p.key| :: KeyChar(p.key[i]))
    && (forall i | 0 <= i < |p.value| :: ValueChar(p.value[i]))
  }

  function KeySpan(s: string): (n: nat)
    ensures n <= |s|
    ensures forall i | 0 <= i < n :: KeyChar(s[i])
    ensures n < |s| ==> !KeyChar(s[n])
  {
    if s != "" && KeyChar(s[0]) then 1 + KeySpan(s[1..]) else 0
  }

  function ValueSpan(s: string): (n: nat)
    ensures n <= |s|
    ensures forall i | 0 <= i < n :: ValueChar(s[i])
    ensures n < |s| ==> !ValueChar(s[n])
  {
    if s != "" && ValueChar(s[0]) then 1 + ValueSpan(s[1..]) else 0
  }

  function AttributeSpan(s: string): (n: nat)
    ensures n <= |s|
    ensures forall i | 0 <= i < n :: AttributeChar(s[i])
    ensures n < |s| ==> !AttributeChar(s[n])
  {
    if s != "" && AttributeChar(s[0]) then 1 + AttributeSpan(s[1..]) else 0
  }

  /** One match of ([a-z-]+)="([^"<>\n]*)" at the start of the text, and what follows it. */
  function MatchPair(s: string): (r: Option<(Pair, string)>)
    ensures r.Some? ==> WellFormed(r.value.0) && |r.value.1| < |s|
  {
    var k := KeySpan(s);
    if k == 0 || k + 2 > |s| || s[k] != '=' || s[k + 1] != '\"' then None
    else
      var t := s[k + 2..];
      var v := ValueSpan(t);
      if v < |t| && t[v] == '\"' then Some((Pair(s[..k], t[..v]), t[v + 1..])) else None
  }

  /** `re.findall` of that pattern. */
  function FindAll(s: string): seq<Pair> {
    if s == "" then []
    else
      var m := MatchPair(s);
      if m.Some? then [m.value.0] + FindAll(m.value.1) else FindAll(s[1..])
  }

  function PrintPair(p: Pair): string {
    p.key + ['=', '\"'] + p.value + ['\"']
  }

  /** `" ".join` of the printed pairs */
  function PrintPairs(ps: seq<Pair>): string {
    if ps == [] then ""
    else if |ps| == 1 then PrintPair(ps[0])
    else PrintPair(ps[0]) + " " + PrintPairs(ps[1..])
  }

  predicate AllWellFormed(ps: seq<Pair>) {
    forall i | 0 <= i < |ps| :: WellFormed(ps[i])
  }

  predicate DistinctKeys(ps: seq<Pair>) {
    forall i, j | 0 <= i < j < |ps| :: ps[i].key != ps[j].key
  }

  /** The source's test: print what was found and compare; no key twice. */
  predicate AttributesAccepted(attrs: string) {
    PrintPairs(FindAll(attrs)) == attrs && DistinctKeys(FindAll(attrs))
  }

  /** The value of the last pair with this key, as in a dictionary. */
  function Lookup(ps: seq<Pair>, key: string): Option<string> {
    if ps == [] then None
    else if ps[|ps| - 1].key == key then Some(ps[|ps| - 1].value)
    else Lookup(ps[..|ps| - 1], key)
  }

  lemma SpansAreExact(key: string, value: string, rest: string)
    requires forall i | 0 <= i < |key| :: KeyChar(key[i])
    requires forall i | 0 <= i < |value| :: ValueChar(value[i])
    ensures KeySpan(key + ['=', '\"'] + value + ['\"'] + rest) == |key|
    ensures ValueSpan(value + ['\"'] + rest) == |value|
  {
    var s := key + ['=', '\"'] + value + ['\"'] + rest;
    var k := KeySpan(s);
    assert s[|key|] == '=';
    assert forall i | 0 <= i < |key| :: s[i] == key[i];
    var t := value + ['\"'] + rest;
    var v := ValueSpan(t);
    assert t[|value|] == '\"';
    assert forall i | 0 <= i < |value| :: t[i] == value[i];
  }

  lemma MatchPrinted(p: Pair, rest: string)
    requires WellFormed(p)
    ensures MatchPair(PrintPair(p) + rest) == Some((p, rest))
  {
    var s := p.key + ['=', '\"'] + p.value + ['\"'] + rest;
    assert PrintPair(p) + rest == s;
    SpansAreExact(p.key, p.value, rest);
    var t := p.value + ['\"'] + rest;
    assert s[|p.key| + 2..] == t;
    assert s[..|p.key|] == p.key && t[..|p.value|] == p.value && t[|p.value| + 1..] == rest;
  }

  lemma FindAllSkipsSpace(s: string)
    ensures FindAll(" " + s) == FindAll(s)
  {
    assert (" " + s)[1..] == s;
    assert KeySpan(" " + s) == 0;
  }

  /** Printing attributes and finding them again is the identity. */
  lemma {:induction false} PairsComeBack(ps: seq<Pair>)
    requires AllWellFormed(ps)
    ensures FindAll(PrintPairs(ps)) == ps
  {
    if ps != [] {
      var rest := if |ps| == 1 then "" else " " + PrintPairs(ps[1..]);
      assert PrintPairs(ps) == PrintPair(ps[0]) + rest by {
        if |ps| == 1 {
          assert PrintPair(ps[0]) + "" == PrintPair(ps[0]);
        } else {
          assert PrintPair(ps[0]) + " " + PrintPairs(ps[1..]) == PrintPair(ps[0]) + (" " + PrintPairs(ps[1..]));
        }
      }
      hide WellFormed, PrintPair, MatchPair;
      MatchPrinted(ps[0], rest);
      if |ps| > 1 {
        PairsComeBack(ps[1..]);
        FindAllSkipsSpace(PrintPairs(ps[1..]));
      }
      assert ps == [ps[0]] + ps[1..];
    }
  }

  lemma {:induction false} FoundAreWellFormed(s: string)
    ensures AllWellFormed(FindAll(s))
    decreases |s|
  {
    if s != "" {
      var m := MatchPair(s);
      if m.Some? {
        FoundAreWellFormed(m.value.1);
      } else {
        FoundAreWellFormed(s[1..]);
      }
    }
  }

  /** An attribute string is accepted exactly when it is the printing of well-formed pairs with
      distinct keys, and then those pairs are the ones found. */
  lemma AcceptedIffPrinted(attrs: string)
    ensures AttributesAccepted(attrs) <==>
            exists ps :: AllWellFormed(ps) && DistinctKeys(ps) && PrintPairs(ps) == attrs
    ensures forall ps :: AllWellFormed(ps) && PrintPairs(ps) == attrs ==> FindAll(attrs) == ps
  {
    FoundAreWellFormed(attrs);
    forall ps | AllWellFormed(ps) && PrintPairs(ps) == attrs ensures FindAll(attrs) == ps {
      PairsComeBack(ps);
    }
  }

  // ---- hop lists -----------------------------------------------------------------------

  /** `",".join` */
  function JoinHops(hops: seq<string>): string {
    if hops == [] then "" else if |hops| == 1 then hops[0] else hops[0] + "," + JoinHops(hops[1..])
  }

  function CommaSpan(s: string): (n: nat)
    ensures n <= |s|
    ensures forall i | 0 <= i < n :: s[i] != ','
    ensures n < |s| ==> s[n] == ','
  {
    if s != "" && s[0] != ',' then 1 + CommaSpan(s[1..]) else 0
  }

  /** `str.split(",")` */
  function SplitHops(s: string): seq<string> {
    var n := CommaSpan(s);
    if n == |s| then [s] else [s[..n]] + SplitHops(s[n + 1..])
  }

  /** [0-9a-f]{24} */
  predicate IsHop(h: string) {
    |h| == 24 && forall i | 0 <= i < 24 :: LowerHex(h[i])
  }

  predicate AllHops(hops: seq<string>) {
    forall i | 0 <= i < |hops| :: IsHop(hops[i])
  }

  lemma {:induction false} HopsComeBack(hops: seq<string>)
    requires AllHops(hops) && hops != []
    ensures SplitHops(JoinHops(hops)) == hops
    ensures JoinHops(hops) != ""
    ensures forall i | 0 <= i < |JoinHops(hops)| :: ValueChar(JoinHops(hops)[i])
  {
    var h := hops[0];
    assert IsHop(h);
    assert forall i | 0 <= i < |h| :: LowerHex(h[i]) && h[i] != ',' && ValueChar(h[i]);
    if |hops| == 1 {
      assert CommaSpan(h) == |h|;
    } else {
      HopsComeBack(hops[1..]);
      var s := h + "," + JoinHops(hops[1..]);
      assert s[24] == ',';
      assert forall i | 0 <= i < 24 :: s[i] == h[i];
      assert CommaSpan(s) == 24;
      assert s[..24] == h && s[25..] == JoinHops(hops[1..]);
      assert hops == [h] + hops[1..];
    }
  }

  // ---- the envelope -----------------------------------------------------------------------

  function TagName(): string { "cross-session-message" }

  function Opening(): string { "<cross-session-message " }

  function Closing(): string { "\n</cross-session-message>" }

  function PrintEnvelope(attrs: string, body: string): string {
    Opening() + attrs + ">\n" + body + Closing()
  }

  /** The body in front of the closing tag. */
  function ParseClosed(t: string): Option<string> {
    var n := |Closing()|;
    if |t| < n || t[|t| - n..] != Closing() then None else Some(t[..|t| - n])
  }

  /** Attributes, the end of the opening tag, and the rest. */
  function ParseAttributes(s: string): Option<(string, string)> {
    var n := AttributeSpan(s);
    if n == 0 || n + 2 > |s| || s[n] != '>' || s[n + 1] != '\n' then None else Some((s[..n], s[n + 2..]))
  }

  /** `re.fullmatch` of the envelope pattern: the attribute text and the body. */
  function ParseEnvelope(content: string): Option<(string, string)> {
    if !StartsWith(content, Opening()) then None
    else
      var a := ParseAttributes(content[|Opening()|..]);
      if a.None? then None
      else
        var body := ParseClosed(a.value.1);
        if body.None? then None else Some((a.value.0, body.value))
  }

  lemma AttributesParse(attrs: string, rest: string)
    requires attrs != "" && forall i | 0 <= i < |attrs| :: AttributeChar(attrs[i])
    ensures ParseAttributes(attrs + ">\n" + rest) == Some((attrs, rest))
  {
    var s := attrs + ">\n" + rest;
    assert s[|attrs|] == '>' && s[|attrs| + 1] == '\n';
    assert forall i | 0 <= i < |attrs| :: s[i] == attrs[i];
    assert AttributeSpan(s) == |attrs|;
    assert s[..|attrs|] == attrs && s[|attrs| + 2..] == rest;
  }

  lemma EnvelopeComesBack(attrs: string, body: string)
    requires attrs != "" && forall i | 0 <= i < |attrs| :: AttributeChar(attrs[i])
    ensures ParseEnvelope(PrintEnvelope(attrs, body)) == Some((attrs, body))
  {
    hide Opening, Closing, ParseAttributes, AttributeChar;
    var rest := body + Closing();
    var s := attrs + ">\n" + rest;
    assert PrintEnvelope(attrs, body) == Opening() + s;
    assert (Opening() + s)[|Opening()|..] == s;
    AttributesParse(attrs, rest);
    assert rest[|rest| - |Closing()|..] == Closing() && rest[..|rest| - |Closing()|] == body;
  }

  lemma ParsedAttributes(s: string)
    ensures ParseAttributes(s).Some? ==> s == ParseAttributes(s).value.0 + ">\n" + ParseAttributes(s).value.1
  {
    var n := AttributeSpan(s);
    if ParseAttributes(s).Some? {
      assert s == s[..n] + ">\n" + s[n + 2..];
    }
  }

  /** Whatever parses is the printing of what was parsed. */
  lemma ParsedIsPrinted(content: string)
    ensures ParseEnvelope(content).Some? ==>
            content == PrintEnvelope(ParseEnvelope(content).value.0, ParseEnvelope(content).value.1)
  {
    hide Opening, Closing, ParseAttributes;
    if ParseEnvelope(content).Some? {
      var s := content[|Opening()|..];
      ParsedAttributes(s);
      var t := ParseAttributes(s).value.1;
      assert content == Opening() + s;
      assert t == t[..|t| - |Closing()|] + Closing();
    }
  }

  // ---- markers inside a body ------------------------------------------------------------------

  function SkipSpaces(s: string): (r: string)
    ensures |r| <= |s|
  {
    if s != "" && IsSpace(s[0]) then SkipSpaces(s[1..]) else s
  }

  function SkipSlashes(s: string): (r: string)
    ensures |r| <= |s|
  {
    if s != "" && (s[0] == '/' || s[0] == '\\') then SkipSlashes(s[1..]) else s
  }

  /** Does `c` match the lower-case letter or hyphen `p` when case is ignored? The long s is a
      case variant of s, the dotted capital and the dotless small i are ones of i. */
  predicate SameLetter(c: char, p: char) {
    || c == p
    || ('a' <= p <= 'z' && c as int == p as int - 32)
    || (p == 's' && c as int == 0x17F)
    || (p == 'i' && (c as int == 0x130 || c as int == 0x131))
  }

  predicate NameAt(t: string, name: string) {
    |t| >= |name| && forall i | 0 <= i < |name| :: SameLetter(t[i], name[i])
  }

  /** What follows <\s*[/\\]*\s* at the start of a text. */
  function AfterBracket(s: string): string
    requires s != ""
  {
    SkipSpaces(SkipSlashes(SkipSpaces(s[1..])))
  }

  /** The name, in any case, at a word boundary; `word` says which characters the regular
      expression engine takes for word characters. */
  predicate NamedAt(t: string, word: char -> bool) {
    NameAt(t, TagName()) && (|t| == |TagName()| || !word(t[|TagName()|]))
  }

  /** <\s*[/\\]*\s*cross-session-message\b at the start of the text */
  predicate MarkerAt(s: string, word: char -> bool) {
    s != "" && s[0] == '<' && NamedAt(AfterBracket(s), word)
  }

  /** `nested_marker` */
  predicate NestedMarker(body: string, word: char -> bool) {
    exists i | 0 <= i < |body| :: MarkerAt(body[i..], word)
  }

  lemma {:induction false} SkipSpacesAppend(s: string, tail: string)
    requires SkipSpaces(s) != ""
    ensures SkipSpaces(s + tail) == SkipSpaces(s) + tail
  {
    if s != "" && IsSpace(s[0]) {
      assert (s + tail)[1..] == s[1..] + tail;
      SkipSpacesAppend(s[1..], tail);
    }
  }

  lemma {:induction false} SkipSlashesAppend(s: string, tail: string)
    requires SkipSlashes(s) != ""
    ensures SkipSlashes(s + tail) == SkipSlashes(s) + tail
  {
    if s != "" && (s[0] == '/' || s[0] == '\\') {
      assert (s + tail)[1..] == s[1..] + tail;
      SkipSlashesAppend(s[1..], tail);
    }
  }

  lemma AfterBracketAppend(s: string, tail: string)
    requires s != "" && AfterBracket(s) != ""
    ensures AfterBracket(s + tail) == AfterBracket(s) + tail
  {
    hide SkipSpaces, SkipSlashes;
    var a := SkipSpaces(s[1..]);
    var b := SkipSlashes(a);
    assert b != "" && a != "";
    SkipSpacesAppend(s[1..], tail);
    SkipSlashesAppend(a, tail);
    SkipSpacesAppend(b, tail);
    assert (s + tail)[1..] == s[1..] + tail;
  }

  lemma NameIsLong()
    ensures |TagName()| == 21
  {
  }

  lemma MarkerExtends(s: string, tail: string, word: char -> bool)
    requires tail == "" || !word(tail[0])
    ensures MarkerAt(s, word) ==> MarkerAt(s + tail, word)
  {
    hide TagName, AfterBracket;
    NameIsLong();
    if MarkerAt(s, word) {
      var t := AfterBracket(s);
      AfterBracketAppend(s, tail);
      assert (s + tail)[0] == s[0];
      assert forall i | 0 <= i < 21 :: (t + tail)[i] == t[i];
      assert |t| > 21 ==> (t + tail)[21] == t[21];
      assert |t| == 21 && tail != "" ==> (t + tail)[21] == tail[0];
    }
  }

  /** Stripping the end of a marker-free body keeps it marker-free. */
  lemma StrippedHasNoMarker(body: string, word: char -> bool)
    requires !NestedMarker(body, word)
    requires forall c :: IsSpace(c) ==> !word(c)
    ensures !NestedMarker(RStrip(body), word)
  {
    hide MarkerAt;
    var r := RStrip(body);
    var tail := body[|r|..];
    forall i | 0 <= i < |r| ensures !MarkerAt(r[i..], word) {
      assert body[i..] == r[i..] + tail;
      assert |r| < |body| ==> tail[0] == body[|r|];
      MarkerExtends(r[i..], tail, word);
      assert !MarkerAt(body[i..], word);
    }
  }
}
