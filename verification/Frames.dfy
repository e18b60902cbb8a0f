/** Frames between peers (src/peer_chat.py): what `outbound` sends and what `decode_frame` makes of
    it. Reading JSON text is not part of the model: a frame is decoded from its parsed value. */
module Frames {
  import opened Common
  import opened Envelope
  import Framing
  import Json

  // ---- sending ------------------------------------------------------------------------

  datatype PermissionClass = Bypass | Prompting

  function ModeName(c: PermissionClass): string {
    match c case Bypass => "bypass" case Prompting => "prompting"
  }

  /** Who sends: the listener's address, the proven permission class, the model on record, whether
      this is a service advisory, the own hop and the kind of peer. */
  datatype Sender = Sender(address: string, mode: PermissionClass, model: Option<string>, advisory: bool,
                           ownHop: string, toCodex: bool)

  function AdvisoryMark(): string { "PEER CHAT DELIVERY NOTICE" }

  /** [A-Za-z0-9_.-] */
  predicate SafeChar(c: char) {
    'A' <= c <= 'Z' || 'a' <= c <= 'z' || '0' <= c <= '9' || c == '_' || c == '.' || c == '-'
  }

  /** `re.sub` of everything else by an underscore */
  function SafeName(model: string): (r: string)
    ensures |r| == |model|
    ensures forall i | 0 <= i < |r| :: SafeChar(r[i]) && r[i] == if SafeChar(model[i]) then model[i] else '_'
  {
    seq(|model|, i requires 0 <= i < |model| => if SafeChar(model[i]) then model[i] else '_')
  }

  function SenderName(s: Sender): string {
    if s.advisory then "peer-chat-bridge"
    else if Truthy(s.model) then "Codex-" + SafeName(s.model.value)[..Min(|s.model.value|, 48)]
    else "Codex"
  }

  const MAX_CHAIN: nat := 32

  /** The chain a message carries on: the inherited one, with the own hop at its end unless a peer
      that is not Codex already finds it there. */
  function NextHops(s: Sender, hops: seq<string>): seq<string> {
    if s.toCodex || s.ownHop !in hops then hops + [s.ownHop] else hops
  }

  function KeyFrom(): string { "from" }
  function KeyHops(): string { "hop-chain" }
  function KeyName(): string { "from-name" }
  function KeyMode(): string { "from-mode" }

  function Attributes(s: Sender, hops: seq<string>): seq<Pair> {
    [Pair(KeyFrom(), s.address)]
    + (if hops == [] then [] else [Pair(KeyHops(), JoinHops(hops))])
    + [Pair(KeyName(), SenderName(s)), Pair(KeyMode(), ModeName(s.mode))]
  }

  datatype Frame = Frame(id: string, content: string, address: string)

  function BeforeId(): string { "{\"msgV\": 1, \"msg_id\": " }

  function FrameType(): string { ", \"type\": \"user\", \"message\": " }

  function BeforeContent(): string { "{\"role\": \"user\", \"content\": " }

  function BeforeFrom(): string { "}, \"from\": " }

  function AfterFrom(): string { ", \"priority\": \"next\"}" }

  /** The JSON text of a frame. */
  function Print(f: Frame): string {
    BeforeId() + Json.Quoted(f.id) + FrameType() + BeforeContent() + Json.Quoted(f.content)
    + BeforeFrom() + Json.Quoted(f.address) + AfterFrom()
  }

  function Bytes(f: Frame): seq<Byte> {
    Json.Utf8(Print(f))
  }

  /** `outbound` up to the socket; `None` is its ValueError. */
  function Outbound(s: Sender, body: string, id: string, hops: seq<string>, word: char -> bool): Option<Frame> {
    if Blank(body) || NestedMarker(body, word) then None
    else if s.advisory && !StartsWith(body, AdvisoryMark()) then None
    else
      var chain := NextHops(s, hops);
      if |chain| > MAX_CHAIN then None
      else
        var f := Frame(id, PrintEnvelope(PrintPairs(Attributes(s, chain)), RStrip(body)), s.address);
        if |Bytes(f)| > Framing.MAX_LINE then None else Some(f)
  }

  // ---- receiving -----------------------------------------------------------------------

  /** `remaining` of a notice: missing, "unlimited" or an integer. */
  datatype Reported = Unknown | Unlimited | Left(n: int)

  datatype Decoded =
    | Notice(state: string, warning: string, remaining: Reported)
    | Receipt(id: string, status: string)
    | Message(id: string, body: string, mode: string, hops: seq<string>)

  function ReceiptStatuses(): set<string> {
    {"held", "delivered", "refused", "denied", "expired", "dropped"}
  }

  function ReadRemaining(v: Option<Json.Value>): Option<Reported> {
    if v.None? || v.value.Null? then Some(Unknown)
    else if v.value == Json.Text("unlimited") then Some(Unlimited)
    else if v.value.Integer? then Some(Left(v.value.number))
    else None
  }

  function DecodeNotice(frame: Json.Value): Option<Decoded> {
    var state, warning := Json.Get(frame, "state"), Json.Get(frame, "warning");
    var remaining := ReadRemaining(Json.Get(frame, "remaining"));
    if state.Some? && state.value.Text? && |state.value.text| <= 80
       && warning.Some? && warning.value.Text? && |warning.value.text| <= 1000 && remaining.Some?
    then Some(Notice(state.value.text, warning.value.text, remaining.value)) else None
  }

  function DecodeReceipt(frame: Json.Value): Option<Decoded> {
    var id, status := Json.Get(frame, "orig_msg_id"), Json.Get(frame, "status");
    if id.Some? && id.value.Text? && IsUuid(id.value.text)
       && status.Some? && status.value.Text? && status.value.text in ReceiptStatuses()
    then Some(Receipt(id.value.text, status.value.text)) else None
  }

  function ReadHops(ps: seq<Pair>): seq<string> {
    var chain := Lookup(ps, KeyHops());
    if Truthy(chain) then SplitHops(chain.value) else []
  }

  /** The envelope of a message, already known to come from `expected`. */
  function DecodeContent(id: string, content: string, expected: string, word: char -> bool): Option<Decoded> {
    var e := ParseEnvelope(content);
    if e.None? then None
    else
      var (attrs, body) := e.value;
      var ps := FindAll(attrs);
      var mode := Lookup(ps, KeyMode());
      var hops := ReadHops(ps);
      if !AttributesAccepted(attrs) then None
      else if Lookup(ps, KeyFrom()) != Some(expected) then None
      else if mode != Some(ModeName(Bypass)) && mode != Some(ModeName(Prompting)) then None
      else if Blank(body) || NestedMarker(body, word) then None
      else if StartsWith(body, AdvisoryMark()) then None
      else if |hops| > MAX_CHAIN || !AllHops(hops) then None
      else Some(Message(id, body, mode.value, hops))
  }

  function DecodeUser(frame: Json.Value, expected: string, word: char -> bool): Option<Decoded> {
    var id, message := Json.Get(frame, "msg_id"), Json.Get(frame, "message");
    if !Json.IsText(Json.Get(frame, "type"), "user") || id.None? || !id.value.Text? || !IsUuid(id.value.text) then None
    else if message.None? || !Json.IsText(Json.Get(message.value, "role"), "user") then None
    else
      var content := Json.Get(message.value, "content");
      if content.None? || !content.value.Text? then None
      else DecodeContent(id.value.text, content.value.text, expected, word)
  }

  /** `decode_frame` of a line of `size` bytes that parses to `frame`, if it parses. */
  function Decode(size: nat, frame: Option<Json.Value>, expected: string, word: char -> bool): Option<Decoded> {
    if size > Framing.MAX_LINE || frame.None? || !Json.IsText(Json.Get(frame.value, "from"), expected) then None
    else
      var control := Json.IsText(Json.Get(frame.value, "type"), "control");
      var action := Json.Get(frame.value, "action");
      if control && Json.IsText(action, "peer_chat_notice") then DecodeNotice(frame.value)
      else if control && Json.IsText(action, "peer_message_status") then DecodeReceipt(frame.value)
      else DecodeUser(frame.value, expected, word)
  }

  /** What the printed text of a frame parses to. */
  function Parsed(f: Frame): Json.Value {
    Json.Object(map[
      "msgV" := Json.Integer(1),
      "msg_id" := Json.Text(f.id),
      "type" := Json.Text("user"),
      "message" := Json.Object(map["role" := Json.Text("user"), "content" := Json.Text(f.content)]),
      "from" := Json.Text(f.address),
      "priority" := Json.Text("next")])
  }

  // ---- the round trip ---------------------------------------------------------------------

  predicate CleanValue(v: string) {
    forall i | 0 <= i < |v| :: ValueChar(v[i])
  }

  lemma NamesAreClean(s: Sender)
    ensures CleanValue(SenderName(s)) && CleanValue(ModeName(s.mode))
  {
    if !s.advisory && Truthy(s.model) {
      CodexIsClean();
      var m := SafeName(s.model.value)[..Min(|s.model.value|, 48)];
      assert CleanValue(m);
      CleanAppend("Codex-", m);
    } else {
      CodexIsClean();
    }
  }

  lemma CodexIsClean()
    ensures CleanValue("Codex-") && CleanValue("Codex") && CleanValue("peer-chat-bridge")
  {
  }

  lemma CleanAppend(a: string, b: string)
    requires CleanValue(a) && CleanValue(b)
    ensures CleanValue(a + b)
  {
  }

  lemma KeysAreKeys()
    ensures forall v :: CleanValue(v) ==> WellFormed(Pair(KeyFrom(), v)) && WellFormed(Pair(KeyHops(), v))
                                          && WellFormed(Pair(KeyName(), v)) && WellFormed(Pair(KeyMode(), v))
  {
  }

  lemma KeysDiffer()
    ensures |KeyFrom()| == 4 && |KeyHops()| == 9 && |KeyName()| == 9 && |KeyMode()| == 9
    ensures KeyHops() != KeyName() && KeyHops() != KeyMode() && KeyName() != KeyMode()
  {
    assert KeyHops()[0] == 'h' && KeyName()[0] == 'f' && KeyMode()[0] == 'f';
    assert KeyName()[5] == 'n' && KeyMode()[5] == 'm';
  }

  /** The printed attributes parse back to the pairs, and the pairs answer the lookups. */
  lemma AttributesComeBack(s: Sender, hops: seq<string>)
    requires CleanValue(s.address) && AllHops(hops)
    ensures var ps := Attributes(s, hops);
            var attrs := PrintPairs(ps);
            && FindAll(attrs) == ps && AttributesAccepted(attrs)
            && Lookup(ps, KeyFrom()) == Some(s.address)
            && Lookup(ps, KeyMode()) == Some(ModeName(s.mode))
            && ReadHops(ps) == hops
  {
    hide KeyFrom, KeyHops, KeyName, KeyMode, ModeName, SenderName, PrintPairs, FindAll, WellFormed, IsHop;
    var ps := Attributes(s, hops);
    NamesAreClean(s);
    KeysAreKeys();
    KeysDiffer();
    if hops != [] {
      HopsComeBack(hops);
    }
    assert AllWellFormed(ps);
    assert DistinctKeys(ps);
    PairsComeBack(ps);
    LookupsAnswer(s, hops);
  }

  lemma LookupsAnswer(s: Sender, hops: seq<string>)
    ensures var ps := Attributes(s, hops);
            && Lookup(ps, KeyFrom()) == Some(s.address)
            && Lookup(ps, KeyMode()) == Some(ModeName(s.mode))
            && Lookup(ps, KeyHops()) == (if hops == [] then None else Some(JoinHops(hops)))
            && Lookup(ps, KeyName()) == Some(SenderName(s))
  {
    hide KeyFrom, KeyHops, KeyName, KeyMode, ModeName, SenderName, JoinHops;
    KeysDiffer();
    var from := Pair(KeyFrom(), s.address);
    var name, mode := Pair(KeyName(), SenderName(s)), Pair(KeyMode(), ModeName(s.mode));
    var front := if hops == [] then [from] else [from] + [Pair(KeyHops(), JoinHops(hops))];
    assert Attributes(s, hops) == front + [name] + [mode];
    forall k ensures Lookup(front + [name] + [mode], k)
      == if k == KeyMode() then Some(mode.value) else if k == KeyName() then Some(name.value) else Lookup(front, k)
    {
      LookupSnoc(front + [name], mode, k);
      LookupSnoc(front, name, k);
    }
    LookupSnoc([], from, KeyFrom());
    LookupSnoc([], from, KeyHops());
    assert [] + [from] == [from];
    if hops != [] {
      LookupSnoc([from], Pair(KeyHops(), JoinHops(hops)), KeyFrom());
      LookupSnoc([from], Pair(KeyHops(), JoinHops(hops)), KeyHops());
    }
  }

  lemma LookupSnoc(ps: seq<Pair>, p: Pair, key: string)
    ensures Lookup(ps + [p], key) == if p.key == key then Some(p.value) else Lookup(ps, key)
  {
    assert (ps + [p])[..|ps|] == ps;
  }

  lemma {:induction false} PrintedPairsAreAttributes(ps: seq<Pair>)
    requires AllWellFormed(ps)
    ensures forall i | 0 <= i < |PrintPairs(ps)| :: AttributeChar(PrintPairs(ps)[i])
    ensures ps != [] ==> PrintPairs(ps) != ""
  {
    if ps != [] {
      assert WellFormed(ps[0]);
      PrintedPairIsAttribute(ps[0]);
      if |ps| > 1 {
        PrintedPairsAreAttributes(ps[1..]);
      }
    }
  }

  lemma PrintedPairIsAttribute(p: Pair)
    requires WellFormed(p)
    ensures forall i | 0 <= i < |PrintPair(p)| :: AttributeChar(PrintPair(p)[i])
    ensures PrintPair(p) != ""
  {
  }

  /** What one side must hold for its frames to be read at all: a listener address that fits an
      attribute, an own hop of 24 hex digits, an inherited chain of such hops, a message id. */
  predicate Sane(s: Sender, id: string, hops: seq<string>) {
    CleanValue(s.address) && IsHop(s.ownHop) && AllHops(hops) && IsUuid(id)
  }

  predicate SpacesAreNotWords(word: char -> bool) {
    forall c | IsSpace(c) :: !word(c)
  }

  lemma NextHopsAreHops(s: Sender, hops: seq<string>)
    requires IsHop(s.ownHop) && AllHops(hops)
    ensures AllHops(NextHops(s, hops)) && NextHops(s, hops) != []
  {
    hide IsHop;
  }

  lemma RStripKeeps(body: string)
    ensures Blank(RStrip(body)) <==> Blank(body)
    ensures StartsWith(RStrip(body), AdvisoryMark()) <==> StartsWith(body, AdvisoryMark())
  {
    var r, mark := RStrip(body), AdvisoryMark();
    MarkIsSolid();
    hide AdvisoryMark;
    assert r == "" || r[|r| - 1] == body[|r| - 1];
    if !Blank(body) {
      var i :| 0 <= i < |body| && !IsSpace(body[i]);
      assert i < |r| && r[i] == body[i];
    }
    if StartsWith(body, mark) {
      assert body[|mark| - 1] == mark[|mark| - 1];
      assert |mark| <= |r|;
      assert r == body[..|r|] && body[..|r|][..|mark|] == body[..|mark|] == mark;
    }
  }

  lemma MarkIsSolid()
    ensures |AdvisoryMark()| > 0 && !IsSpace(AdvisoryMark()[|AdvisoryMark()| - 1])
  {
  }

  /** What the envelope of a sent message decodes to. */
  lemma ContentComesBack(s: Sender, body: string, id: string, chain: seq<string>, word: char -> bool)
    requires CleanValue(s.address) && AllHops(chain) && |chain| <= MAX_CHAIN
    requires !Blank(body) && !NestedMarker(body, word) && SpacesAreNotWords(word)
    ensures DecodeContent(id, PrintEnvelope(PrintPairs(Attributes(s, chain)), RStrip(body)), s.address, word)
            == if StartsWith(body, AdvisoryMark()) then None
               else Some(Message(id, RStrip(body), ModeName(s.mode), chain))
  {
    hide KeyFrom, KeyHops, KeyName, KeyMode, SenderName, PrintPairs, FindAll, WellFormed, IsHop, PrintEnvelope,
         ParseEnvelope,
         AdvisoryMark, NestedMarker, Blank, StartsWith, ModeName, Lookup, AttributesAccepted, CleanValue;
    var ps := Attributes(s, chain);
    AttributesComeBack(s, chain);
    WellFormedAttributes(s, chain);
    PrintedPairsAreAttributes(ps);
    EnvelopeComesBack(PrintPairs(ps), RStrip(body));
    RStripKeeps(body);
    StrippedHasNoMarker(body, word);
    assert s.mode == Bypass || s.mode == Prompting;
  }

  lemma WellFormedAttributes(s: Sender, hops: seq<string>)
    requires CleanValue(s.address) && AllHops(hops)
    ensures AllWellFormed(Attributes(s, hops)) && Attributes(s, hops) != []
  {
    hide KeyFrom, KeyHops, KeyName, KeyMode, ModeName, SenderName, WellFormed, IsHop;
    NamesAreClean(s);
    KeysAreKeys();
    if hops != [] {
      HopsComeBack(hops);
    }
  }

  /** A sent message is read back exactly, with its id, its right-trimmed body, its permission class
      and its chain, unless it is a service advisory, which a bridge never takes for a message. */
  lemma MessageComesBack(s: Sender, body: string, id: string, hops: seq<string>, word: char -> bool)
    requires Sane(s, id, hops) && SpacesAreNotWords(word)
    requires Outbound(s, body, id, hops, word).Some?
    ensures var f := Outbound(s, body, id, hops, word).value;
            Decode(|Bytes(f)|, Some(Parsed(f)), s.address, word)
            == if StartsWith(body, AdvisoryMark()) then None
               else Some(Message(id, RStrip(body), ModeName(s.mode), NextHops(s, hops)))
  {
    hide AdvisoryMark, NestedMarker, Blank, StartsWith, ModeName, PrintPairs, PrintEnvelope, Attributes, Bytes,
         IsHop, CleanValue, DecodeContent;
    NextHopsAreHops(s, hops);
    ContentComesBack(s, body, id, NextHops(s, hops), word);
    var f := Outbound(s, body, id, hops, word).value;
    ParsedAnswers(f);
  }

  lemma ParsedAnswers(f: Frame)
    requires IsUuid(f.id)
    ensures var v := Parsed(f);
            && Json.IsText(Json.Get(v, "from"), f.address)
            && Json.IsText(Json.Get(v, "type"), "user") && !Json.IsText(Json.Get(v, "type"), "control")
            && forall expected, word :: DecodeUser(v, expected, word) == DecodeContent(f.id, f.content, expected, word)
  {
    hide DecodeContent, IsUuid;
    assert "user" != "control" by { assert |"user"| != |"control"|; }
  }

  /** Conversely, an accepted message is the printing of what was read from it: well-formed
      attributes with distinct keys, the sender's own address among them, and a body with neither
      an envelope marker nor an advisory in it. */
  lemma AcceptedMessagesArePrinted(id: string, content: string, expected: string, word: char -> bool)
    requires DecodeContent(id, content, expected, word).Some?
    ensures exists ps ::
              && AllWellFormed(ps) && DistinctKeys(ps)
              && content == PrintEnvelope(PrintPairs(ps), DecodeContent(id, content, expected, word).value.body)
              && Lookup(ps, KeyFrom()) == Some(expected)
              && Lookup(ps, KeyMode()) == Some(DecodeContent(id, content, expected, word).value.mode)
              && ReadHops(ps) == DecodeContent(id, content, expected, word).value.hops
              && |ReadHops(ps)| <= MAX_CHAIN && AllHops(ReadHops(ps))
  {
    hide ParseEnvelope, PrintEnvelope, NestedMarker, Blank, StartsWith, Lookup, FindAll, PrintPairs, ReadHops,
         AdvisoryMark, KeyFrom, KeyMode, ModeName;
    ParsedIsPrinted(content);
    var attrs := ParseEnvelope(content).value.0;
    FoundAreWellFormed(attrs);
    assert AllWellFormed(FindAll(attrs));
  }

  // ---- the printed text tells the frame ---------------------------------------------------------

  /** The string behind some known punctuation, and the text behind it. */
  function StringAfter(t: string, mark: string): Option<(string, string)> {
    if StartsWith(t, mark + ['\"']) then Json.ReadString(t[|mark| + 1..]) else None
  }

  /** The three strings of a printed frame. */
  function ReadFrame(t: string): Option<Frame> {
    var id := StringAfter(t, BeforeId());
    if id.None? then None
    else
      var content := StringAfter(id.value.1, FrameType() + BeforeContent());
      if content.None? then None
      else
        var from := StringAfter(content.value.1, BeforeFrom());
        if from.None? || from.value.1 != AfterFrom() then None
        else Some(Frame(id.value.0, content.value.0, from.value.0))
  }

  lemma StringAfterMark(mark: string, s: string, rest: string)
    ensures StringAfter(mark + Json.Quoted(s) + rest, mark) == Some((s, rest))
  {
    hide Json.ReadString, Json.Escape;
    var t := mark + Json.Quoted(s) + rest;
    assert t[..|mark| + 1] == mark + ['\"'];
    assert t[|mark| + 1..] == Json.Escape(s) + ['\"'] + rest;
    Json.StringComesBack(s, rest);
  }

  /** No two frames print alike: id, envelope and address can be read off the text, whatever quotes,
      escapes or punctuation they contain. */
  lemma FrameComesBack(f: Frame)
    ensures ReadFrame(Print(f)) == Some(f)
  {
    hide Json.Quoted, StringAfter, BeforeId, FrameType, BeforeContent, BeforeFrom, AfterFrom;
    var third := BeforeFrom() + Json.Quoted(f.address) + AfterFrom();
    var second := FrameType() + BeforeContent() + Json.Quoted(f.content) + third;
    assert Print(f) == BeforeId() + Json.Quoted(f.id) + second;
    StringAfterMark(BeforeId(), f.id, second);
    StringAfterMark(FrameType() + BeforeContent(), f.content, third);
    StringAfterMark(BeforeFrom(), f.address, AfterFrom());
  }

  /** Nor do two frames have the same bytes on the wire. */
  lemma BytesComeBack(f: Frame)
    ensures Json.FromUtf8(Bytes(f)).Some? && ReadFrame(Json.FromUtf8(Bytes(f)).value) == Some(f)
  {
    hide Print, ReadFrame, Json.Utf8, Json.FromUtf8;
    Json.Utf8ComesBack(Print(f));
    FrameComesBack(f);
  }

  // ---- frames on the wire ---------------------------------------------------------------------

  lemma PunctuationHasNoBreak()
    ensures Json.NoBreak(BeforeId()) && BeforeId() != "" && Json.NoBreak(BeforeFrom()) && Json.NoBreak(AfterFrom())
  {
  }

  lemma RoleHasNoBreak()
    ensures Json.NoBreak(FrameType()) && Json.NoBreak(BeforeContent())
  {
  }

  /** A printed frame is one line. */
  lemma PrintHasNoBreak(f: Frame)
    ensures Json.NoBreak(Print(f)) && Print(f) != ""
  {
    hide Json.Quoted, BeforeId, FrameType, BeforeContent, BeforeFrom, AfterFrom;
    PunctuationHasNoBreak();
    RoleHasNoBreak();
    Json.EscapeHasNoBreak(f.id);
    Json.EscapeHasNoBreak(f.content);
    Json.EscapeHasNoBreak(f.address);
  }

  /** Every sent frame is one non-empty line within the limit, so any chunking of any stream of them
      returns them in order. */
  lemma SentFramesComeBack(frames: seq<Frame>, chunks: seq<seq<Byte>>)
    requires forall i | 0 <= i < |frames| :: |Bytes(frames[i])| <= Framing.MAX_LINE
    requires var lines := seq(|frames|, i requires 0 <= i < |frames| => Bytes(frames[i]));
             Framing.Whole(chunks) == Framing.Printed(lines)
    ensures Framing.Received(chunks)
            == Framing.Open([], seq(|frames|, i requires 0 <= i < |frames| => Bytes(frames[i])))
  {
    hide Print, Framing.Printed, Framing.Received, Framing.Whole, Json.Utf8;
    var lines := seq(|frames|, i requires 0 <= i < |frames| => Bytes(frames[i]));
    forall i | 0 <= i < |lines|
      ensures lines[i] != [] && Framing.OneLine(lines[i]) && |lines[i]| <= Framing.MAX_LINE
    {
      PrintHasNoBreak(frames[i]);
      Json.Utf8HasNoBreak(Print(frames[i]));
    }
    Framing.FramesComeBack(lines, chunks);
  }
}
