/** Exactly which frames `decode_frame` takes for what (src/peer_chat.py). */
module Decoding {
  import opened Common
  import opened Envelope
  import opened Frames
  import Json

  // ---- hop lists ------------------------------------------------------------------------------------

  /** Splitting at commas and joining again is the identity. */
  lemma {:induction false} SplitJoins(s: string)
    ensures SplitHops(s) != [] && JoinHops(SplitHops(s)) == s
  {
    var n := CommaSpan(s);
    if n == |s| {
      assert JoinHops([s]) == s;
    } else {
      SplitJoins(s[n + 1..]);
      var rest := SplitHops(s[n + 1..]);
      assert ([s[..n]] + rest)[1..] == rest;
      assert s == s[..n] + "," + s[n + 1..];
    }
  }

  /** The hop list some attributes give: none, or the printing of these hops. */
  predicate GivesHops(ps: seq<Pair>, hops: seq<string>) {
    && AllHops(hops)
    && if hops == [] then !Truthy(Lookup(ps, KeyHops())) else Lookup(ps, KeyHops()) == Some(JoinHops(hops))
  }

  lemma HopsReadExactly(ps: seq<Pair>, hops: seq<string>)
    ensures ReadHops(ps) == hops && AllHops(hops) <==> GivesHops(ps, hops)
  {
    hide KeyHops, IsHop, Lookup;
    var chain := Lookup(ps, KeyHops());
    if Truthy(chain) {
      SplitJoins(chain.value);
    }
    if GivesHops(ps, hops) && hops != [] {
      HopsComeBack(hops);
    }
  }

  // ---- message contents -------------------------------------------------------------------------------

  /** A message of `expected` that a bridge may take: what its attributes must give and its body be. */
  predicate MayTake(ps: seq<Pair>, body: string, mode: string, hops: seq<string>, expected: string,
                    word: char -> bool)
  {
    && AllWellFormed(ps) && DistinctKeys(ps)
    && Lookup(ps, KeyFrom()) == Some(expected)
    && Lookup(ps, KeyMode()) == Some(mode) && (mode == ModeName(Bypass) || mode == ModeName(Prompting))
    && GivesHops(ps, hops) && |hops| <= 32
    && !Blank(body) && !NestedMarker(body, word) && !StartsWith(body, AdvisoryMark())
  }

  lemma PrintedContentReads(id: string, ps: seq<Pair>, body: string, mode: string, hops: seq<string>,
                            expected: string, word: char -> bool)
    requires MayTake(ps, body, mode, hops, expected, word)
    ensures DecodeContent(id, PrintEnvelope(PrintPairs(ps), body), expected, word)
            == Some(Message(id, body, mode, hops))
  {
    hide KeyFrom, KeyHops, KeyMode, ModeName, PrintPairs, FindAll, WellFormed, IsHop, PrintEnvelope, ParseEnvelope,
         AdvisoryMark, NestedMarker, Blank, StartsWith, GivesHops, ReadHops;
    PairsComeBack(ps);
    PrintedPairsAreAttributes(ps);
    EnvelopeComesBack(PrintPairs(ps), body);
    HopsReadExactly(ps, hops);
    GivenAreHops(ps, hops);
  }

  lemma GivenAreHops(ps: seq<Pair>, hops: seq<string>)
    requires GivesHops(ps, hops)
    ensures AllHops(hops)
  {
  }

  lemma TakenContentIsPrinted(id: string, content: string, expected: string, word: char -> bool) returns (ps: seq<Pair>)
    requires DecodeContent(id, content, expected, word).Some?
    ensures var d := DecodeContent(id, content, expected, word).value;
            && d.Message? && d.id == id
            && content == PrintEnvelope(PrintPairs(ps), d.body)
            && MayTake(ps, d.body, d.mode, d.hops, expected, word)
  {
    hide ParseEnvelope, PrintEnvelope, NestedMarker, Blank, StartsWith, Lookup, FindAll, PrintPairs, ReadHops,
         AdvisoryMark, KeyFrom, KeyMode, KeyHops, ModeName, GivesHops, IsHop, WellFormed;
    ParsedIsPrinted(content);
    var attrs := ParseEnvelope(content).value.0;
    FoundAreWellFormed(attrs);
    ps := FindAll(attrs);
    HopsReadExactly(ps, ReadHops(ps));
  }

  /** A content is taken for a message with this body, class and hops exactly if it is the printing of
      well-formed attributes with distinct keys that give the sender's own address, a known class and at
      most 32 hops, and of a body that is neither blank nor marked nor an advisory. */
  lemma TakenExactly(id: string, content: string, body: string, mode: string, hops: seq<string>,
                     expected: string, word: char -> bool)
    ensures DecodeContent(id, content, expected, word) == Some(Message(id, body, mode, hops)) <==>
              exists ps :: content == PrintEnvelope(PrintPairs(ps), body)
                           && MayTake(ps, body, mode, hops, expected, word)
  {
    hide DecodeContent, MayTake, PrintEnvelope, PrintPairs;
    if DecodeContent(id, content, expected, word) == Some(Message(id, body, mode, hops)) {
      var ps := TakenContentIsPrinted(id, content, expected, word);
    }
    if exists ps :: content == PrintEnvelope(PrintPairs(ps), body) && MayTake(ps, body, mode, hops, expected, word) {
      var ps :| content == PrintEnvelope(PrintPairs(ps), body) && MayTake(ps, body, mode, hops, expected, word);
      PrintedContentReads(id, ps, body, mode, hops, expected, word);
    }
  }

  // ---- whole frames -------------------------------------------------------------------------------------

  predicate Says(v: Json.Value, key: string, text: string) {
    v.Object? && key in v.members && v.members[key] == Json.Text(text)
  }

  /** The value is a user message of this sender under this id with this content. */
  predicate IsUserFrame(v: Json.Value, expected: string, id: string, content: string) {
    && Says(v, "from", expected) && Says(v, "type", "user") && Says(v, "msg_id", id) && IsUuid(id)
    && "message" in v.members
    && Says(v.members["message"], "role", "user") && Says(v.members["message"], "content", content)
  }

  lemma TypesDiffer()
    ensures "user" != "control" && "peer_chat_notice" != "peer_message_status"
  {
    assert |"user"| == 4 && |"control"| == 7;
    assert |"peer_chat_notice"| == 16 && |"peer_message_status"| == 19;
  }

  lemma ContentsGiveMessages(id: string, content: string, expected: string, word: char -> bool)
    ensures var d := DecodeContent(id, content, expected, word);
            d.Some? ==> d.value.Message? && d.value.id == id
  {
    hide ParseEnvelope, NestedMarker, Blank, StartsWith, Lookup, FindAll, AttributesAccepted, ReadHops, AdvisoryMark,
         KeyFrom, KeyMode, ModeName, IsHop;
  }

  /** A line is taken for a message exactly if it fits, parses, is a user frame of the verified sender
      under a valid id, and its content is taken. */
  lemma MessagesExactly(size: nat, frame: Option<Json.Value>, expected: string, word: char -> bool,
                        id: string, body: string, mode: string, hops: seq<string>)
    ensures Decode(size, frame, expected, word) == Some(Message(id, body, mode, hops)) <==>
              && size <= 65536 && frame.Some?
              && exists content :: IsUserFrame(frame.value, expected, id, content)
                                   && DecodeContent(id, content, expected, word) == Some(Message(id, body, mode, hops))
  {
    hide DecodeContent, IsUuid;
    TypesDiffer();
    if Decode(size, frame, expected, word) == Some(Message(id, body, mode, hops)) {
      var v := frame.value;
      var content := v.members["message"].members["content"].text;
      ContentsGiveMessages(v.members["msg_id"].text, content, expected, word);
      assert IsUserFrame(v, expected, id, content);
    }
  }

  /** What a notice reports of the remaining window: nothing, "unlimited" or a number. */
  predicate Remains(v: Json.Value, r: Reported) {
    var known := v.Object? && "remaining" in v.members && v.members["remaining"] != Json.Null;
    match r
    case Unknown => !known
    case Unlimited => known && v.members["remaining"] == Json.Text("unlimited")
    case Left(n) => known && v.members["remaining"] == Json.Integer(n)
  }

  /** A line is taken for an advisory exactly if it fits, parses and is such a control frame of the
      verified sender, with a state of at most 80 and a warning of at most 1000 characters. */
  lemma NoticesExactly(size: nat, frame: Option<Json.Value>, expected: string, word: char -> bool,
                       state: string, warning: string, r: Reported)
    ensures Decode(size, frame, expected, word) == Some(Notice(state, warning, r)) <==>
              && size <= 65536 && frame.Some?
              && var v := frame.value;
              && Says(v, "from", expected) && Says(v, "type", "control") && Says(v, "action", "peer_chat_notice")
              && Says(v, "state", state) && |state| <= 80 && Says(v, "warning", warning) && |warning| <= 1000
              && Remains(v, r)
  {
    hide DecodeContent, IsUuid;
    TypesDiffer();
    if frame.Some? {
      UserFramesGiveMessages(frame.value, expected, word);
    }
    hide DecodeUser;
  }

  lemma UserFramesGiveMessages(v: Json.Value, expected: string, word: char -> bool)
    ensures DecodeUser(v, expected, word).Some? ==> DecodeUser(v, expected, word).value.Message?
  {
    hide DecodeContent, IsUuid;
    if DecodeUser(v, expected, word).Some? {
      var content := Json.Get(Json.Get(v, "message").value, "content").value.text;
      ContentsGiveMessages(Json.Get(v, "msg_id").value.text, content, expected, word);
    }
  }

  /** A line is taken for a receipt exactly if it fits, parses and is such a control frame of the verified
      sender, for a valid id and one of the six statuses. */
  lemma ReceiptsExactly(size: nat, frame: Option<Json.Value>, expected: string, word: char -> bool,
                        id: string, status: string)
    ensures Decode(size, frame, expected, word) == Some(Receipt(id, status)) <==>
              && size <= 65536 && frame.Some?
              && var v := frame.value;
              && Says(v, "from", expected) && Says(v, "type", "control") && Says(v, "action", "peer_message_status")
              && Says(v, "orig_msg_id", id) && IsUuid(id) && Says(v, "status", status)
              && status in {"held", "delivered", "refused", "denied", "expired", "dropped"}
  {
    hide DecodeContent, IsUuid;
    TypesDiffer();
    if frame.Some? {
      UserFramesGiveMessages(frame.value, expected, word);
    }
    hide DecodeUser;
  }
}
