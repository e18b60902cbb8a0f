/** Exactly when `outbound` sends (src/peer_chat.py), that everything of ordinary size is sent, and that
    reply chains do reach their end. */
module Sending {
  import opened Common
  import opened Envelope
  import opened Frames
  import opened ReplyChains
  import Json

  // ---- the exact condition -----------------------------------------------------------------------

  /** The hop list leaves room: towards a Codex peer the own hop is always added; elsewhere it is not
      if the list already has it. */
  predicate HopsLeaveRoom(s: Sender, hops: seq<string>) {
    if s.toCodex || s.ownHop !in hops then |hops| <= 31 else |hops| <= 32
  }

  /** The frame this message would travel in. */
  function FrameFor(s: Sender, body: string, id: string, hops: seq<string>): Frame {
    var chain := if s.toCodex || s.ownHop !in hops then hops + [s.ownHop] else hops;
    Frame(id, PrintEnvelope(PrintPairs(Attributes(s, chain)), RStrip(body)), s.address)
  }

  /** A message is sent if and only if its body is not blank and carries no envelope marker, an advisory
      opens as one, the hop list leaves room and the printed frame fits into a line. */
  lemma SentExactly(s: Sender, body: string, id: string, hops: seq<string>, word: char -> bool)
    ensures Outbound(s, body, id, hops, word).Some? <==>
              && !Blank(body) && !NestedMarker(body, word)
              && (s.advisory ==> StartsWith(body, AdvisoryMark()))
              && HopsLeaveRoom(s, hops)
              && |Json.Utf8(Print(FrameFor(s, body, id, hops)))| <= 65536
    ensures Outbound(s, body, id, hops, word).Some? ==>
              Outbound(s, body, id, hops, word).value == FrameFor(s, body, id, hops)
  {
    hide NestedMarker, Blank, StartsWith, AdvisoryMark, Print, PrintEnvelope, PrintPairs, Attributes, Json.Utf8, RStrip;
  }

  // ---- ordinary messages fit ----------------------------------------------------------------------

  lemma {:induction false} EscapeIsShort(s: string)
    ensures |Json.Escape(s)| <= 6 * |s|
  {
    if s != "" {
      EscapeIsShort(s[1..]);
      EscapedCharIsShort(s[0]);
      hide Json.EscapeChar;
    }
  }

  lemma EscapedCharIsShort(c: char)
    ensures |Json.EscapeChar(c)| <= 6
  {
  }

  lemma {:induction false} Utf8IsShort(s: string)
    ensures |Json.Utf8(s)| <= 4 * |s|
  {
    if s != "" {
      Utf8IsShort(s[1..]);
      CharIsShort(s[0]);
      hide Json.Utf8Char;
    }
  }

  lemma CharIsShort(c: char)
    ensures |Json.Utf8Char(c)| <= 4
  {
    hide Json.ByteOf;
  }

  lemma {:induction false} HopsAreShort(hops: seq<string>)
    requires AllHops(hops)
    ensures |JoinHops(hops)| <= 25 * |hops|
  {
    if |hops| == 1 {
      assert IsHop(hops[0]);
    } else if hops != [] {
      assert IsHop(hops[0]);
      HopsAreShort(hops[1..]);
    }
  }

  lemma KeysAreShort()
    ensures |KeyFrom()| == 4 && |KeyHops()| == 9 && |KeyName()| == 9 && |KeyMode()| == 9
  {
  }

  lemma ModeIsShort(c: PermissionClass)
    ensures |ModeName(c)| <= 9
  {
  }

  lemma NameIsShort(s: Sender)
    ensures |SenderName(s)| <= 54
  {
    assert |"Codex-"| == 6 && |"Codex"| == 5 && |"peer-chat-bridge"| == 16;
  }

  /** A frame names the bridge for an advisory, and otherwise Codex with the model on record: at most 48
      characters of it, each one that is safe kept and every other an underscore. */
  lemma NamesExactly(s: Sender, hops: seq<string>)
    ensures var name := Lookup(Attributes(s, hops), KeyName());
            && name == Some(SenderName(s))
            && (s.advisory ==> SenderName(s) == "peer-chat-bridge")
            && (!s.advisory && !Truthy(s.model) ==> SenderName(s) == "Codex")
            && (!s.advisory && Truthy(s.model) ==>
                  && |SenderName(s)| == 6 + (if |s.model.value| <= 48 then |s.model.value| else 48)
                  && SenderName(s)[..6] == "Codex-"
                  && forall i | 6 <= i < |SenderName(s)| ::
                       SenderName(s)[i] == if SafeChar(s.model.value[i - 6]) then s.model.value[i - 6] else '_')
  {
    LookupsAnswer(s, hops);
    hide KeyFrom, KeyHops, KeyName, KeyMode, ModeName, JoinHops, Lookup;
  }

  lemma PairIsShort(p: Pair)
    ensures |PrintPair(p)| == |p.key| + |p.value| + 3
  {
  }

  lemma PairsJoin(p: Pair, rest: seq<Pair>)
    requires rest != []
    ensures |PrintPairs([p] + rest)| == |PrintPair(p)| + 1 + |PrintPairs(rest)|
  {
    assert ([p] + rest)[1..] == rest;
  }

  lemma AttributesAreShort(s: Sender, hops: seq<string>)
    requires AllHops(hops) && |hops| <= 32
    ensures |PrintPairs(Attributes(s, hops))| <= |s.address| + 920
  {
    hide KeyFrom, KeyHops, KeyName, KeyMode, ModeName, SenderName, PrintPair, PrintPairs, JoinHops, IsHop;
    KeysAreShort();
    ModeIsShort(s.mode);
    NameIsShort(s);
    HopsAreShort(hops);
    var from, chain := Pair(KeyFrom(), s.address), Pair(KeyHops(), JoinHops(hops));
    var name, mode := Pair(KeyName(), SenderName(s)), Pair(KeyMode(), ModeName(s.mode));
    PairIsShort(from);
    PairIsShort(chain);
    PairIsShort(name);
    PairIsShort(mode);
    SinglePair(mode);
    PairsJoin(name, [mode]);
    assert [name] + [mode] == [name, mode];
    if hops == [] {
      PairsJoin(from, [name, mode]);
      assert Attributes(s, hops) == [from] + [name, mode];
    } else {
      PairsJoin(chain, [name, mode]);
      PairsJoin(from, [chain] + [name, mode]);
      assert Attributes(s, hops) == [from] + ([chain] + [name, mode]);
    }
  }

  lemma SinglePair(p: Pair)
    ensures PrintPairs([p]) == PrintPair(p)
  {
  }

  lemma TagsAreShort()
    ensures |Opening()| == 23 && |Closing()| == 25
  {
  }

  lemma PunctuationIsShort()
    ensures |BeforeId()| <= 30 && |BeforeFrom()| <= 30 && |AfterFrom()| <= 30
  {
  }

  lemma RolesAreShort()
    ensures |FrameType()| <= 40 && |BeforeContent()| <= 40
  {
  }

  lemma FrameIsShort(f: Frame)
    ensures |Bytes(f)| <= 24 * (|f.id| + |f.content| + |f.address|) + 704
  {
    hide Json.Escape, Json.Utf8, BeforeId, FrameType, BeforeContent, BeforeFrom, AfterFrom;
    PunctuationIsShort();
    RolesAreShort();
    EscapeIsShort(f.id);
    EscapeIsShort(f.content);
    EscapeIsShort(f.address);
    Utf8IsShort(Print(f));
  }

  /** Every frame with a listener address and a body of at most five hundred characters fits, with any
      characters in them and any hop list within the limit. */
  lemma OrdinaryFits(s: Sender, body: string, id: string, hops: seq<string>)
    requires IsUuid(id) && AllHops(hops) && IsHop(s.ownHop) && HopsLeaveRoom(s, hops)
    requires |s.address| <= 500 && |body| <= 500
    ensures |Json.Utf8(Print(FrameFor(s, body, id, hops)))| <= 65536
  {
    var chain := NextHops(s, hops);
    NextHopsAreHops(s, hops);
    var f := FrameFor(s, body, id, hops);
    hide Print, PrintPairs, Attributes, Json.Utf8, Opening, Closing, IsHop;
    AttributesAreShort(s, chain);
    TagsAreShort();
    FrameIsShort(f);
    assert |f.content| <= |PrintPairs(Attributes(s, chain))| + |body| + 50;
  }

  // ---- replies are sent -----------------------------------------------------------------------------

  /** What the sender of a reply must meet, in terms of what it holds. */
  predicate MaySay(c: Setup, m: Mesh, x: Say) {
    && x.from < |m.tables| && x.to < |m.tables| && IsUuid(x.id)
    && !Blank(x.body) && !NestedMarker(x.body, c.word) && |Answered(m, x).hops| <= 31
    && |Json.Utf8(Print(FrameFor(SenderOf(c, x), x.body, x.id, Answered(m, x).hops)))| <= 65536
  }

  /** Answering the stored n-th message of a chain, n at most 31, with a body that may be sent in a frame
      that fits, sends the (n+1)-th; and unless it opens as an advisory or repeats an id, the receiver
      stores it with n+1 hops, the last of them the sender's own. */
  lemma RepliesAreSent(c: Setup, m: Mesh, x: Say)
    requires SetupOk(c) && MeshOk(m) && MaySay(c, m, x)
    ensures var prior, t := Answered(m, x), Next(c, m, x);
            && t.sent == m.sent + [prior.nth + 1]
            && (!StartsWith(x.body, AdvisoryMark()) && (x.from, x.id) !in m.tables[x.to] ==>
                  t.tables == m.tables[x.to := m.tables[x.to][(x.from, x.id) :=
                                Stored(prior.hops + [c.hop(x.from)], prior.nth + 1)]])
  {
    hide Decode, IsHop, NestedMarker, Blank, StartsWith, AdvisoryMark, Parsed, CleanValue, FrameFor, Print, Json.Utf8,
         Outbound;
    var prior, s := Answered(m, x), SenderOf(c, x);
    assert StoredOk(prior);
    SentExactly(s, x.body, x.id, prior.hops, c.word);
    MessageComesBack(s, x.body, x.id, prior.hops, c.word);
  }

  // ---- a chain reaches its end ------------------------------------------------------------------------

  /** The n-th of some ids. */
  function NthId(n: nat): string
    requires n < 256
  {
    seq(36, i => if i == 8 || i == 13 || i == 18 || i == 23 then '-'
                 else if i == 34 then Json.HexDigit(n / 16)
                 else if i == 35 then Json.HexDigit(n % 16) else '0')
  }

  lemma DigitsDiffer(a: nat, b: nat)
    requires a < 16 && b < 16
    ensures AnyHex(Json.HexDigit(a))
    ensures Json.HexDigit(a) == Json.HexDigit(b) ==> a == b
  {
  }

  lemma NthIdIsUuid(n: nat)
    requires n < 256
    ensures IsUuid(NthId(n))
  {
    DigitsDiffer(n / 16, n % 16);
    DigitsDiffer(n % 16, n / 16);
    hide Json.HexDigit;
    assert AnyHex('0');
  }

  lemma NthIdsDiffer(m: nat, n: nat)
    requires m < n < 256
    ensures NthId(m) != NthId(n)
  {
    hide Json.HexDigit;
    DigitsDiffer(m / 16, n / 16);
    DigitsDiffer(m % 16, n % 16);
    assert NthId(m)[34] == Json.HexDigit(m / 16) && NthId(n)[34] == Json.HexDigit(n / 16);
    assert NthId(m)[35] == Json.HexDigit(m % 16) && NthId(n)[35] == Json.HexDigit(n % 16);
  }

  /** The n-th message of a conversation of two: each answers the one before. */
  function Talk(n: nat, body: string, mode: PermissionClass): Say
    requires 1 <= n < 256
  {
    Say(if n % 2 == 1 then 0 else 1, if n % 2 == 1 then 1 else 0, NthId(n), body,
        if n == 1 then None else Some(NthId(n - 1)), mode, None)
  }

  function Talks(n: nat, body: string, mode: PermissionClass): seq<Say>
    requires n < 256
  {
    seq(n, i requires 0 <= i < n => Talk(i + 1, body, mode))
  }

  /** The body may be sent, is no advisory, and is of ordinary size, as are the addresses. */
  predicate Ordinary(c: Setup, body: string) {
    && !Blank(body) && !NestedMarker(body, c.word) && !StartsWith(body, AdvisoryMark()) && |body| <= 500
    && |c.address(0)| <= 500 && |c.address(1)| <= 500
  }

  /** Any text without an opening angle bracket will do. */
  lemma PlainIsOrdinary(c: Setup, body: string)
    requires !Blank(body) && '<' !in body && |body| <= 500 && !StartsWith(body, AdvisoryMark())
    requires |c.address(0)| <= 500 && |c.address(1)| <= 500
    ensures Ordinary(c, body)
  {
    hide NamedAt, AfterBracket;
    forall i | 0 <= i < |body| ensures !MarkerAt(body[i..], c.word) {
      assert body[i] in body;
    }
  }

  /** After `n` messages: all were sent, the last one is stored where it was sent, and no later id is in
      use. */
  ghost predicate Talked(m: Mesh, n: nat) {
    && MeshOk(m) && |m.tables| == 2
    && m.sent == seq(n, i => i + 1)
    && (0 < n < 256 ==>
          var last := (if n % 2 == 1 then 0 else 1, NthId(n));
          var table := m.tables[if n % 2 == 1 then 1 else 0];
          last in table && table[last].nth == n && |table[last].hops| == n)
    && (forall b, from, k | 0 <= b < 2 && n < k < 256 :: (from, NthId(k)) !in m.tables[b])
  }

  lemma TalkGoesOn(c: Setup, m: Mesh, n: nat, body: string, mode: PermissionClass)
    requires SetupOk(c) && Ordinary(c, body) && Talked(m, n) && n <= 31
    ensures Talked(Next(c, m, Talk(n + 1, body, mode)), n + 1)
  {
    hide Decode, IsHop, NestedMarker, Blank, StartsWith, AdvisoryMark, Parsed, CleanValue, FrameFor, Print, Json.Utf8,
         Outbound, NthId, IsUuid, Next;
    var x := Talk(n + 1, body, mode);
    NthIdIsUuid(n + 1);
    var prior := Answered(m, x);
    assert prior.nth == n && StoredOk(prior);
    OrdinaryFits(SenderOf(c, x), body, x.id, prior.hops);
    assert MaySay(c, m, x);
    RepliesAreSent(c, m, x);
    NextOk(c, m, x);
    var t := Next(c, m, x);
    assert t.sent == seq(n + 1, i => i + 1);
    forall b, from, k | 0 <= b < 2 && n + 1 < k < 256 ensures (from, NthId(k)) !in t.tables[b] {
      NthIdsDiffer(n + 1, k);
      assert (from, NthId(k)) !in m.tables[b];
    }
  }

  lemma {:induction false} TalkRuns(c: Setup, n: nat, body: string, mode: PermissionClass)
    requires SetupOk(c) && Ordinary(c, body) && n <= 32
    ensures Talked(Run(c, Mesh([map[], map[]], []), Talks(n, body, mode)), n)
  {
    hide Talked, Talk, Ordinary, Next;
    if n == 0 {
      NobodyTalked();
      assert Talks(0, body, mode) == [];
    } else {
      TalkRuns(c, n - 1, body, mode);
      assert Talks(n, body, mode)[..n - 1] == Talks(n - 1, body, mode);
      TalkGoesOn(c, Run(c, Mesh([map[], map[]], []), Talks(n - 1, body, mode)), n - 1, body, mode);
    }
  }

  lemma NobodyTalked()
    ensures Talked(Mesh([map[], map[]], []), 0)
  {
    assert seq(0, i => i + 1) == [];
  }

  /** Two bridges that answer each other with any ordinary body get exactly to the 32nd message: all 32
      are sent in order, the last is stored with 32 hops, and no answer to it is sent. */
  lemma ChainsReachTheirEnd(c: Setup, body: string, mode: PermissionClass)
    requires SetupOk(c) && Ordinary(c, body)
    ensures var m := Run(c, Mesh([map[], map[]], []), Talks(32, body, mode));
            && m.sent == seq(32, i => i + 1) && |m.tables| == 2
            && (1, NthId(32)) in m.tables[0] && |m.tables[0][(1, NthId(32))].hops| == 32
            && Next(c, m, Talk(33, body, mode)) == m
  {
    hide Decode, IsHop, NestedMarker, Blank, StartsWith, AdvisoryMark, Parsed, CleanValue, FrameFor, Print, Json.Utf8,
         Outbound, NthId, IsUuid, Next, Run, Ordinary, Talks;
    TalkRuns(c, 32, body, mode);
    var m := Run(c, Mesh([map[], map[]], []), Talks(32, body, mode));
    ChainsEnd(c, m, Talk(33, body, mode));
  }
}
