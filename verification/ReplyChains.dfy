/** Reply chains in a mesh of Codex bridges (src/peer_chat.py, dispatch, outbound, decode_frame):
    every reply inherits the hops of the message it answers, the sender adds its own, and the
    receiver reads them back from the printed frame. */
module ReplyChains {
  import opened Common
  import opened Frames
  import Envelope
  import Messages

  /** What does not change: each bridge's own hop and listener address. */
  datatype Setup = Setup(hop: nat -> string, address: nat -> string, word: char -> bool)

  ghost predicate SetupOk(c: Setup) {
    && (forall b: nat :: Envelope.IsHop(c.hop(b)) && CleanValue(c.address(b)))
    && SpacesAreNotWords(c.word)
  }

  /** A received message: its hops, and (history only) its place in its reply chain. */
  datatype Stored = Stored(hops: seq<string>, nth: nat)

  /** Messages are stored under their sender and id. */
  type Table = map<(nat, string), Stored>

  /** The tables of all bridges, and the chain places of all messages ever sent. */
  datatype Mesh = Mesh(tables: seq<Table>, sent: seq<nat>)

  /** One message: from a bridge to a peer, possibly answering one received from that peer. */
  datatype Say = Say(from: nat, to: nat, id: string, body: string, answers: Option<string>,
                     mode: PermissionClass, model: Option<string>)

  function SenderOf(c: Setup, x: Say): Sender {
    Sender(c.address(x.from), x.mode, x.model, false, c.hop(x.from), true)
  }

  /** The message answered, as the sender has it stored. */
  function Answered(m: Mesh, x: Say): Stored
    requires x.from < |m.tables|
  {
    if x.answers.Some? && (x.to, x.answers.value) in m.tables[x.from]
    then m.tables[x.from][(x.to, x.answers.value)] else Stored([], 0)
  }

  /** Send and receive one message. Fresh ids are UUIDs. */
  function Next(c: Setup, m: Mesh, x: Say): Mesh {
    if x.from >= |m.tables| || x.to >= |m.tables| || !IsUuid(x.id) then m
    else
      var prior := Answered(m, x);
      var f := Outbound(SenderOf(c, x), x.body, x.id, prior.hops, c.word);
      if f.None? then m
      else
        var d := Decode(|Bytes(f.value)|, Some(Parsed(f.value)), c.address(x.from), c.word);
        var key := (x.from, x.id);
        var table := m.tables[x.to];
        Mesh(if d.Some? && d.value.Message? && key !in table
             then m.tables[x.to := table[key := Stored(d.value.hops, prior.nth + 1)]] else m.tables,
             m.sent + [prior.nth + 1])
  }

  function Run(c: Setup, m: Mesh, says: seq<Say>): Mesh {
    if says == [] then m else Next(c, Run(c, m, says[..|says| - 1]), says[|says| - 1])
  }

  predicate StoredOk(s: Stored) {
    |s.hops| == s.nth && s.nth <= MAX_CHAIN && Envelope.AllHops(s.hops)
  }

  ghost predicate MeshOk(m: Mesh) {
    && (forall b, k | 0 <= b < |m.tables| && k in m.tables[b] :: StoredOk(m.tables[b][k]))
    && (forall i | 0 <= i < |m.sent| :: 1 <= m.sent[i] <= MAX_CHAIN)
  }

  lemma NextOk(c: Setup, m: Mesh, x: Say)
    requires SetupOk(c) && MeshOk(m)
    ensures MeshOk(Next(c, m, x))
  {
    hide Decode, Envelope.IsHop, Envelope.NestedMarker, Blank, StartsWith, Bytes, Parsed, CleanValue;
    if x.from < |m.tables| && x.to < |m.tables| && IsUuid(x.id) {
      var prior := Answered(m, x);
      assert StoredOk(prior);
      var s := SenderOf(c, x);
      if Outbound(s, x.body, x.id, prior.hops, c.word).Some? {
        MessageComesBack(s, x.body, x.id, prior.hops, c.word);
        NextHopsAreHops(s, prior.hops);
      }
    }
  }

  /** In every run of the mesh the n-th message of a reply chain carries exactly n hops when it is
      stored, and no message beyond the 32nd of a chain is ever sent. */
  lemma {:induction false} ChainsCountHops(c: Setup, m: Mesh, says: seq<Say>)
    requires SetupOk(c) && MeshOk(m)
    ensures MeshOk(Run(c, m, says))
  {
    hide Next, MeshOk;
    if says != [] {
      ChainsCountHops(c, m, says[..|says| - 1]);
      NextOk(c, Run(c, m, says[..|says| - 1]), says[|says| - 1]);
    }
  }

  /** So only the first seven messages of a chain can be offered or can wake anybody. */
  lemma OnlySevenAreAutomatic(c: Setup, m: Mesh, says: seq<Say>, b: nat, k: (nat, string),
                              v: Messages.View, r: Messages.Row)
    requires SetupOk(c) && MeshOk(m)
    requires b < |Run(c, m, says).tables| && k in Run(c, m, says).tables[b]
    requires r.hops == Run(c, m, says).tables[b][k].hops
    ensures Messages.Deliverable(v, r) <==> r.peer in v.enrolled && Run(c, m, says).tables[b][k].nth <= 7
  {
    hide Next;
    ChainsCountHops(c, m, says);
    assert StoredOk(Run(c, m, says).tables[b][k]);
  }

  /** The 33rd message of a chain is refused by its sender. */
  lemma ChainsEnd(c: Setup, m: Mesh, x: Say)
    requires SetupOk(c) && MeshOk(m) && x.from < |m.tables| && Answered(m, x).nth == MAX_CHAIN
    ensures Next(c, m, x) == m
  {
    hide Decode, Envelope.NestedMarker, Blank, StartsWith, Bytes, Parsed, IsUuid;
    assert StoredOk(Answered(m, x));
  }
}
