/** What the texts put before the model tell it, and exactly which prompts count as the owner's. */
module Texts {
  import opened Common
  import opened Budget
  import opened Messages
  import opened Offers
  import opened Prompts
  import Json

  // ---- the owner's prompts ------------------------------------------------------------------------

  predicate CarriesMarker(prompt: string) {
    || Contains(prompt, "PEER CHAT DELIVERY NOTICE")
    || Contains(prompt, "EXTERNAL PEER INBOX NOTICE")
    || Contains(prompt, "EXTERNAL AGENT MESSAGE")
    || Contains(prompt, "<cross-session-message")
    || Contains(prompt, "[Peer bridge transport self-test;")
    || Contains(prompt, "Peer Chat setup verification continuation,")
  }

  lemma StripIsInside(s: string)
    ensures Contains(s, Strip(s))
  {
    var r := RStrip(s);
    var t := LStrip(r);
    assert At(s, |r| - |t|, t) by {
      assert s[..|r|] == r;
      assert s[|r| - |t|..|r|] == r[|r| - |t|..];
    }
  }

  lemma InsideInside(outer: string, inner: string, part: string)
    requires Contains(outer, inner) && Contains(inner, part)
    ensures Contains(outer, part)
  {
    var i :| 0 <= i <= |outer| && At(outer, i, inner);
    var j :| 0 <= j <= |inner| && At(inner, j, part);
    forall k | 0 <= k < |part| ensures outer[i + j..i + j + |part|][k] == part[k] {
      assert inner[j..j + |part|][k] == inner[j + k] == outer[i..i + |inner|][j + k];
    }
    assert At(outer, i + j, part);
  }

  /** A prompt that is the bridge's own notice carries its marker. */
  lemma NoticesAreExternal(prompt: string, id: string)
    ensures IsNoticeFor(prompt, id) ==> External(prompt)
  {
    hide InboxNotice, NoticeHead, NoticeMiddle, NoticeTail, Strip, Contains, IsUuid, PeerNotice, AgentMessage;
    var w := Wording(InboxNotice(), NoticeHead(), NoticeMiddle(), NoticeTail());
    NoticeIsTight();
    FillIsStripped(w, id);
    if Strip(prompt) == Fill(w, id) {
      StripIsInside(prompt);
      FillOpens(w, id);
      ContainsInside("", InboxNotice(), w.head + id + w.middle + id + w.tail);
      assert "" + InboxNotice() == InboxNotice();
      InsideInside(prompt, Fill(w, id), InboxNotice());
    }
  }

  lemma MarkersAreSix(prompt: string)
    ensures External(prompt) <==> CarriesMarker(prompt)
  {
    hide Contains;
  }

  /** A prompt counts as the owner's exactly if it is not blank and carries none of the six markers. */
  lemma OwnerExactly(prompt: string)
    ensures Reading(Some(prompt)).Owner? <==> !Blank(prompt) && !CarriesMarker(prompt)
  {
    MarkersAreSix(prompt);
    hide External, IsNoticeFor, CarriesMarker;
    if exists id :: IsNoticeFor(prompt, id) {
      var id :| IsNoticeFor(prompt, id);
      NoticesAreExternal(prompt, id);
    }
  }

  // ---- what the texts tell ------------------------------------------------------------------------

  /** Behind the head the text is one JSON string and a closing brace, and the string reads as the body. */
  predicate Quotes(text: string, head: string, body: string) {
    && text == head + ['\"'] + Json.Escape(body) + ['\"'] + "}"
    && |head| < |text| && Json.ReadString(text[|head| + 1..]) == Some((body, "}"))
  }

  /** The message of a peer comes as one JSON string that reads back as exactly its body, whatever it
      contains, behind a head that names peer, permission class and id, and before one closing brace. */
  lemma MessagesAreQuoted(name: string, mode: string, id: string, body: string) returns (head: string)
    ensures Quotes(QueuedText(name, mode, id, body), head, body)
    ensures AgentMessage() <= head
    ensures Contains(head, name + ClassLabel() + mode + IdLabel() + id)
  {
    var naming := Naming(name, mode, id);
    hide AgentMessage, QueuedHead, QueuedAdvice, ClassLabel, IdLabel, Json.Escape, Json.ReadString, Contains;
    head := AgentMessage() + QueuedHead() + naming + QueuedAdvice();
    var text := QueuedText(name, mode, id, body);
    assert text == head + ['\"'] + Json.Escape(body) + ['\"'] + "}";
    assert text[|head| + 1..] == Json.Escape(body) + ['\"'] + "}";
    Json.StringComesBack(body, "}");
    ContainsInside(AgentMessage() + QueuedHead(), naming, QueuedAdvice());
  }

  /** A wake notice and a short reference tell the message they are about: no two ids share a text. */
  lemma NoticesTellTheirMessage(a: string, b: string)
    requires IsUuid(a) && IsUuid(b)
    ensures NoticeText(a) == NoticeText(b) || ReferenceText(a) == ReferenceText(b) ==> a == b
  {
    hide InboxNotice, NoticeHead, NoticeMiddle, NoticeTail, AgentMessage, ReferenceHead, ReferenceMiddle, ReferenceTail;
    var n := Wording(InboxNotice(), NoticeHead(), NoticeMiddle(), NoticeTail());
    var r := Wording(AgentMessage(), ReferenceHead(), ReferenceMiddle(), ReferenceTail());
    if NoticeText(a) == NoticeText(b) {
      FillIsInjective(n, a, b);
    } else if ReferenceText(a) == ReferenceText(b) {
      FillIsInjective(r, a, b);
    }
  }

  /** What a hook returns for each message it offers is the message in full exactly if that is at most
      18000 characters long, and its short reference otherwise. */
  lemma {:induction false} ShownInFullIfShort(done: seq<Row>, v: View, j: nat)
    requires j < |done| && forall i | 0 <= i < |done| :: done[i].peer in v.enrolled && |done[i].hops| < 8
    ensures |OfferedPieces(done, v)| == |OfferedKeys(done, v)| == |done|
    ensures OfferedKeys(done, v)[j] == done[j].Ref()
    ensures OfferedPieces(done, v)[j]
            == if |v.inline(done[j])| <= 18000 then v.inline(done[j]) else v.reference(done[j])
  {
    if |done| > 1 {
      ShownInFullIfShort(done[1..], v, if j == 0 then 0 else j - 1);
    }
  }

  lemma {:induction false} PiecesAreShort(done: seq<Row>, v: View, bound: nat)
    requires forall i | 0 <= i < |done| :: |Piece(v, done[i])| <= bound
    ensures TotalLength(OfferedPieces(done, v)) <= bound * |done|
  {
    hide Piece, Deliverable, TotalLength;
    if done == [] {
      NoLength();
    } else {
      PiecesAreShort(done[1..], v, bound);
      var rest := OfferedPieces(done[1..], v);
      TotalLengthCons(Piece(v, done[0]), rest);
      assert [] + rest == rest;
      assert bound * |done| == bound * |done[1..]| + bound;
    }
  }

  lemma NoLength()
    ensures TotalLength([]) == 0
  {
  }

  lemma {:induction false} TotalLengthCons(p: string, pieces: seq<string>)
    ensures TotalLength([p] + pieces) == |p| + TotalLength(pieces)
  {
    if pieces == [] {
      assert [p] + pieces == [p] && [p][..0] == [];
    } else {
      var m := |pieces| - 1;
      TotalLengthCons(p, pieces[..m]);
      assert ([p] + pieces)[..m + 1] == [p] + pieces[..m];
    }
  }

  lemma RoomForAll(todo: seq<Row>, n: nat, out: Batch, v: View)
    requires Stops(todo, n, out, v) && n <= |todo| <= 4 && out.remaining.Unlimited?
    requires TotalLength(out.pieces) <= 4500 * n && (n < |todo| ==> |Piece(v, todo[n])| <= 4500)
    ensures n == |todo|
  {
    hide Piece, TotalLength, Deliverable;
  }

  /** With room for them, a hook gets to the four oldest received messages, or to all if there are fewer. */
  lemma FourAtATime(rows: seq<Row>, v: View)
    requires Distinct(rows)
    requires forall r | r in ReceivedRows(rows) :: |Piece(v, r)| <= 4500
    ensures var received := ReceivedRows(rows);
            var first := if |received| <= 4 then received else received[..4];
            Offering(FirstFew(received), Batch(rows, Unlimited, [], []), v).offered == OfferedKeys(first, v)
  {
    hide Settled, Distinct, Piece, Deliverable, OfferedKeys, OfferedPieces, ReceivedRows, Offering, Reach, Stops;
    BatchExact(rows, Unlimited, [], v);
    var received := ReceivedRows(rows);
    var todo := FirstFew(received);
    var n := Reach(todo, Unlimited, TotalLength([]), v);
    var out := Offering(todo, Batch(rows, Unlimited, [], []), v);
    assert forall i | 0 <= i < |received| :: received[i] in received;
    PiecesAreShort(received[..n], v, 4500);
    assert [] + OfferedPieces(received[..n], v) == OfferedPieces(received[..n], v);
    RoomForAll(todo, n, out, v);
    assert received[..|received|] == received;
  }
}
