/** src/peer_chat.py, class LineBuffer: one frame per line, however the bytes arrive. */
module Framing {
  import opened Common

  type Line = seq<Byte>

  const NEWLINE: Byte := 10
  const MAX_LINE: nat := 65536

  /** A stream cut at its newlines: the complete lines and the unfinished last one. */
  datatype Cut = Cut(done: seq<Line>, rest: Line)

  function Push(c: Cut, b: Byte): Cut {
    if b == NEWLINE then Cut(c.done + [c.rest], []) else c.(rest := c.rest + [b])
  }

  /** `bytes.split(b"\n")`: the last part of the split is `rest`. */
  function Cuts(s: seq<Byte>): Cut {
    if s == [] then Cut([], []) else Push(Cuts(s[..|s| - 1]), s[|s| - 1])
  }

  predicate TooLong(c: Cut) {
    |c.rest| > MAX_LINE || exists i | 0 <= i < |c.done| :: |c.done[i]| > MAX_LINE
  }

  function NonEmpty(lines: seq<Line>): seq<Line> {
    if lines == [] then []
    else NonEmpty(lines[..|lines| - 1]) + (if lines[|lines| - 1] != [] then [lines[|lines| - 1]] else [])
  }

  /** What a connection has yielded so far. */
  datatype Stream = Failed | Open(kept: Line, lines: seq<Line>)

  function FeedOnce(s: Stream, data: seq<Byte>): Stream {
    if s.Failed? then Failed
    else
      var c := Cuts(s.kept + data);
      if TooLong(c) then Failed else Open(c.rest, s.lines + NonEmpty(c.done))
  }

  function Received(chunks: seq<seq<Byte>>): Stream {
    if chunks == [] then Open([], []) else FeedOnce(Received(chunks[..|chunks| - 1]), chunks[|chunks| - 1])
  }

  /** The buffer of one connection. */
  class LineBuffer {
    var buffer: Line

    constructor ()
      ensures buffer == []
    {
      buffer := [];
    }

    /** `None` is the ValueError of an over-long frame; the bytes stay appended. */
    method Feed(data: seq<Byte>) returns (lines: Option<seq<Line>>)
      modifies this
      ensures var c := Cuts(old(buffer) + data);
              if TooLong(c) then lines == None && buffer == old(buffer) + data
              else lines == Some(NonEmpty(c.done)) && buffer == c.rest
    {
      buffer := buffer + data;
      var c := Cuts(buffer);
      if TooLong(c) {
        return None;
      }
      buffer := c.rest;
      return Some(NonEmpty(c.done));
    }

    /** The reads of one connection, in order, until one of them fails. */
    method Receive(chunks: seq<seq<Byte>>) returns (r: Stream)
      requires buffer == []
      modifies this
      ensures r == Received(chunks)
      ensures r.Open? ==> buffer == r.kept
    {
      var got: seq<Line> := [];
      for i := 0 to |chunks|
        invariant Received(chunks[..i]) == Open(buffer, got)
      {
        assert chunks[..i + 1][..i] == chunks[..i];
        var lines := Feed(chunks[i]);
        if lines.None? {
          FailedStaysFailed(chunks, i + 1);
          return Failed;
        }
        got := got + lines.value;
      }
      assert chunks[..|chunks|] == chunks;
      return Open(buffer, got);
    }
  }

  lemma {:induction false} FailedStaysFailed(chunks: seq<seq<Byte>>, i: nat)
    requires i <= |chunks| && Received(chunks[..i]).Failed?
    ensures Received(chunks).Failed?
    decreases |chunks| - i
  {
    if i < |chunks| {
      assert chunks[..i + 1][..i] == chunks[..i];
      FailedStaysFailed(chunks, i + 1);
    } else {
      assert chunks[..i] == chunks;
    }
  }

  // ---- cutting and printing are inverse --------------------------------------------

  predicate OneLine(s: seq<Byte>) {
    NEWLINE !in s
  }

  /** Lines as a sender writes them: each followed by a newline. */
  function Printed(lines: seq<Line>): seq<Byte> {
    if lines == [] then [] else Printed(lines[..|lines| - 1]) + lines[|lines| - 1] + [NEWLINE]
  }

  lemma PrintedSnoc(lines: seq<Line>, l: Line)
    ensures Printed(lines + [l]) == Printed(lines) + l + [NEWLINE]
  {
    assert (lines + [l])[..|lines|] == lines;
  }

  /** Nothing is lost or invented: the parts are newline-free and print back to the stream. */
  lemma {:induction false} CutsPrintBack(s: seq<Byte>)
    ensures forall l :: l in Cuts(s).done ==> OneLine(l)
    ensures OneLine(Cuts(s).rest)
    ensures Printed(Cuts(s).done) + Cuts(s).rest == s
  {
    OneLineSnoc([], 0);
    hide OneLine, Printed;
    if s != [] {
      var t, b := s[..|s| - 1], s[|s| - 1];
      CutsPrintBack(t);
      OneLineSnoc(Cuts(t).rest, b);
      PrintedSnoc(Cuts(t).done, Cuts(t).rest);
      PrintsBackSnoc(Cuts(t), b);
      assert s == t + [b];
    } else {
      PrintedNothing();
    }
  }

  lemma PrintedNothing()
    ensures Printed([]) + [] == []
  {
  }

  lemma OneLineSnoc(l: Line, b: Byte)
    ensures OneLine(l + [b]) <==> OneLine(l) && b != NEWLINE
    ensures OneLine([])
  {
  }

  lemma PrintsBackSnoc(c: Cut, b: Byte)
    ensures Printed(Push(c, b).done) + Push(c, b).rest == Printed(c.done) + c.rest + [b]
  {
    if b == NEWLINE {
      PrintedSnoc(c.done, c.rest);
    }
    hide Printed;
    assert Printed(c.done) + (c.rest + [b]) == Printed(c.done) + c.rest + [b];
  }

  lemma Assoc<T>(a: seq<T>, b: seq<T>, c: seq<T>)
    ensures a + b + c == a + (b + c)
  {
  }

  lemma SplitLast<T>(s: seq<T>)
    requires s != []
    ensures s[..|s| - 1] + [s[|s| - 1]] == s
  {
  }

  /** Newline-free bytes only extend the last part. */
  lemma {:induction false} CutsLine(s: seq<Byte>, line: Line)
    requires OneLine(line)
    ensures Cuts(s + line) == Cuts(s).(rest := Cuts(s).rest + line)
  {
    hide OneLine, Cuts;
    if line == [] {
      assert s + line == s;
      assert Cuts(s).rest + line == Cuts(s).rest;
    } else {
      var l, b := line[..|line| - 1], line[|line| - 1];
      SplitLast(line);
      OneLineSnoc(l, b);
      CutsLine(s, l);
      CutsSnoc(s + l, b);
      Assoc(s, l, [b]);
      Assoc(Cuts(s).rest, l, [b]);
    }
  }

  /** The parts are the only newline-free ones that print to the stream. */
  lemma {:induction false} PrintedCutsBack(lines: seq<Line>, rest: Line)
    requires OneLine(rest) && forall l :: l in lines ==> OneLine(l)
    ensures Cuts(Printed(lines) + rest) == Cut(lines, rest)
  {
    if lines != [] {
      var init, l := lines[..|lines| - 1], lines[|lines| - 1];
      PrintedCutsBack(init, l);
      var s := Printed(init) + l;
      assert (s + [NEWLINE])[..|s|] == s;
      assert Printed(lines) == s + [NEWLINE];
      assert lines == init + [l];
    }
    CutsLine(Printed(lines), rest);
    assert [] + rest == rest;
  }

  // ---- chunking does not matter -----------------------------------------------------

  /** Later bytes only continue the unfinished line. */
  lemma {:induction false} CutsAppend(a: seq<Byte>, b: seq<Byte>)
    ensures Cuts(a + b) == Cut(Cuts(a).done + Cuts(Cuts(a).rest + b).done, Cuts(Cuts(a).rest + b).rest)
  {
    hide Cuts, OneLine;
    var rest := Cuts(a).rest;
    if b == [] {
      assert a + b == a && rest + b == rest && [] + rest == rest;
      CutsPrintBack(a);
      CutsNothing();
      CutsLine([], rest);
    } else {
      var init, x := b[..|b| - 1], b[|b| - 1];
      SplitLast(b);
      CutsAppend(a, init);
      CutsSnoc(a + init, x);
      CutsSnoc(rest + init, x);
      Assoc(a, init, [x]);
      Assoc(rest, init, [x]);
      var d := Cuts(rest + init);
      Assoc(Cuts(a).done, d.done, [d.rest]);
    }
  }

  lemma CutsNothing()
    ensures Cuts([]) == Cut([], [])
  {
  }

  lemma CutsSnoc(s: seq<Byte>, b: Byte)
    ensures Cuts(s + [b]) == Push(Cuts(s), b)
  {
    assert (s + [b])[..|s|] == s;
  }

  lemma {:induction false} NonEmptyAppend(a: seq<Line>, b: seq<Line>)
    ensures NonEmpty(a + b) == NonEmpty(a) + NonEmpty(b)
  {
    if b == [] {
      assert a + b == a;
    } else {
      NonEmptyAppend(a, b[..|b| - 1]);
      assert (a + b)[..|a + b| - 1] == a + b[..|b| - 1];
    }
  }

  function Whole(chunks: seq<seq<Byte>>): seq<Byte> {
    if chunks == [] then [] else Whole(chunks[..|chunks| - 1]) + chunks[|chunks| - 1]
  }

  /** The unfinished line never shrinks: it is finished or extended. */
  lemma {:induction false} RestGrows(line: Line, b: seq<Byte>)
    requires OneLine(line)
    ensures var c := Cuts(line + b);
            if c.done == [] then |c.rest| >= |line| else |c.done[0]| >= |line|
  {
    if b == [] {
      assert line + b == line && [] + line == line;
      CutsLine([], line);
    } else {
      RestGrows(line, b[..|b| - 1]);
      assert (line + b)[..|line + b| - 1] == line + b[..|b| - 1];
    }
  }

  lemma LongStaysLong(s: seq<Byte>, data: seq<Byte>)
    ensures TooLong(Cuts(s + data)) <==>
            TooLong(Cuts(s)) || TooLong(Cuts(Cuts(s).rest + data))
  {
    CutsAppend(s, data);
    CutsPrintBack(s);
    RestGrows(Cuts(s).rest, data);
    hide Cuts;
    var a, c := Cuts(s), Cuts(Cuts(s).rest + data);
    var both := a.done + c.done;
    assert forall i :: 0 <= i < |a.done| ==> both[i] == a.done[i];
    assert forall i :: 0 <= i < |c.done| ==> both[|a.done| + i] == c.done[i];
  }

  /** Any way of cutting a byte stream into reads yields the non-empty complete lines of the whole
      stream and keeps its unfinished last line; a read fails exactly when some line of the whole
      stream, finished or not, is too long. */
  lemma {:induction false} ChunkingDoesNotMatter(chunks: seq<seq<Byte>>)
    ensures var c := Cuts(Whole(chunks));
            Received(chunks) == if TooLong(c) then Failed else Open(c.rest, NonEmpty(c.done))
  {
    if chunks != [] {
      var m := |chunks| - 1;
      ChunkingDoesNotMatter(chunks[..m]);
      var before, data := Whole(chunks[..m]), chunks[m];
      LongStaysLong(before, data);
      CutsAppend(before, data);
      NonEmptyAppend(Cuts(before).done, Cuts(Cuts(before).rest + data).done);
    }
  }

  // ---- printed frames ------------------------------------------------------------------

  predicate Printable(frames: seq<Line>) {
    forall i | 0 <= i < |frames| :: frames[i] != [] && OneLine(frames[i]) && |frames[i]| <= MAX_LINE
  }

  lemma {:induction false} NonEmptyKeeps(frames: seq<Line>)
    requires forall i | 0 <= i < |frames| :: frames[i] != []
    ensures NonEmpty(frames) == frames
  {
    if frames != [] {
      NonEmptyKeeps(frames[..|frames| - 1]);
    }
  }

  /** Printed frames come back in order from any chunking of the stream. */
  lemma FramesComeBack(frames: seq<Line>, chunks: seq<seq<Byte>>)
    requires Printable(frames) && Whole(chunks) == Printed(frames)
    ensures Received(chunks) == Open([], frames)
  {
    PrintedCutsBack(frames, []);
    assert Printed(frames) + [] == Printed(frames);
    ChunkingDoesNotMatter(chunks);
    NonEmptyKeeps(frames);
  }
}
