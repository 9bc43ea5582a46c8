/** The daemon's log ring and the writer that feeds it (`log_ring.rs`): a
    bounded window of lines, cut from a byte stream whose chunking must not
    matter. */
module LogRing {
  import opened Basics

  const RING_CAPACITY: nat := 4096

  type Line = (nat, string)

  function Texts(lines: seq<Line>): seq<string> {
    seq(|lines|, i requires 0 <= i < |lines| => lines[i].1)
  }

  /** Lines not older than `since`, oldest first. */
  function Since(lines: seq<Line>, since: nat): seq<Line> {
    if lines == [] then []
    else Since(lines[..|lines| - 1], since) + if lines[|lines| - 1].0 >= since then [lines[|lines| - 1]] else []
  }

  /** Exactly the lines that are not older, and in their order. */
  lemma {:induction false} SinceAre(lines: seq<Line>, since: nat)
    ensures forall l: Line :: multiset(Since(lines, since))[l] == if l.0 >= since then multiset(lines)[l] else 0
  {
    if lines != [] {
      SinceAre(lines[..|lines| - 1], since);
      assert lines == lines[..|lines| - 1] + [lines[|lines| - 1]];
    }
  }

  lemma {:induction false} SinceConcat(a: seq<Line>, b: seq<Line>, since: nat)
    ensures Since(a + b, since) == Since(a, since) + Since(b, since)
  {
    if b == [] {
      assert a + b == a;
    } else {
      SinceConcat(a, b[..|b| - 1], since);
      assert (a + b)[..|a + b| - 1] == a + b[..|b| - 1];
    }
  }

  class Ring {
    var buf: seq<Line>
    /** Lines handed to the broadcast channel. */
    var sent: seq<string>
    ghost var pushed: seq<Line>

    ghost predicate Valid()
      reads this
    {
      buf == Window(pushed, RING_CAPACITY) && sent == Texts(pushed)
    }

    constructor ()
      ensures Valid() && pushed == []
    {
      buf, sent, pushed := [], [], [];
    }

    method Push(ts: nat, line: string)
      requires Valid()
      modifies this
      ensures Valid() && pushed == old(pushed) + [(ts, line)] && sent == old(sent) + [line]
      ensures |buf| == Min(|pushed|, 4096) && buf <= pushed[|pushed| - |buf|..]
    {
      WindowPush(pushed, (ts, line), RING_CAPACITY);
      if |buf| == RING_CAPACITY { buf := buf[1..]; }
      sent := sent + [line];
      buf := buf + [(ts, line)];
      pushed := pushed + [(ts, line)];
    }

    method Snapshot(since: nat) returns (lines: seq<Line>)
      requires Valid()
      ensures lines == Since(Window(pushed, RING_CAPACITY), since)
      ensures forall l: Line :: multiset(lines)[l] == if l.0 >= since then multiset(buf)[l] else 0
    {
      SinceAre(buf, since);
      lines := [];
      for k := 0 to |buf|
        invariant lines == Since(buf[..k], since)
      {
        assert buf[..k + 1][..k] == buf[..k];
        if buf[k].0 >= since { lines := lines + [buf[k]]; }
      }
      assert buf[..|buf|] == buf;
    }
  }

  // ----- cutting text into lines -----

  datatype Cut = Cut(lines: seq<string>, tail: string)

  /** Character by character: a newline completes the pending line. */
  function Feed(c: Cut, text: string): Cut {
    if text == [] then c
    else
      var p, last := Feed(c, text[..|text| - 1]), text[|text| - 1];
      if last == '\n' then Cut(p.lines + [p.tail + [last]], "") else Cut(p.lines, p.tail + [last])
  }

  function CutText(text: string): Cut { Feed(Cut([], ""), text) }

  lemma {:induction false} FeedConcat(c: Cut, a: string, b: string)
    ensures Feed(c, a + b) == Feed(Feed(c, a), b)
  {
    if b == [] {
      assert a + b == a;
    } else {
      var n := |b| - 1;
      assert (a + b)[..|a + b| - 1] == a + b[..n];
      FeedConcat(c, a, b[..n]);
    }
  }

  ghost predicate NoNewline(text: string) {
    forall k :: 0 <= k < |text| ==> text[k] != '\n'
  }

  lemma {:induction false} FeedNoNewline(c: Cut, text: string)
    requires NoNewline(text)
    ensures Feed(c, text) == Cut(c.lines, c.tail + text)
  {
    if text == [] {
      assert c.tail + text == c.tail;
    } else {
      var n := |text| - 1;
      FeedNoNewline(c, text[..n]);
      assert c.tail + text == c.tail + text[..n] + [text[n]];
    }
  }

  lemma NoMoreLines(lines: seq<string>, rest: string)
    requires NoNewline(rest)
    ensures Feed(Cut(lines, ""), rest) == Cut(lines, rest)
  {
    FeedNoNewline(Cut(lines, ""), rest);
    assert "" + rest == rest;
  }

  lemma Resume(pending: string, data: string)
    requires NoNewline(pending)
    ensures CutText(pending + data) == Feed(Cut([], pending), data)
  {
    FeedConcat(Cut([], ""), pending, data);
    NoMoreLines([], pending);
  }

  /** A line ends at its only newline. */
  ghost predicate IsLine(l: string) {
    |l| > 0 && l[|l| - 1] == '\n' && NoNewline(l[..|l| - 1])
  }

  lemma FeedLine(lines: seq<string>, line: string, rest: string)
    requires IsLine(line)
    ensures Feed(Cut(lines, ""), line + rest) == Feed(Cut(lines + [line], ""), rest)
  {
    var n := |line| - 1;
    FeedConcat(Cut(lines, ""), line, rest);
    FeedNoNewline(Cut(lines, ""), line[..n]);
    assert "" + line[..n] + [line[n]] == line;
  }

  function Join(parts: seq<string>): string {
    if parts == [] then "" else Join(parts[..|parts| - 1]) + parts[|parts| - 1]
  }

  lemma JoinAppend(parts: seq<string>, last: string)
    ensures Join(parts + [last]) == Join(parts) + last
  {
    assert (parts + [last])[..|parts|] == parts;
  }

  ghost predicate Partitions(c: Cut, text: string) {
    && Join(c.lines) + c.tail == text && NoNewline(c.tail)
    && forall k :: 0 <= k < |c.lines| ==> IsLine(c.lines[k])
  }

  lemma LineCompleted(c: Cut, text: string)
    requires Partitions(c, text)
    ensures Partitions(Cut(c.lines + [c.tail + "\n"], ""), text + "\n")
  {
    var line := c.tail + "\n";
    JoinAppend(c.lines, line);
    assert line[..|line| - 1] == c.tail;
    assert Join(c.lines) + line + "" == (Join(c.lines) + c.tail) + "\n";
  }

  /** Nothing is lost or reordered, every line ends at its only newline, and
      the tail has none. */
  lemma {:induction false} LinesPartition(text: string)
    ensures Partitions(CutText(text), text)
  {
    if text != [] {
      var n := |text| - 1;
      LinesPartition(text[..n]);
      var p := CutText(text[..n]);
      if text[n] == '\n' {
        LineCompleted(p, text[..n]);
        assert text == text[..n] + "\n";
      } else {
        assert text == text[..n] + [text[n]];
        assert Join(p.lines) + (p.tail + [text[n]]) == (Join(p.lines) + p.tail) + [text[n]];
      }
    }
  }

  predicate Blank(line: string) {
    forall i :: 0 <= i < |line| ==> IsSpace(line[i])
  }

  function NonBlank(lines: seq<string>): seq<string> {
    if lines == [] then []
    else NonBlank(lines[..|lines| - 1]) + if Blank(lines[|lines| - 1]) then [] else [lines[|lines| - 1]]
  }

  /** Exactly the lines with a character that is no space are kept. */
  lemma {:induction false} NonBlankAre(lines: seq<string>)
    ensures forall l: string :: multiset(NonBlank(lines))[l]
              == if exists i :: 0 <= i < |l| && !IsSpace(l[i]) then multiset(lines)[l] else 0
  {
    if lines != [] {
      NonBlankAre(lines[..|lines| - 1]);
      assert lines == lines[..|lines| - 1] + [lines[|lines| - 1]];
    }
  }

  lemma NonBlankAppend(lines: seq<string>, line: string)
    ensures NonBlank(lines + [line]) == NonBlank(lines) + if Blank(line) then [] else [line]
  {
    assert (lines + [line])[..|lines|] == lines;
  }

  lemma {:induction false} NonBlankConcat(a: seq<string>, b: seq<string>)
    ensures NonBlank(a + b) == NonBlank(a) + NonBlank(b)
  {
    if b == [] {
      assert a + b == a;
    } else {
      var n := |b| - 1;
      assert (a + b)[..|a + b| - 1] == a + b[..n];
      NonBlankConcat(a, b[..n]);
    }
  }

  /** Lines as they go into the ring: the k-th is stamped by the k-th look at
      the clock. */
  function Stamped(lines: seq<string>, now: nat -> nat): seq<Line> {
    seq(|lines|, k requires 0 <= k < |lines| => (now(k), lines[k]))
  }

  // ----- the writer -----

  /** Index of the first newline, or the length when there is none. */
  method FindNewline(text: string) returns (i: nat)
    ensures i <= |text| && NoNewline(text[..i]) && (i < |text| ==> text[i] == '\n')
  {
    i := 0;
    while i < |text| && text[i] != '\n'
      invariant i <= |text| && NoNewline(text[..i])
    {
      i := i + 1;
    }
  }

  class RingWriter {
    const ring: Ring
    var buf: string

    ghost predicate Valid()
      reads this, ring
    {
      ring.Valid() && NoNewline(buf)
    }

    constructor (ring: Ring)
      requires ring.Valid()
      ensures Valid() && this.ring == ring && buf == ""
    {
      this.ring := ring;
      buf := "";
    }

    /** `write`, on decoded text: completed non-blank lines go to the ring as
        soon as their newline is there. */
    method Write(data: string, now: nat -> nat) returns (written: nat)
      requires Valid()
      modifies this, ring
      ensures Valid() && written == |data|
      ensures var c := Feed(Cut([], old(buf)), data);
              buf == c.tail && ring.pushed == old(ring.pushed) + Stamped(NonBlank(c.lines), now)
    {
      ghost var before, text, lines := ring.pushed, buf + data, [];
      Resume(buf, data);
      buf := buf + data;
      var stamped := 0;
      while true
        invariant ring.Valid() && Feed(Cut(lines, ""), buf) == CutText(text)
        invariant stamped == |NonBlank(lines)| && ring.pushed == before + Stamped(NonBlank(lines), now)
        decreases |buf|
      {
        var i := FindNewline(buf);
        if i == |buf| {
          assert buf[..i] == buf;
          NoMoreLines(lines, buf);
          return |data|;
        }
        var line, rest := buf[..i + 1], buf[i + 1..];
        assert line[..i] == buf[..i] && buf == line + rest;
        FeedLine(lines, line, rest);
        stamped := PushUnlessBlank(line, now, stamped, before, lines);
        lines := lines + [line];
        buf := rest;
      }
    }

    method PushUnlessBlank(line: string, now: nat -> nat, stamped: nat, ghost before: seq<Line>, ghost lines: seq<string>)
      returns (count: nat)
      requires ring.Valid()
      requires stamped == |NonBlank(lines)| && ring.pushed == before + Stamped(NonBlank(lines), now)
      modifies ring
      ensures ring.Valid()
      ensures count == |NonBlank(lines + [line])| && ring.pushed == before + Stamped(NonBlank(lines + [line]), now)
    {
      NonBlankAppend(lines, line);
      count := stamped;
      if !Blank(line) {
        ring.Push(now(stamped), line);
        count := stamped + 1;
      }
    }

    /** `flush` pushes an unfinished line as it is, blank or not. */
    method Flush(now: nat)
      requires Valid()
      modifies this, ring
      ensures Valid() && buf == ""
      ensures ring.pushed == old(ring.pushed) + if old(buf) == "" then [] else [(now, old(buf))]
    {
      if buf != "" {
        ring.Push(now, buf);
        buf := "";
      }
    }
  }

  // ----- chunking -----

  /** The writer without its ring: lines pushed so far, and the pending text. */
  datatype Pending = Pending(pushed: seq<string>, buf: string)

  function AfterWrite(p: Pending, data: string): Pending {
    var c := Feed(Cut([], p.buf), data);
    Pending(p.pushed + NonBlank(c.lines), c.tail)
  }

  function AfterWrites(chunks: seq<string>): Pending {
    if chunks == [] then Pending([], "") else AfterWrite(AfterWrites(chunks[..|chunks| - 1]), chunks[|chunks| - 1])
  }

  lemma {:induction false} FeedFrom(lines: seq<string>, tail: string, text: string)
    ensures Feed(Cut(lines, tail), text) == Cut(lines + Feed(Cut([], tail), text).lines, Feed(Cut([], tail), text).tail)
  {
    if text == [] {
      assert lines + [] == lines;
    } else {
      FeedFrom(lines, tail, text[..|text| - 1]);
    }
  }

  /** Chunking independence: however a text is split into writes, the ring gets
      the non-blank complete lines of the whole text, in order, and the writer
      keeps what follows the last newline. */
  lemma {:induction false} ChunkingIndependence(chunks: seq<string>)
    ensures AfterWrites(chunks) == Pending(NonBlank(CutText(Join(chunks)).lines), CutText(Join(chunks)).tail)
  {
    if chunks != [] {
      var n := |chunks| - 1;
      ChunkingIndependence(chunks[..n]);
      var before := CutText(Join(chunks[..n]));
      FeedConcat(Cut([], ""), Join(chunks[..n]), chunks[n]);
      FeedFrom(before.lines, before.tail, chunks[n]);
      NonBlankConcat(before.lines, Feed(Cut([], before.tail), chunks[n]).lines);
    }
  }
}
