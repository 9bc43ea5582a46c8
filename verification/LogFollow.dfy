/** Follow mode of `stream_daemon_logs` as a state machine: pushes by the
    daemon interleave with the stream's snapshot, its subscription and its
    receives. Streamed lines are named by their index among all pushes. */
module LogFollow {
  import opened Basics
  import opened LogRing

  /** Capacity of the broadcast channel; a receiver further behind lags. */
  const CHANNEL_CAPACITY: nat := 1024

  datatype Phase = Fresh | Snapped | Following(next: nat)

  datatype Stream = Stream(
    pushed: seq<Line>,
    phase: Phase,
    out: seq<nat>,
    snapshotAt: nat,
    subscribedAt: nat,
    lagged: bool)

  datatype Act = Push(line: Line) | TakeSnapshot | Subscribe | Receive

  function RingStart(pushes: nat): nat { if pushes > RING_CAPACITY then pushes - RING_CAPACITY else 0 }

  /** Indices the snapshot yields: ring entries not older than `since`. */
  function SnapshotIndices(pushed: seq<Line>, since: nat, from: nat, to: nat): seq<nat>
    requires to <= |pushed|
  {
    if to <= from then []
    else SnapshotIndices(pushed, since, from, to - 1) + if pushed[to - 1].0 >= since then [to - 1] else []
  }

  /** Acts out of turn do nothing; a receiver too far behind skips to the oldest
      line the channel still holds and yields nothing. */
  function Step(s: Stream, since: nat, a: Act): Stream {
    match a
    case Push(line) => s.(pushed := s.pushed + [line])
    case TakeSnapshot =>
      if !s.phase.Fresh? then s
      else s.(phase := Snapped, snapshotAt := |s.pushed|,
              out := SnapshotIndices(s.pushed, since, RingStart(|s.pushed|), |s.pushed|))
    case Subscribe =>
      if !s.phase.Snapped? then s else s.(phase := Following(|s.pushed|), subscribedAt := |s.pushed|)
    case Receive =>
      if !s.phase.Following? || s.phase.next >= |s.pushed| then s
      else if |s.pushed| - s.phase.next > CHANNEL_CAPACITY then
        s.(phase := Following(|s.pushed| - CHANNEL_CAPACITY), lagged := true)
      else s.(phase := Following(s.phase.next + 1), out := s.out + [s.phase.next])
  }

  function Run(since: nat, acts: seq<Act>): Stream {
    if acts == [] then Stream([], Fresh, [], 0, 0, false)
    else Step(Run(since, acts[..|acts| - 1]), since, acts[|acts| - 1])
  }

  // ----- the snapshot is the ring's -----

  function LinesAt(pushed: seq<Line>, indices: seq<nat>): seq<Line>
    requires forall k :: 0 <= k < |indices| ==> indices[k] < |pushed|
  {
    seq(|indices|, k requires 0 <= k < |indices| => pushed[indices[k]])
  }

  lemma LinesAtSnoc(pushed: seq<Line>, indices: seq<nat>, last: nat)
    requires last < |pushed| && forall k :: 0 <= k < |indices| ==> indices[k] < |pushed|
    ensures LinesAt(pushed, indices + [last]) == LinesAt(pushed, indices) + [pushed[last]]
  {
  }

  lemma {:induction false} SnapshotIndicesSound(pushed: seq<Line>, since: nat, from: nat, to: nat)
    requires to <= |pushed|
    ensures var r := SnapshotIndices(pushed, since, from, to);
            (forall k :: 0 <= k < |r| ==> from <= r[k] < to) && Ascending(r)
  {
    if from < to { SnapshotIndicesSound(pushed, since, from, to - 1); }
  }

  /** The indices name exactly the lines `snapshot` returns from a ring that has
      seen these pushes. */
  lemma {:induction false} SnapshotIsTheRings(pushed: seq<Line>, since: nat, from: nat, to: nat)
    requires from <= to <= |pushed|
    ensures forall k :: 0 <= k < |SnapshotIndices(pushed, since, from, to)| ==> SnapshotIndices(pushed, since, from, to)[k] < |pushed|
    ensures LinesAt(pushed, SnapshotIndices(pushed, since, from, to)) == Since(pushed[from..to], since)
  {
    SnapshotIndicesSound(pushed, since, from, to);
    if from < to {
      var part, earlier := pushed[from..to], SnapshotIndices(pushed, since, from, to - 1);
      SnapshotIsTheRings(pushed, since, from, to - 1);
      assert part[..|part| - 1] == pushed[from..to - 1];
      if pushed[to - 1].0 >= since { LinesAtSnoc(pushed, earlier, to - 1); }
    }
  }

  // ----- every interleaving -----

  ghost predicate Ascending(out: seq<nat>) {
    forall i, j :: 0 <= i < j < |out| ==> out[i] < out[j]
  }

  /** Everything that was streamed lies below this index. */
  function Frontier(s: Stream): nat {
    match s.phase
    case Fresh => 0
    case Snapped => s.snapshotAt
    case Following(next) => next
  }

  ghost predicate Orderly(s: Stream) {
    && Ascending(s.out) && (forall k :: 0 <= k < |s.out| ==> s.out[k] < Frontier(s))
    && Frontier(s) <= |s.pushed|
    && (s.phase.Fresh? ==> s.out == [] && !s.lagged)
    && (s.phase.Snapped? ==> !s.lagged)
    && (s.phase.Following? ==> s.snapshotAt <= s.subscribedAt <= s.phase.next)
  }

  /** Under every interleaving the streamed lines are pushed lines in push
      order, none twice. */
  lemma {:induction false} StreamIsOrderly(since: nat, acts: seq<Act>)
    ensures Orderly(Run(since, acts))
  {
    if acts != [] {
      StreamIsOrderly(since, acts[..|acts| - 1]);
      var s := Run(since, acts[..|acts| - 1]);
      if acts[|acts| - 1].TakeSnapshot? && s.phase.Fresh? {
        SnapshotIndicesSound(s.pushed, since, RingStart(|s.pushed|), |s.pushed|);
      }
    }
  }

  /** A receive with something to receive moves on: it yields the next line, or,
      when that is no longer in the channel, goes to the oldest one that is. */
  lemma ReceiveMovesOn(s: Stream, since: nat)
    requires s.phase.Following? && s.phase.next < |s.pushed|
    ensures var n := Step(s, since, Receive);
            && n.phase.Following? && n.pushed == s.pushed
            && (|s.pushed| - s.phase.next <= 1024 ==> n.out == s.out + [s.phase.next] && n.phase.next == s.phase.next + 1)
            && (|s.pushed| - s.phase.next > 1024 ==> n.out == s.out && n.phase.next == |s.pushed| - 1024 && n.lagged)
  {}

  /** Whatever a subscribed reader missed had left the channel: no line that is
      among the last 1024 pushed is ever skipped. */
  lemma {:induction false} OnlyOverwrittenIsSkipped(since: nat, acts: seq<Act>, i: nat)
    ensures var s := Run(since, acts);
            s.phase.Following? && s.subscribedAt <= i < s.phase.next && i !in s.out ==> i + 1024 < |s.pushed|
  {
    if acts != [] {
      var before := Run(since, acts[..|acts| - 1]);
      OnlyOverwrittenIsSkipped(since, acts[..|acts| - 1], i);
      if acts[|acts| - 1].Receive? && before.phase.Following? && before.phase.next < |before.pushed| {
        ReceiveMovesOn(before, since);
        assert before.phase.next in before.out + [before.phase.next];
        assert forall x :: x in before.out ==> x in before.out + [before.phase.next];
      }
    }
  }

  /** The first `n` entries of the stream are the ring as the snapshot found it,
      filtered by time; everything after was pushed after the subscription. */
  ghost predicate StartsWithTheSnapshot(s: Stream, since: nat, n: nat) {
    && n <= |s.out| && s.snapshotAt <= |s.pushed|
    && (forall k :: 0 <= k < n ==> s.out[k] < |s.pushed|)
    && LinesAt(s.pushed, s.out[..n]) == Since(Window(s.pushed[..s.snapshotAt], RING_CAPACITY), since)
    && (s.phase.Snapped? ==> n == |s.out|)
    && (s.phase.Following? ==> forall k :: n <= k < |s.out| ==> s.out[k] >= s.subscribedAt)
  }

  lemma {:induction false} SnapshotComesFirst(since: nat, acts: seq<Act>) returns (n: nat)
    ensures var s := Run(since, acts); !s.phase.Fresh? ==> StartsWithTheSnapshot(s, since, n)
  {
    n := 0;
    if acts != [] {
      var before, a := Run(since, acts[..|acts| - 1]), acts[|acts| - 1];
      n := SnapshotComesFirst(since, acts[..|acts| - 1]);
      StreamIsOrderly(since, acts[..|acts| - 1]);
      if a.TakeSnapshot? && before.phase.Fresh? {
        var taken := Step(before, since, a);
        n := |taken.out|;
        SnapshotAtStart(before.pushed, since);
        assert taken.out[..n] == taken.out && before.pushed[..|before.pushed|] == before.pushed;
      } else if !before.phase.Fresh? {
        SnapshotStays(before, Step(before, since, a), since, n);
      }
    }
  }

  lemma SnapshotAtStart(pushed: seq<Line>, since: nat)
    ensures var indices := SnapshotIndices(pushed, since, RingStart(|pushed|), |pushed|);
            && (forall k :: 0 <= k < |indices| ==> indices[k] < |pushed|)
            && LinesAt(pushed, indices) == Since(Window(pushed, RING_CAPACITY), since)
  {
    SnapshotIsTheRings(pushed, since, RingStart(|pushed|), |pushed|);
    assert pushed[RingStart(|pushed|)..|pushed|] == Window(pushed, RING_CAPACITY);
  }

  lemma SnapshotStays(s: Stream, t: Stream, since: nat, n: nat)
    requires Orderly(s) && !s.phase.Fresh? && StartsWithTheSnapshot(s, since, n)
    requires s.out <= t.out && s.pushed <= t.pushed && t.snapshotAt == s.snapshotAt && !t.phase.Fresh?
    requires t.phase.Snapped? ==> s.phase.Snapped? && t.out == s.out
    requires t.phase.Following? ==>
               (s.phase.Snapped? && t.out == s.out) ||
               (s.phase.Following? && t.subscribedAt == s.subscribedAt && forall k :: |s.out| <= k < |t.out| ==> t.out[k] >= s.subscribedAt)
    ensures StartsWithTheSnapshot(t, since, n)
  {
    assert t.out[..n] == s.out[..n] && t.pushed[..s.snapshotAt] == s.pushed[..s.snapshotAt];
    assert LinesAt(t.pushed, t.out[..n]) == LinesAt(s.pushed, s.out[..n]);
  }

  /** With `since` 0 every index from the start of the ring is streamed up to
      the frontier, unless a push fell into the gap before the subscription or
      the receiver lagged. */
  ghost predicate Gapless(s: Stream) {
    var start := RingStart(s.snapshotAt);
    && start <= Frontier(s) && |s.out| == Frontier(s) - start
    && forall k :: 0 <= k < |s.out| ==> s.out[k] == start + k
  }

  ghost predicate Undisturbed(s: Stream) {
    s.phase.Following? ==> !s.lagged && s.subscribedAt == s.snapshotAt
  }

  lemma {:induction false} SnapshotOfAll(pushed: seq<Line>, from: nat, to: nat)
    requires from <= to <= |pushed|
    ensures var r := SnapshotIndices(pushed, 0, from, to);
            |r| == to - from && forall k :: 0 <= k < |r| ==> r[k] == from + k
  {
    if from < to { SnapshotOfAll(pushed, from, to - 1); }
  }

  /** A missing index stays missing. */
  ghost predicate Missing(s: Stream, i: nat) {
    RingStart(s.snapshotAt) <= i < Frontier(s) && i !in s.out
  }

  /** Completeness, exactly: with `since` 0 the stream has yielded every line
      from the start of the ring to its frontier if and only if no push fell
      between snapshot and subscription and it never lagged. */
  lemma {:induction false} StreamIsCompleteIff(acts: seq<Act>)
    ensures var s := Run(0, acts);
            && (Undisturbed(s) ==> !s.phase.Fresh? ==> Gapless(s))
            && (!Undisturbed(s) ==> exists i: nat :: Missing(s, i))
  {
    if acts != [] {
      var before, a := Run(0, acts[..|acts| - 1]), acts[|acts| - 1];
      StreamIsCompleteIff(acts[..|acts| - 1]);
      StreamIsOrderly(0, acts[..|acts| - 1]);
      var s := Step(before, 0, a);
      if a.TakeSnapshot? && before.phase.Fresh? {
        SnapshotOfAll(before.pushed, RingStart(|before.pushed|), |before.pushed|);
      } else if a.Subscribe? && before.phase.Snapped? {
        if |before.pushed| > before.snapshotAt {
          assert Missing(s, before.snapshotAt);
        }
      } else if a.Receive? && before.phase.Following? {
        if !Undisturbed(before) {
          var i: nat :| Missing(before, i);
          assert Missing(s, i);
        } else if !Undisturbed(s) {
          assert Missing(s, before.phase.next);
        }
      } else if !Undisturbed(before) {
        var i: nat :| Missing(before, i);
        assert Missing(s, i);
      }
    }
  }

  /** A reader that caught up on an undisturbed stream has seen the ring as it
      was at the snapshot and every line pushed since. */
  lemma CaughtUpSeesEverything(acts: seq<Act>)
    requires var s := Run(0, acts);
             s.phase.Following? && Undisturbed(s) && s.phase.next == |s.pushed|
    ensures var s := Run(0, acts);
            && s.snapshotAt <= |s.pushed| && (forall k :: 0 <= k < |s.out| ==> s.out[k] < |s.pushed|)
            && LinesAt(s.pushed, s.out) == Window(s.pushed[..s.snapshotAt], RING_CAPACITY) + s.pushed[s.snapshotAt..]
  {
    StreamIsCompleteIff(acts);
    StreamIsOrderly(0, acts);
  }
}
