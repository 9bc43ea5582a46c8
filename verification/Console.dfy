/** The console relay `pump_console` of `connect.rs`: one loop over poll results
    that copies the serial line to the terminal and typed bytes to the guest
    until the detach key. */
module Console {
  import opened Basics

  const DETACH: Byte := 0x1d
  const BUFFER: nat := 4096

  /** How many bytes a ready descriptor gives to one read (0 is end of file). */
  datatype Ready = Quiet | Gives(n: nat) | Fails

  /** One round of `poll`; a write that fails delivers only some of its bytes. */
  datatype Poll = Poll(
    signalled: bool,
    failed: bool,
    interrupted: bool,
    serial: Ready,
    stdin: Ready,
    shown: Option<nat>,
    delivered: Option<nat>)

  datatype Outcome = Attached | ByKey | SerialClosed | BySignal | Failed

  ghost predicate NoKey(bytes: seq<Byte>) {
    forall i :: 0 <= i < |bytes| ==> bytes[i] != DETACH
  }

  /** `detach_at`. */
  method DetachAt(bytes: seq<Byte>) returns (at: Option<nat>)
    ensures at.None? <==> NoKey(bytes)
    ensures at.Some? ==> at.value < |bytes| && bytes[at.value] == DETACH && NoKey(bytes[..at.value])
  {
    for i := 0 to |bytes|
      invariant NoKey(bytes[..i])
    {
      if bytes[i] == DETACH { return Some(i); }
    }
    return None;
  }

  /** What may reach the guest: everything before the first detach key. */
  function BeforeDetach(bytes: seq<Byte>): seq<Byte> {
    if bytes == [] || bytes[0] == DETACH then [] else [bytes[0]] + BeforeDetach(bytes[1..])
  }

  lemma {:induction false} BeforeDetachIs(bytes: seq<Byte>, i: nat)
    requires i <= |bytes| && NoKey(bytes[..i]) && (i < |bytes| ==> bytes[i] == DETACH)
    ensures BeforeDetach(bytes) == bytes[..i]
  {
    if i > 0 {
      assert bytes[0] == bytes[..i][0];
      assert bytes[1..][..i - 1] == bytes[..i][1..];
      BeforeDetachIs(bytes[1..], i - 1);
      assert bytes[..i] == [bytes[0]] + bytes[1..][..i - 1];
    }
  }

  function Take(stream: seq<Byte>, from: nat, n: nat): seq<Byte>
    requires from <= |stream|
  {
    stream[from..from + Min(Min(n, BUFFER), |stream| - from)]
  }

  /** How much of the serial line a number of uneventful polls reads. */
  function SerialTaken(length: nat, polls: seq<Poll>): (n: nat)
    ensures n <= length
  {
    if polls == [] then 0 else SerialStep(length, SerialTaken(length, polls[..|polls| - 1]), polls[|polls| - 1])
  }

  function SerialStep(length: nat, s: nat, p: Poll): (n: nat)
    requires s <= length
    ensures s <= n <= length
  {
    if p.signalled || p.failed || !p.serial.Gives? then s else s + Min(Min(p.serial.n, BUFFER), length - s)
  }

  datatype Input = Input(taken: nat, open: bool)

  /** The same for typed bytes; end of file closes this direction only. */
  function TypedTaken(length: nat, polls: seq<Poll>): (i: Input)
    ensures i.taken <= length
  {
    if polls == [] then Input(0, true) else TypedStep(length, TypedTaken(length, polls[..|polls| - 1]), polls[|polls| - 1])
  }

  function TypedStep(length: nat, i: Input, p: Poll): (n: Input)
    requires i.taken <= length
    ensures i.taken <= n.taken <= length
  {
    if p.signalled || p.failed || !i.open || !p.stdin.Gives? then i
    else
      var n := Min(Min(p.stdin.n, BUFFER), length - i.taken);
      Input(i.taken + n, n > 0)
  }

  /** Bytes of the serial line that a number of polls offered to a read. */
  function SerialOffered(polls: seq<Poll>): nat {
    if polls == [] then 0
    else
      var p := polls[|polls| - 1];
      SerialOffered(polls[..|polls| - 1]) + if !p.signalled && !p.failed && p.serial.Gives? then Min(p.serial.n, BUFFER) else 0
  }

  /** Everything offered is read, as far as there is anything. */
  lemma {:induction false} ReadsAllOffered(length: nat, polls: seq<Poll>)
    ensures SerialTaken(length, polls) == Min(length, SerialOffered(polls))
  {
    if polls != [] { ReadsAllOffered(length, polls[..|polls| - 1]); }
  }

  /** Typed bytes offered before the end of file. */
  function TypedOffered(polls: seq<Poll>): nat {
    if polls == [] then 0
    else
      var before, p := polls[..|polls| - 1], polls[|polls| - 1];
      TypedOffered(before)
      + if !p.signalled && !p.failed && p.stdin.Gives? && !EofOffered(before) then Min(p.stdin.n, BUFFER) else 0
  }

  predicate EofOffered(polls: seq<Poll>) {
    exists k :: 0 <= k < |polls| && !polls[k].signalled && !polls[k].failed && polls[k].stdin == Gives(0)
  }

  /** Typed bytes are read as offered, up to the end of file; while the input is
      open no read has met it. */
  lemma {:induction false} TypesAllOffered(length: nat, polls: seq<Poll>)
    ensures TypedTaken(length, polls).taken == Min(length, TypedOffered(polls))
    ensures TypedTaken(length, polls).open ==> !EofOffered(polls)
    ensures !TypedTaken(length, polls).open ==> EofOffered(polls) || TypedTaken(length, polls).taken == length
  {
    if polls != [] {
      var n := |polls| - 1;
      TypesAllOffered(length, polls[..n]);
      assert EofOffered(polls) <==>
        EofOffered(polls[..n]) || (!polls[n].signalled && !polls[n].failed && polls[n].stdin == Gives(0)) by
      {
        if EofOffered(polls[..n]) {
          var k :| 0 <= k < n && !polls[..n][k].signalled && !polls[..n][k].failed && polls[..n][k].stdin == Gives(0);
          assert polls[k] == polls[..n][k];
        }
        if EofOffered(polls) {
          var k :| 0 <= k < |polls| && !polls[k].signalled && !polls[k].failed && polls[k].stdin == Gives(0);
          if k < n { assert polls[..n][k] == polls[k]; }
        }
      }
    }
  }

  // ----- what a poll does to the session -----

  predicate PollFails(p: Poll) { !p.signalled && p.failed && !p.interrupted }

  /** The serial line is ready and has no byte left to give. */
  predicate SerialEnds(length: nat, s: nat, p: Poll) {
    !p.signalled && !p.failed && p.serial.Gives? && (p.serial.n == 0 || s == length)
  }

  predicate SerialFails(length: nat, s: nat, p: Poll) {
    !p.signalled && !p.failed && (p.serial.Fails? || (p.serial.Gives? && p.serial.n > 0 && s < length && p.shown.Some?))
  }

  predicate StdinFails(length: nat, i: Input, p: Poll) {
    !p.signalled && !p.failed && i.open && (p.stdin.Fails? || (p.stdin.Gives? && p.stdin.n > 0 && i.taken < length && p.delivered.Some?))
  }

  /** The serial turn of poll `k` ends the session. */
  ghost predicate EndsAtSerial(serial: seq<Byte>, polls: seq<Poll>, k: nat)
    requires k < |polls|
  {
    var s := SerialTaken(|serial|, polls[..k]);
    SerialEnds(|serial|, s, polls[k]) || SerialFails(|serial|, s, polls[k])
  }

  /** Poll `k` ends the session, by a signal, a failure or the end of the line
      (the detach key aside). */
  ghost predicate EndsAt(typed: seq<Byte>, serial: seq<Byte>, polls: seq<Poll>, k: nat)
    requires k < |polls|
  {
    || polls[k].signalled || PollFails(polls[k]) || EndsAtSerial(serial, polls, k)
    || StdinFails(|typed|, TypedTaken(|typed|, polls[..k]), polls[k])
  }

  datatype Relay = Relay(outcome: Outcome, toGuest: seq<Byte>, toTerminal: seq<Byte>, typedRead: nat, serialRead: nat)

  ghost predicate IsPrefix(a: seq<Byte>, b: seq<Byte>) {
    |a| <= |b| && a == b[..|a|]
  }

  /** The relay's promise after any number of polls. While nothing failed, the
      terminal got every serial byte read, once and in order, and the guest got
      exactly the typed bytes read before the first detach key; when a write
      fails, what got through is a prefix of that. */
  ghost predicate Faithful(r: Relay, typed: seq<Byte>, serial: seq<Byte>) {
    && r.typedRead <= |typed| && r.serialRead <= |serial|
    && IsPrefix(r.toGuest, BeforeDetach(typed[..r.typedRead])) && IsPrefix(r.toTerminal, serial[..r.serialRead])
    && (r.outcome != Failed ==> r.toTerminal == serial[..r.serialRead])
    && (r.outcome != Failed ==> r.toGuest == BeforeDetach(typed[..r.typedRead]))
    && (r.outcome == ByKey <==> r.outcome != Failed && !NoKey(typed[..r.typedRead]))
    && (r.outcome == ByKey ==> r.toGuest == BeforeDetach(typed))
  }

  /** While the session goes on: all that was read has been passed on. */
  ghost predicate Live(typed: seq<Byte>, serial: seq<Byte>, t: nat, s: nat, toGuest: seq<Byte>, toTerminal: seq<Byte>) {
    && t <= |typed| && s <= |serial| && toTerminal == serial[..s]
    && NoKey(typed[..t]) && toGuest == typed[..t]
  }

  lemma {:induction false} LiveIsFaithful(o: Outcome, typed: seq<Byte>, serial: seq<Byte>, t: nat, s: nat, toGuest: seq<Byte>, toTerminal: seq<Byte>)
    requires Live(typed, serial, t, s, toGuest, toTerminal) && o != ByKey
    ensures Faithful(Relay(o, toGuest, toTerminal, t, s), typed, serial)
  {
    BeforeDetachIs(typed[..t], t);
    assert typed[..t][..t] == typed[..t];
  }

  /** One read of the serial line, relayed to the terminal. */
  method SerialTurn(ghost p: Poll, ready: Ready, shown: Option<nat>, serial: seq<Byte>, s: nat, toTerminal: seq<Byte>)
    returns (end: Option<Outcome>, s': nat, out: seq<Byte>)
    requires s <= |serial| && toTerminal == serial[..s]
    requires !p.signalled && !p.failed && p.serial == ready && p.shown == shown
    ensures s <= s' <= |serial| && IsPrefix(out, serial[..s'])
    ensures end in {None, Some(SerialClosed), Some(Failed)}
    ensures end != Some(Failed) ==> out == serial[..s']
    ensures s' == if ready.Gives? then s + Min(Min(ready.n, BUFFER), |serial| - s) else s
    ensures end == Some(SerialClosed) <==> SerialEnds(|serial|, s, p)
    ensures end == Some(Failed) <==> SerialFails(|serial|, s, p)
  {
    end, s', out := None, s, toTerminal;
    match ready {
      case Quiet =>
      case Fails => end := Some(Failed);
      case Gives(n) =>
        var chunk := Take(serial, s, n);
        if chunk == [] { end := Some(SerialClosed); return; }
        s' := s + |chunk|;
        if shown.Some? {
          end, out := Some(Failed), toTerminal + chunk[..Min(shown.value, |chunk|)];
        } else {
          out := toTerminal + chunk;
        }
    }
  }

  lemma Slices(typed: seq<Byte>, t: nat, n: nat, at: nat)
    requires t + n <= |typed| && at <= n
    ensures typed[..t] + typed[t..t + n][..at] == typed[..t + at]
    ensures typed[..t + n][..t + at] == typed[..t + at]
  {}

  lemma NoKeyConcat(a: seq<Byte>, b: seq<Byte>)
    requires NoKey(a) && NoKey(b)
    ensures NoKey(a + b)
  {}

  lemma {:induction false} KeylessChunk(typed: seq<Byte>, t: nat, chunk: seq<Byte>)
    requires t + |chunk| <= |typed| && chunk == typed[t..t + |chunk|] && NoKey(typed[..t]) && NoKey(chunk)
    ensures NoKey(typed[..t + |chunk|])
    ensures BeforeDetach(typed[..t + |chunk|]) == typed[..t] + chunk == typed[..t + |chunk|]
  {
    var now := typed[..t + |chunk|];
    Slices(typed, t, |chunk|, |chunk|);
    assert chunk[..|chunk|] == chunk;
    NoKeyConcat(typed[..t], chunk);
    BeforeDetachIs(now, |now|);
  }

  lemma {:induction false} ChunkWithKey(typed: seq<Byte>, t: nat, chunk: seq<Byte>, at: nat)
    requires t + |chunk| <= |typed| && chunk == typed[t..t + |chunk|] && NoKey(typed[..t])
    requires at < |chunk| && chunk[at] == DETACH && NoKey(chunk[..at])
    ensures !NoKey(typed[..t + |chunk|])
    ensures BeforeDetach(typed[..t + |chunk|]) == typed[..t] + chunk[..at] == BeforeDetach(typed)
  {
    ChunkCut(typed, t, chunk, at);
    KeyInStream(typed, t + at, t + |chunk|);
  }

  /** The stream up to the key of a chunk. */
  lemma {:induction false} ChunkCut(typed: seq<Byte>, t: nat, chunk: seq<Byte>, at: nat)
    requires t + |chunk| <= |typed| && chunk == typed[t..t + |chunk|] && NoKey(typed[..t])
    requires at < |chunk| && NoKey(chunk[..at])
    ensures typed[t + at] == chunk[at]
    ensures typed[..t] + chunk[..at] == typed[..t + at] && NoKey(typed[..t + at])
  {
    Slices(typed, t, |chunk|, at);
    NoKeyConcat(typed[..t], chunk[..at]);
  }

  lemma {:induction false} KeyInStream(typed: seq<Byte>, k: nat, n: nat)
    requires k < n <= |typed| && NoKey(typed[..k]) && typed[k] == DETACH
    ensures !NoKey(typed[..n])
    ensures BeforeDetach(typed[..n]) == typed[..k] == BeforeDetach(typed)
  {
    assert typed[..n][..k] == typed[..k];
    CutAtKey(typed, k);
    CutAtKey(typed[..n], k);
  }

  lemma {:induction false} CutAtKey(bytes: seq<Byte>, k: nat)
    requires k < |bytes| && NoKey(bytes[..k]) && bytes[k] == DETACH
    ensures BeforeDetach(bytes) == bytes[..k] && !NoKey(bytes)
  {
    BeforeDetachIs(bytes, k);
  }

  /** One read of typed bytes, sent to the guest up to the detach key. */
  method StdinTurn(ghost p: Poll, ready: Ready, delivered: Option<nat>, typed: seq<Byte>, t: nat, toGuest: seq<Byte>)
    returns (end: Option<Outcome>, eof: bool, t': nat, out: seq<Byte>)
    requires t <= |typed| && NoKey(typed[..t]) && toGuest == typed[..t]
    requires !p.signalled && !p.failed && p.stdin == ready && p.delivered == delivered
    ensures t <= t' <= |typed| && end in {None, Some(ByKey), Some(Failed)}
    ensures t' == if ready.Gives? then t + Min(Min(ready.n, BUFFER), |typed| - t) else t
    ensures eof <==> ready.Gives? && t' == t
    ensures end == None ==> NoKey(typed[..t']) && out == typed[..t']
    ensures end == Some(ByKey) ==> out == BeforeDetach(typed[..t']) == BeforeDetach(typed) && !NoKey(typed[..t'])
    ensures end == Some(Failed) <==> StdinFails(|typed|, Input(t, true), p)
    ensures end == Some(Failed) ==> IsPrefix(out, BeforeDetach(typed[..t']))
  {
    end, eof, t', out := None, false, t, toGuest;
    match ready {
      case Quiet =>
      case Fails =>
        end := Some(Failed);
        BeforeDetachIs(typed[..t], t);
      case Gives(n) =>
        var chunk := Take(typed, t, n);
        if chunk == [] { eof := true; return; }
        t' := t + |chunk|;
        var at := DetachAt(chunk);
        var last := if at.Some? then chunk[..at.value] else chunk;
        if delivered.Some? {
          PartOfChunk(typed, t, chunk, at, Min(delivered.value, |last|));
          end, out := Some(Failed), toGuest + last[..Min(delivered.value, |last|)];
        } else {
          if at.Some? { ChunkWithKey(typed, t, chunk, at.value); } else { KeylessChunk(typed, t, chunk); }
          end, out := if at.Some? then Some(ByKey) else None, toGuest + last;
        }
    }
  }

  /** A write that fails has sent a prefix of what it should have sent. */
  lemma {:induction false} PartOfChunk(typed: seq<Byte>, t: nat, chunk: seq<Byte>, at: Option<nat>, n: nat)
    requires t + |chunk| <= |typed| && chunk == typed[t..t + |chunk|] && NoKey(typed[..t])
    requires at.None? <==> NoKey(chunk)
    requires at.Some? ==> at.value < |chunk| && chunk[at.value] == DETACH && NoKey(chunk[..at.value])
    requires n <= if at.Some? then at.value else |chunk|
    ensures IsPrefix(typed[..t] + (if at.Some? then chunk[..at.value] else chunk)[..n], BeforeDetach(typed[..t + |chunk|]))
  {
    if at.Some? { ChunkWithKey(typed, t, chunk, at.value); } else { KeylessChunk(typed, t, chunk); }
  }

  /** `rounds` is the number of polls after which the loop was left: the first
      poll that ends the session is the last one, and says how it ended. */
  method PumpConsole(typed: seq<Byte>, serial: seq<Byte>, polls: seq<Poll>) returns (r: Relay, rounds: nat)
    ensures Faithful(r, typed, serial)
    ensures rounds <= |polls| && (r.outcome == Attached ==> rounds == |polls|) && (r.outcome != Attached ==> rounds > 0)
    ensures forall k :: 0 <= k < rounds - 1 ==> !EndsAt(typed, serial, polls, k)
    ensures r.outcome in {Attached, ByKey} && rounds > 0 ==> !EndsAt(typed, serial, polls, rounds - 1)
    ensures r.outcome == BySignal <==> rounds > 0 && polls[rounds - 1].signalled
    ensures r.outcome == SerialClosed <==>
      rounds > 0 &&
      var last := polls[rounds - 1];
      && !last.signalled && !last.failed && last.serial.Gives?
      && (last.serial.n == 0 || SerialTaken(|serial|, polls[..rounds - 1]) == |serial|)
    ensures r.outcome == Failed <==> rounds > 0 && FailsAt(typed, serial, polls, rounds - 1)
    ensures r.serialRead == SerialTaken(|serial|, polls[..rounds])
    ensures r.typedRead ==
      if rounds > 0 && EndsAtSerial(serial, polls, rounds - 1) then TypedTaken(|typed|, polls[..rounds - 1]).taken
      else TypedTaken(|typed|, polls[..rounds]).taken
  {
    var toGuest: seq<Byte>, toTerminal: seq<Byte>, i: Input, s: nat := [], [], Input(0, true), 0;
    rounds := 0;
    for k := 0 to |polls|
      invariant Live(typed, serial, i.taken, s, toGuest, toTerminal) && rounds == k
      invariant s == SerialTaken(|serial|, polls[..k]) && i == TypedTaken(|typed|, polls[..k])
      invariant forall j :: 0 <= j < k ==> !EndsAt(typed, serial, polls, j)
    {
      assert polls[..k + 1][..k] == polls[..k];
      rounds := k + 1;
      var end;
      end, i, s, toGuest, toTerminal := PollOnce(typed, serial, polls[k], i, s, toGuest, toTerminal);
      if end.Some? { r := Relay(end.value, toGuest, toTerminal, i.taken, s); return; }
    }
    assert polls[..|polls|] == polls;
    LiveIsFaithful(Attached, typed, serial, i.taken, s, toGuest, toTerminal);
    r := Relay(Attached, toGuest, toTerminal, i.taken, s); return;
  }

  /** The loop body. */
  method PollOnce(typed: seq<Byte>, serial: seq<Byte>, p: Poll, i: Input, s: nat, toGuest: seq<Byte>, toTerminal: seq<Byte>)
    returns (end: Option<Outcome>, i': Input, s': nat, guest: seq<Byte>, terminal: seq<Byte>)
    requires Live(typed, serial, i.taken, s, toGuest, toTerminal)
    ensures end.None? ==> Live(typed, serial, i'.taken, s', guest, terminal)
    ensures end.Some? ==> end.value != Attached && Faithful(Relay(end.value, guest, terminal, i'.taken, s'), typed, serial)
    ensures end == Some(BySignal) <==> p.signalled
    ensures end == Some(SerialClosed) <==> SerialEnds(|serial|, s, p)
    ensures end == Some(Failed) <==>
      PollFails(p) || SerialFails(|serial|, s, p) || (!SerialEnds(|serial|, s, p) && StdinFails(|typed|, i, p))
    ensures s' == SerialStep(|serial|, s, p)
    ensures SerialEnds(|serial|, s, p) || SerialFails(|serial|, s, p) ==> i'.taken == i.taken
    ensures !SerialEnds(|serial|, s, p) && !SerialFails(|serial|, s, p) ==> i' == TypedStep(|typed|, i, p)
  {
    end, i', s', guest, terminal := None, i, s, toGuest, toTerminal;
    if p.signalled {
      LiveIsFaithful(BySignal, typed, serial, i.taken, s, toGuest, toTerminal);
      end := Some(BySignal);
      return;
    }
    if p.failed {
      if !p.interrupted {
        LiveIsFaithful(Failed, typed, serial, i.taken, s, toGuest, toTerminal);
        end := Some(Failed);
      }
      return;
    }
    LiveIsFaithful(SerialClosed, typed, serial, i.taken, s, toGuest, toTerminal);
    end, s', terminal := SerialTurn(p, p.serial, p.shown, serial, s, toTerminal);
    if end.Some? || !i.open { return; }
    var eof, t;
    end, eof, t, guest := StdinTurn(p, p.stdin, p.delivered, typed, i.taken, toGuest);
    i' := Input(t, !eof);
  }

  /** Poll `k` fails the session: the poll itself, the serial line or terminal,
      or, with input open, the typed bytes' way to the guest. */
  ghost predicate FailsAt(typed: seq<Byte>, serial: seq<Byte>, polls: seq<Poll>, k: nat)
    requires k < |polls|
  {
    var s := SerialTaken(|serial|, polls[..k]);
    || PollFails(polls[k]) || SerialFails(|serial|, s, polls[k])
    || (!SerialEnds(|serial|, s, polls[k]) && StdinFails(|typed|, TypedTaken(|typed|, polls[..k]), polls[k]))
  }

  /** Neither the key nor anything typed after it is ever sent, and what is sent
      is fixed by what was typed alone, not by how it was chunked. */
  lemma {:induction false} KeyNeverSent(typed: seq<Byte>, n: nat)
    requires n <= |typed|
    ensures NoKey(BeforeDetach(typed[..n])) && IsPrefix(BeforeDetach(typed[..n]), BeforeDetach(typed))
    ensures !NoKey(typed[..n]) ==> BeforeDetach(typed[..n]) == BeforeDetach(typed)
    decreases |typed|
  {
    if n > 0 && typed[0] != DETACH {
      assert typed[..n][1..] == typed[1..][..n - 1];
      KeyNeverSent(typed[1..], n - 1);
    }
  }
}
