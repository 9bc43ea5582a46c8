/** The readiness ladder of `events.rs`: a position that only `Ready` probes of
    levels the profile has can raise. */
module Readiness {
  import opened Basics

  datatype Level = SerialUp | QgaUp | DisplayApplied | GuestOsUp | WaydroidReady

  datatype Profile = LinuxGuest | AndroidLinuxMode | AndroidWaydroid

  datatype ProbeOutcome = Ready | NotReady | Unobservable

  const LINUX_LEVELS: seq<Level> := [SerialUp, QgaUp, DisplayApplied, GuestOsUp]
  const WAYDROID_LEVELS: seq<Level> := [SerialUp, QgaUp, DisplayApplied, GuestOsUp, WaydroidReady]

  function Levels(p: Profile): seq<Level> {
    if p.AndroidWaydroid? then WAYDROID_LEVELS else LINUX_LEVELS
  }

  predicate Accepts(p: Profile, l: Level) { l in Levels(p) }

  function TerminalLevel(p: Profile): Level {
    if p.AndroidWaydroid? then WaydroidReady else GuestOsUp
  }

  /** Position of a level in the profile's own list. */
  function Slot(p: Profile, l: Level): Option<nat> {
    SlotIn(Levels(p), l)
  }

  function SlotIn(levels: seq<Level>, l: Level): Option<nat> {
    if levels == [] then None
    else if levels[0] == l then Some(0)
    else
      var rest := SlotIn(levels[1..], l);
      if rest.None? then None else Some(rest.value + 1)
  }

  lemma {:induction false} SlotInIs(levels: seq<Level>, l: Level)
    ensures l in levels <==> SlotIn(levels, l).Some?
    ensures SlotIn(levels, l).Some? ==>
      SlotIn(levels, l).value < |levels| && levels[SlotIn(levels, l).value] == l && l !in levels[..SlotIn(levels, l).value]
  {
    if levels != [] {
      SlotInIs(levels[1..], l);
      assert levels == [levels[0]] + levels[1..];
      var s := SlotIn(levels, l);
      if s.Some? && s.value > 0 { assert levels[..s.value] == [levels[0]] + levels[1..][..s.value - 1]; }
    }
  }

  /** How high a level stands: nothing is below every slot, as `None < Some(0)`. */
  function Height(p: Profile, l: Option<Level>): nat {
    if l.None? || Slot(p, l.value).None? then 0 else Slot(p, l.value).value + 1
  }

  /** The ladder itself: five levels in a fixed order, the last one only for a
      guest that runs Waydroid, and the last level of a profile is its terminal. */
  lemma TheLadder(p: Profile, l: Level)
    ensures Accepts(p, l) <==> !l.WaydroidReady? || p.AndroidWaydroid?
    ensures Accepts(p, l) ==> Height(p, Some(l)) == match l
              case SerialUp => 1
              case QgaUp => 2
              case DisplayApplied => 3
              case GuestOsUp => 4
              case WaydroidReady => 5
    ensures l == TerminalLevel(p) <==> Accepts(p, l) && Height(p, Some(l)) == |Levels(p)|
  {
    SlotInIs(Levels(p), l);
    SlotInIs(Levels(p), TerminalLevel(p));
    assert Levels(p)[|Levels(p)| - 1] == TerminalLevel(p);
  }

  lemma HeightDetermines(p: Profile, a: Level, b: Level)
    requires Accepts(p, a) && Height(p, Some(a)) == Height(p, Some(b))
    ensures a == b
  {
    SlotInIs(Levels(p), a);
    SlotInIs(Levels(p), b);
  }

  datatype Observation = Observation(level: Level, outcome: ProbeOutcome)

  class ReadinessLadder {
    const profile: Profile
    var current: Option<Level>

    constructor (profile: Profile)
      ensures this.profile == profile && current == None
    {
      this.profile := profile;
      current := None;
    }

    method Observe(o: Observation) returns (advanced: Option<Level>)
      modifies this
      ensures current == After(profile, old(current), o)
      ensures advanced == if current == old(current) then None else Some(o.level)
      ensures Height(profile, current) >= Height(profile, old(current))
    {
      if o.outcome != Ready || !Accepts(profile, o.level) { return None; }
      SlotInIs(Levels(profile), o.level);
      var reached := if current.None? then None else Slot(profile, current.value);
      var observed := Slot(profile, o.level);
      if reached.None? || (observed.Some? && observed.value > reached.value) {
        current := Some(o.level);
        return Some(o.level);
      }
      return None;
    }

    /** `pending` of the snapshot. */
    method Pending() returns (levels: seq<Level>)
      ensures levels == Above(profile, current)
    {
      var reached := if current.None? then None else Slot(profile, current.value);
      var from := if reached.None? then 0 else reached.value + 1;
      return if from <= |Levels(profile)| then Levels(profile)[from..] else [];
    }
  }

  /** One observation moves the position up or not at all. */
  function After(p: Profile, current: Option<Level>, o: Observation): Option<Level> {
    if o.outcome.Ready? && Accepts(p, o.level) && Height(p, Some(o.level)) > Height(p, current)
    then Some(o.level) else current
  }

  function Above(p: Profile, current: Option<Level>): seq<Level> {
    var h := Height(p, current);
    if h <= |Levels(p)| then Levels(p)[h..] else []
  }

  function Climb(p: Profile, run: seq<Observation>): Option<Level> {
    if run == [] then None else After(p, Climb(p, run[..|run| - 1]), run[|run| - 1])
  }

  /** Levels returned by `observe` over a run, in order. */
  function Advances(p: Profile, run: seq<Observation>): seq<Level> {
    if run == [] then []
    else
      var before := run[..|run| - 1];
      Advances(p, before) + if Climb(p, run) == Climb(p, before) then [] else [run[|run| - 1].level]
  }

  ghost predicate WasReady(p: Profile, run: seq<Observation>, l: Level) {
    Observation(l, Ready) in run && Accepts(p, l)
  }

  /** After any run the position is the strongest accepted level that was ever
      ready, and there is none exactly when no accepted level was. */
  lemma {:induction false} ClimbIsTheJoin(p: Profile, run: seq<Observation>)
    ensures var c := Climb(p, run);
            && (c.Some? ==> WasReady(p, run, c.value))
            && forall l :: WasReady(p, run, l) ==> c.Some? && Height(p, Some(l)) <= Height(p, c)
  {
    if run != [] {
      var n, o := |run| - 1, run[|run| - 1];
      ClimbIsTheJoin(p, run[..n]);
      assert run == run[..n] + [o];
      SlotInIs(Levels(p), o.level);
      forall l | WasReady(p, run, l) ensures WasReady(p, run[..n], l) || (l == o.level && o.outcome.Ready?) {}
    }
  }

  /** So order and repetition do not matter: only which levels were ready. */
  lemma OrderIrrelevant(p: Profile, a: seq<Observation>, b: seq<Observation>)
    requires forall l :: Accepts(p, l) ==> (Observation(l, Ready) in a <==> Observation(l, Ready) in b)
    ensures Climb(p, a) == Climb(p, b)
  {
    ClimbIsTheJoin(p, a);
    ClimbIsTheJoin(p, b);
    var x, y := Climb(p, a), Climb(p, b);
    if x.Some? {
      assert WasReady(p, b, x.value) && WasReady(p, a, y.value);
      HeightDetermines(p, x.value, y.value);
    } else if y.Some? {
      assert WasReady(p, a, y.value);
    }
  }

  ghost predicate Rising(p: Profile, a: seq<Level>) {
    && (forall i :: 0 <= i < |a| ==> Accepts(p, a[i]))
    && (forall i, j :: 0 <= i < j < |a| ==> Height(p, Some(a[i])) < Height(p, Some(a[j])))
  }

  lemma RisingOneMore(p: Profile, a: seq<Level>, l: Level)
    requires Rising(p, a) && Accepts(p, l) && (a != [] ==> Height(p, Some(a[|a| - 1])) < Height(p, Some(l)))
    ensures Rising(p, a + [l])
  {
    forall i, j | 0 <= i < j < |a| + 1 ensures Height(p, Some((a + [l])[i])) < Height(p, Some((a + [l])[j])) {
      if j == |a| && i < |a| - 1 { assert Height(p, Some(a[i])) < Height(p, Some(a[|a| - 1])); }
    }
  }

  /** Rising levels, the last of which is the position. */
  ghost predicate RisesTo(p: Profile, a: seq<Level>, position: Option<Level>) {
    (a == [] <==> position == None) && (a != [] ==> position == Some(a[|a| - 1])) && Rising(p, a)
  }

  lemma {:induction false} RisesOn(p: Profile, a: seq<Level>, position: Option<Level>, o: Observation)
    requires RisesTo(p, a, position)
    ensures var now := After(p, position, o);
            RisesTo(p, a + if now == position then [] else [o.level], now)
  {
    if After(p, position, o) == position { assert a + [] == a; } else { RisingOneMore(p, a, o.level); }
  }

  /** Advances are strictly increasing and end at the current position. */
  lemma {:induction false} AdvancesIncrease(p: Profile, run: seq<Observation>)
    ensures RisesTo(p, Advances(p, run), Climb(p, run))
  {
    if run != [] {
      var before := run[..|run| - 1];
      AdvancesIncrease(p, before);
      RisesOn(p, Advances(p, before), Climb(p, before), run[|run| - 1]);
    }
  }

  lemma {:induction false} IncreasingIsShort(p: Profile, a: seq<Level>, bound: nat)
    requires Rising(p, a) && forall i :: 0 <= i < |a| ==> Height(p, Some(a[i])) <= bound
    ensures |a| <= bound
  {
    if a != [] {
      var n := |a| - 1;
      var h := Height(p, Some(a[n]));
      SlotInIs(Levels(p), a[n]);
      IncreasingIsShort(p, a[..n], h - 1);
    }
  }

  /** A run advances at most once per level of its profile. */
  lemma AdvancesBounded(p: Profile, run: seq<Observation>)
    ensures |Advances(p, run)| <= |Levels(p)|
  {
    AdvancesIncrease(p, run);
    var a := Advances(p, run);
    forall i | 0 <= i < |a| ensures Height(p, Some(a[i])) <= |Levels(p)| { SlotInIs(Levels(p), a[i]); }
    IncreasingIsShort(p, a, |Levels(p)|);
  }

  lemma ClimbOnLadder(p: Profile, run: seq<Observation>)
    ensures Climb(p, run).Some? ==> Accepts(p, Climb(p, run).value)
    ensures Height(p, Climb(p, run)) <= |Levels(p)|
  {
    ClimbIsTheJoin(p, run);
    if Climb(p, run).Some? { SlotInIs(Levels(p), Climb(p, run).value); }
  }

  /** What is pending is exactly what stands above the position, a suffix of the
      ladder, and it is empty exactly at the terminal level. */
  lemma PendingIsTheRest(p: Profile, run: seq<Observation>, l: Level)
    ensures var pending := Above(p, Climb(p, run));
            && |pending| <= |Levels(p)| && pending == Levels(p)[|Levels(p)| - |pending|..]
            && (l in pending <==> Accepts(p, l) && Height(p, Some(l)) > Height(p, Climb(p, run)))
            && (pending == [] <==> Climb(p, run) == Some(TerminalLevel(p)))
  {
    var c := Climb(p, run);
    ClimbOnLadder(p, run);
    LevelAt(p, l, Height(p, c));
    TerminalIsLast(p, c);
  }

  lemma LevelAt(p: Profile, l: Level, h: nat)
    requires h <= |Levels(p)|
    ensures l in Levels(p)[h..] <==> Accepts(p, l) && Height(p, Some(l)) > h
  {
    SlotInIs(Levels(p), l);
    var levels := Levels(p);
    if l in levels {
      var s := Slot(p, l).value;
      if h <= s { assert levels[h..][s - h] == l; }
      if l in levels[h..] {
        var k :| 0 <= k < |levels[h..]| && levels[h..][k] == l;
        assert levels[h + k] == l && levels[s] == l;
        NoLevelTwice(p, h + k, s);
      }
    }
  }

  lemma NoLevelTwice(p: Profile, i: nat, j: nat)
    requires i < |Levels(p)| && j < |Levels(p)| && Levels(p)[i] == Levels(p)[j]
    ensures i == j
  {}

  lemma TerminalIsLast(p: Profile, c: Option<Level>)
    requires c.Some? ==> Accepts(p, c.value)
    ensures Height(p, c) == |Levels(p)| <==> c == Some(TerminalLevel(p))
  {
    if c.Some? {
      SlotInIs(Levels(p), c.value);
      SlotInIs(Levels(p), TerminalLevel(p));
      assert Levels(p)[|Levels(p)| - 1] == TerminalLevel(p);
      NoLevelTwice(p, Slot(p, TerminalLevel(p)).value, |Levels(p)| - 1);
      if Height(p, c) == |Levels(p)| { HeightDetermines(p, c.value, TerminalLevel(p)); }
    }
  }
}
