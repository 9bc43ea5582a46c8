/** The daemon's RPC metrics (`metrics.rs`): a bounded window of latencies per
    method, percentiles over it, and counts by status code. */
module Metrics {
  import opened Basics
  import opened Sorting

  const LATENCY_SAMPLES_PER_METHOD: nat := 4096

  /** One finished call; a call without a status code counts as `OK`. */
  datatype Rpc = Rpc(name: string, ms: nat, code: Option<string>)

  function CodeOf(r: Rpc): string { if r.code.Some? then r.code.value else "OK" }

  datatype MethodLatency = MethodLatency(name: string, count: nat, p50: nat, p99: nat)

  // ----- what the history says -----

  /** Latencies of one method, in call order. */
  function Latencies(calls: seq<Rpc>, name: string): seq<nat> {
    if calls == [] then []
    else Latencies(calls[..|calls| - 1], name)
         + if calls[|calls| - 1].name == name then [calls[|calls| - 1].ms] else []
  }

  function CountCode(calls: seq<Rpc>, code: string): nat {
    if calls == [] then 0
    else CountCode(calls[..|calls| - 1], code) + if CodeOf(calls[|calls| - 1]) == code then 1 else 0
  }

  ghost function CallsOf(calls: seq<Rpc>, name: string): set<nat> { set i | 0 <= i < |calls| && calls[i].name == name }

  /** The calls with this code; a call without one has `OK`. */
  ghost function CallsWith(calls: seq<Rpc>, code: string): set<nat> {
    set i | 0 <= i < |calls| && (calls[i].code == Some(code) || (calls[i].code == None && code == "OK"))
  }

  /** The i-th call's latency stands after those of the earlier calls of its method. */
  ghost predicate Placed(calls: seq<Rpc>, name: string, i: nat)
    requires i < |calls|
  {
    var p := |CallsOf(calls[..i], name)|;
    p < |Latencies(calls, name)| && Latencies(calls, name)[p] == calls[i].ms
  }

  lemma {:induction false} OneMoreCall(calls: seq<Rpc>, name: string)
    requires calls != []
    ensures var n := |calls| - 1;
            |CallsOf(calls, name)| == |CallsOf(calls[..n], name)| + if calls[n].name == name then 1 else 0
  {
    var n := |calls| - 1;
    assert CallsOf(calls, name) == CallsOf(calls[..n], name) + if calls[n].name == name then {n} else {};
  }

  /** One latency for each call of the method, in call order. */
  lemma {:induction false} LatenciesAre(calls: seq<Rpc>, name: string)
    ensures |Latencies(calls, name)| == |CallsOf(calls, name)|
    ensures forall i :: 0 <= i < |calls| && calls[i].name == name ==> Placed(calls, name, i)
  {
    if calls != [] {
      var n := |calls| - 1;
      LatenciesAre(calls[..n], name);
      OneMoreCall(calls, name);
      forall i | 0 <= i < |calls| && calls[i].name == name
        ensures Placed(calls, name, i)
      {
        if i < n {
          assert calls[..n][i] == calls[i];
          EarlierStaysPlaced(calls, name, i);
        }
      }
    }
  }

  lemma EarlierStaysPlaced(calls: seq<Rpc>, name: string, i: nat)
    requires i < |calls| - 1 && Placed(calls[..|calls| - 1], name, i)
    ensures Placed(calls, name, i)
  {
    assert calls[..|calls| - 1][..i] == calls[..i];
  }

  /** A call counts under its code, or under `OK` when it has none. */
  lemma {:induction false} CountsAre(calls: seq<Rpc>, code: string)
    ensures CountCode(calls, code) == |CallsWith(calls, code)|
  {
    if calls != [] {
      var n := |calls| - 1;
      CountsAre(calls[..n], code);
      assert CallsWith(calls, code) == CallsWith(calls[..n], code) + if CodeOf(calls[n]) == code then {n} else {};
    }
  }

  ghost function Total(counts: map<string, nat>, codes: set<string>): nat
    requires codes <= counts.Keys
  {
    if codes == {} then 0
    else
      var c :| c in codes;
      counts[c] + Total(counts, codes - {c})
  }

  lemma {:induction false} TotalSplit(counts: map<string, nat>, codes: set<string>, c: string)
    requires codes <= counts.Keys && c in codes
    ensures Total(counts, codes) == counts[c] + Total(counts, codes - {c})
  {
    var d :| d in codes && Total(counts, codes) == counts[d] + Total(counts, codes - {d});
    if d != c {
      TotalSplit(counts, codes - {d}, c);
      TotalSplit(counts, codes - {c}, d);
      assert codes - {c} - {d} == codes - {d} - {c};
    }
  }

  lemma {:induction false} TotalFrame(a: map<string, nat>, b: map<string, nat>, codes: set<string>)
    requires codes <= a.Keys && codes <= b.Keys && forall c :: c in codes ==> a[c] == b[c]
    ensures Total(a, codes) == Total(b, codes)
  {
    if codes != {} {
      var c :| c in codes;
      TotalFrame(a, b, codes - {c});
      TotalSplit(a, codes, c);
      TotalSplit(b, codes, c);
    }
  }

  /** Counting one more call adds one to the sum over all codes. */
  lemma TotalBump(counts: map<string, nat>, c: string)
    ensures var n := if c in counts then counts[c] + 1 else 1;
            Total(counts[c := n], counts[c := n].Keys) == Total(counts, counts.Keys) + 1
  {
    var n := if c in counts then counts[c] + 1 else 1;
    var after := counts[c := n];
    TotalSplit(after, after.Keys, c);
    assert after.Keys - {c} == counts.Keys - {c};
    TotalFrame(counts, after, counts.Keys - {c});
    if c in counts { TotalSplit(counts, counts.Keys, c); } else { assert counts.Keys - {c} == counts.Keys; }
  }

  // ----- percentiles -----

  function NatLeq(a: nat, b: nat): bool { a <= b }

  /** Index of a percentile in a sorted window, rounded down. */
  function Rank(n: nat, percent: nat): nat
    requires n > 0 && percent <= 100
    ensures Rank(n, percent) < n
  {
    RankBelow(n - 1, percent, 100);
    (n - 1) * percent / 100
  }

  lemma RankBelow(n: nat, p: nat, q: nat)
    requires p <= q <= 100
    ensures n * p <= n * q <= n * 100 && n * p / 100 <= n * q / 100 <= n
  {}

  function Percentile(samples: seq<nat>, percent: nat): nat
    requires percent <= 100
  {
    if samples == [] then 0 else Sort(samples, NatLeq)[Rank(|samples|, percent)]
  }

  function AtMost(s: seq<nat>, v: nat): nat {
    if s == [] then 0 else AtMost(s[1..], v) + if s[0] <= v then 1 else 0
  }

  function AtLeast(s: seq<nat>, v: nat): nat {
    if s == [] then 0 else AtLeast(s[1..], v) + if s[0] >= v then 1 else 0
  }

  ghost function PlacesAtMost(s: seq<nat>, v: nat): set<nat> { set i | 0 <= i < |s| && s[i] <= v }

  ghost function PlacesAtLeast(s: seq<nat>, v: nat): set<nat> { set i | 0 <= i < |s| && s[i] >= v }

  /** The two counts, as what they count. */
  lemma {:induction false} CountsOf(s: seq<nat>, v: nat)
    ensures AtMost(s, v) == |PlacesAtMost(s, v)| && AtLeast(s, v) == |PlacesAtLeast(s, v)|
    decreases |s|
  {
    if s != [] {
      var n := |s| - 1;
      CountsOf(s[..n], v);
      OneMoreAtMost(s, v);
      OneMoreAtLeast(s, v);
      CountsConcat(s[..n], [s[n]], v);
      assert s == s[..n] + [s[n]];
    }
  }

  lemma OneMoreAtMost(s: seq<nat>, v: nat)
    requires s != []
    ensures |PlacesAtMost(s, v)| == |PlacesAtMost(s[..|s| - 1], v)| + if s[|s| - 1] <= v then 1 else 0
  {
    var n := |s| - 1;
    assert PlacesAtMost(s, v) == PlacesAtMost(s[..n], v) + if s[n] <= v then {n} else {};
  }

  lemma OneMoreAtLeast(s: seq<nat>, v: nat)
    requires s != []
    ensures |PlacesAtLeast(s, v)| == |PlacesAtLeast(s[..|s| - 1], v)| + if s[|s| - 1] >= v then 1 else 0
  {
    var n := |s| - 1;
    assert PlacesAtLeast(s, v) == PlacesAtLeast(s[..n], v) + if s[n] >= v then {n} else {};
  }

  lemma {:induction false} CountsConcat(a: seq<nat>, b: seq<nat>, v: nat)
    ensures AtMost(a + b, v) == AtMost(a, v) + AtMost(b, v)
    ensures AtLeast(a + b, v) == AtLeast(a, v) + AtLeast(b, v)
  {
    if a == [] {
      assert a + b == b;
    } else {
      assert (a + b)[1..] == a[1..] + b;
      CountsConcat(a[1..], b, v);
    }
  }

  lemma {:induction false} CountsInsert(s: seq<nat>, x: nat, v: nat)
    ensures AtMost(Insert(s, x, NatLeq), v) == AtMost(s, v) + if x <= v then 1 else 0
    ensures AtLeast(Insert(s, x, NatLeq), v) == AtLeast(s, v) + if x >= v then 1 else 0
  {
    if s != [] {
      if NatLeq(s[0], x) { CountsInsert(s[1..], x, v); } else { assert ([x] + s)[1..] == s; }
    }
  }

  /** Counting ignores order. */
  lemma {:induction false} CountsSort(s: seq<nat>, v: nat)
    ensures AtMost(Sort(s, NatLeq), v) == AtMost(s, v) && AtLeast(Sort(s, NatLeq), v) == AtLeast(s, v)
  {
    if s != [] {
      var n := |s| - 1;
      CountsSort(s[..n], v);
      CountsInsert(Sort(s[..n], NatLeq), s[n], v);
      CountsConcat(s[..n], [s[n]], v);
      assert s == s[..n] + [s[n]];
    }
  }

  lemma {:induction false} AllAtMost(s: seq<nat>, v: nat)
    requires forall i :: 0 <= i < |s| ==> s[i] <= v
    ensures AtMost(s, v) == |s|
  {
    if s != [] { AllAtMost(s[1..], v); }
  }

  lemma {:induction false} AllAtLeast(s: seq<nat>, v: nat)
    requires forall i :: 0 <= i < |s| ==> s[i] >= v
    ensures AtLeast(s, v) == |s|
  {
    if s != [] { AllAtLeast(s[1..], v); }
  }

  lemma {:induction false} RankCounts(sorted: seq<nat>, k: nat)
    requires k < |sorted| && forall i, j :: 0 <= i < j < |sorted| ==> sorted[i] <= sorted[j]
    ensures AtMost(sorted, sorted[k]) >= k + 1 && AtLeast(sorted, sorted[k]) >= |sorted| - k
  {
    var low, high := sorted[..k + 1], sorted[k + 1..];
    assert sorted == low + high;
    CountsConcat(low, high, sorted[k]);
    AllAtMost(low, sorted[k]);
    assert sorted == sorted[..k] + sorted[k..];
    CountsConcat(sorted[..k], sorted[k..], sorted[k]);
    AllAtLeast(sorted[k..], sorted[k]);
  }

  lemma SortedNats(s: seq<nat>)
    ensures forall i, j :: 0 <= i < j < |s| ==> Sort(s, NatLeq)[i] <= Sort(s, NatLeq)[j]
    ensures forall x :: x in Sort(s, NatLeq) <==> x in s
  {
    SortSorts(s, NatLeq);
    SortPermutes(s, NatLeq);
    SameMembers(Sort(s, NatLeq), s);
    forall i, j | 0 <= i < j < |s| ensures Sort(s, NatLeq)[i] <= Sort(s, NatLeq)[j] {
      assert NatLeq(Sort(s, NatLeq)[i], Sort(s, NatLeq)[j]);
    }
  }

  /** A percentile is an order statistic of the window: a member of it with at
      least rank + 1 samples at or below and at least n - rank at or above, where
      the rank is the integer part of (n-1) * percent / 100. */
  lemma PercentileIsOrderStatistic(samples: seq<nat>, percent: nat)
    requires samples != [] && percent <= 100
    ensures var k, v := (|samples| - 1) * percent / 100, Percentile(samples, percent);
            && v in samples && AtMost(samples, v) >= k + 1 && AtLeast(samples, v) >= |samples| - k
  {
    var sorted, k := Sort(samples, NatLeq), Rank(|samples|, percent);
    SortedNats(samples);
    assert sorted[k] in sorted;
    RankCounts(sorted, k);
    CountsSort(samples, sorted[k]);
  }

  lemma PercentilesOrdered(samples: seq<nat>, p: nat, q: nat)
    requires p <= q <= 100
    ensures Percentile(samples, p) <= Percentile(samples, q)
  {
    if samples != [] {
      SortedNats(samples);
      RankBelow(|samples| - 1, p, q);
    }
  }

  // ----- the collector -----

  class DaemonMetrics {
    var latency: map<string, seq<nat>>
    var byCode: map<string, nat>
    ghost var calls: seq<Rpc>

    ghost predicate Valid()
      reads this
    {
      Windows(latency, calls) && Counted(byCode, calls)
    }

    constructor ()
      ensures Valid() && calls == []
    {
      latency, byCode, calls := map[], map[], [];
    }

    method RecordLatency(r: Rpc)
      requires Windows(latency, calls)
      modifies this`latency
      ensures Windows(latency, calls + [r])
    {
      var bucket := if r.name in latency then latency[r.name] else [];
      WindowsStep(latency, calls, r);
      if |bucket| == LATENCY_SAMPLES_PER_METHOD { bucket := bucket[1..]; }
      latency := latency[r.name := bucket + [r.ms]];
    }

    method RecordRpc(r: Rpc)
      requires Valid()
      modifies this
      ensures Valid() && calls == old(calls) + [r]
    {
      RecordLatency(r);
      var code := CodeOf(r);
      CountedStep(byCode, calls, r);
      byCode := byCode[code := if code in byCode then byCode[code] + 1 else 1];
      calls := calls + [r];
    }

    /** The latency part of `snapshot`: one entry for each method seen, most
        calls first; `names` is the order the hash map happens to iterate in. */
    method Snapshot(names: seq<string>) returns (out: seq<MethodLatency>)
      requires Valid() && NoRepeats(names) && forall m :: m in names <==> m in latency
      ensures forall i, j :: 0 <= i < j < |out| ==> out[i].count >= out[j].count
      ensures SortedBy(out, MoreCalls) && multiset(out) == multiset(Entries(calls, names))
      ensures forall e :: e in out <==> e.name in latency && e == Entry(calls, e.name)
      ensures |out| == |latency| && forall i, j :: 0 <= i < j < |out| ==> out[i].name != out[j].name
    {
      out := [];
      for k := 0 to |names|
        invariant out == Entries(calls, names[..k])
      {
        assert names[k] in names;
        var samples := latency[names[k]];
        OneMoreEntry(calls, names, k);
        out := out + [MethodLatency(names[k], |samples|, Percentile(samples, 50), Percentile(samples, 99))];
      }
      assert names[..|names|] == names;
      SortedReport(calls, names);
      out := Sort(out, MoreCalls);
      NamesCounted(names, latency.Keys);
    }
  }

  /** Each method's window is the last 4096 of its latencies. */
  ghost predicate Windows(latency: map<string, seq<nat>>, calls: seq<Rpc>) {
    && (forall m :: m in latency <==> Latencies(calls, m) != [])
    && (forall m :: m in latency ==> latency[m] == Window(Latencies(calls, m), LATENCY_SAMPLES_PER_METHOD))
  }

  lemma WindowsStep(latency: map<string, seq<nat>>, calls: seq<Rpc>, r: Rpc)
    requires Windows(latency, calls)
    ensures var bucket := if r.name in latency then latency[r.name] else [];
            var kept := if |bucket| == LATENCY_SAMPLES_PER_METHOD then bucket[1..] else bucket;
            Windows(latency[r.name := kept + [r.ms]], calls + [r])
  {
    assert (calls + [r])[..|calls|] == calls;
    WindowPush(Latencies(calls, r.name), r.ms, LATENCY_SAMPLES_PER_METHOD);
    forall m | m != r.name ensures Latencies(calls + [r], m) == Latencies(calls, m) {}
  }

  /** Every call is counted once, under its code. */
  ghost predicate Counted(byCode: map<string, nat>, calls: seq<Rpc>) {
    && (forall c :: (if c in byCode then byCode[c] else 0) == CountCode(calls, c))
    && Total(byCode, byCode.Keys) == |calls|
  }

  lemma CountedStep(byCode: map<string, nat>, calls: seq<Rpc>, r: Rpc)
    requires Counted(byCode, calls)
    ensures var code := CodeOf(r);
            Counted(byCode[code := if code in byCode then byCode[code] + 1 else 1], calls + [r])
  {
    assert (calls + [r])[..|calls|] == calls;
    TotalBump(byCode, CodeOf(r));
  }

  function Entries(calls: seq<Rpc>, names: seq<string>): seq<MethodLatency> {
    seq(|names|, i requires 0 <= i < |names| => Entry(calls, names[i]))
  }

  lemma {:induction false} OneMoreEntry(calls: seq<Rpc>, names: seq<string>, k: nat)
    requires k < |names|
    ensures Entries(calls, names[..k + 1]) == Entries(calls, names[..k]) + [Entry(calls, names[k])]
  {
    var more, before := Entries(calls, names[..k + 1]), Entries(calls, names[..k]);
    forall i | 0 <= i < k ensures more[i] == before[i] {
      assert names[..k + 1][i] == names[..k][i];
    }
  }

  lemma {:induction false} SortedReport(calls: seq<Rpc>, names: seq<string>)
    requires NoRepeats(names)
    ensures var out := Sort(Entries(calls, names), MoreCalls);
            && SortedBy(out, MoreCalls) && multiset(out) == multiset(Entries(calls, names)) && |out| == |names|
            && (forall i, j :: 0 <= i < j < |out| ==> out[i].count >= out[j].count)
            && (forall e :: e in out <==> e.name in names && e == Entry(calls, e.name))
            && forall i, j :: 0 <= i < j < |out| ==> out[i].name != out[j].name
  {
    var entries := Entries(calls, names);
    var out := Sort(entries, MoreCalls);
    MoreCallsTotal();
    SortSorts(entries, MoreCalls);
    SortPermutes(entries, MoreCalls);
    EntriesOnce(calls, names, out);
    forall i, j | 0 <= i < j < |out| ensures out[i].count >= out[j].count {
      assert MoreCalls(out[i], out[j]);
    }
  }

  /** However they are ordered: one entry for each name. */
  lemma EntriesOnce(calls: seq<Rpc>, names: seq<string>, out: seq<MethodLatency>)
    requires NoRepeats(names) && multiset(out) == multiset(Entries(calls, names))
    ensures |out| == |names|
    ensures forall e :: e in out <==> e.name in names && e == Entry(calls, e.name)
    ensures forall i, j :: 0 <= i < j < |out| ==> out[i].name != out[j].name
  {
    var entries := Entries(calls, names);
    SameMembers(out, entries);
    assert |multiset(out)| == |out| && |multiset(entries)| == |entries|;
    forall e ensures e in out <==> e.name in names && e == Entry(calls, e.name) {
      if e.name in names {
        var i :| 0 <= i < |names| && names[i] == e.name;
        assert entries[i] == Entry(calls, e.name);
      }
    }
    assert NoRepeats(entries) by {
      forall i, j | 0 <= i < j < |entries| ensures entries[i] != entries[j] {
        assert entries[i].name == names[i] && entries[j].name == names[j];
      }
    }
    forall x ensures multiset(out)[x] <= 1 { NoRepeatsCount(entries, x); }
    CountedOnce(out);
    forall i, j | 0 <= i < j < |out| ensures out[i].name != out[j].name {
      assert out[i] in out && out[j] in out;
    }
  }

  lemma {:induction false} NamesCounted(names: seq<string>, keys: set<string>)
    requires NoRepeats(names) && forall m :: m in names <==> m in keys
    ensures |names| == |keys|
  {
    if names == [] {
      assert keys == {};
    } else {
      var last := names[|names| - 1];
      LastIsNew(names);
      assert names == names[..|names| - 1] + [last];
      NamesCounted(names[..|names| - 1], keys - {last});
    }
  }

  /** What is reported of a method, in terms of the calls made. */
  function Entry(calls: seq<Rpc>, name: string): MethodLatency {
    var window := Window(Latencies(calls, name), LATENCY_SAMPLES_PER_METHOD);
    MethodLatency(name, |window|, Percentile(window, 50), Percentile(window, 99))
  }

  function MoreCalls(a: MethodLatency, b: MethodLatency): bool { b.count <= a.count }

  lemma MoreCallsTotal()
    ensures TotalPreorder(MoreCalls)
  {}

  /** What a reported entry means, for every history and method seen in it. */
  lemma ReportedPercentiles(calls: seq<Rpc>, name: string)
    requires Latencies(calls, name) != []
    ensures var e, w := Entry(calls, name), Window(Latencies(calls, name), LATENCY_SAMPLES_PER_METHOD);
            && e.count == |w| > 0 && e.p50 in w && e.p99 in w && e.p50 <= e.p99
            && AtMost(w, e.p50) >= (|w| - 1) * 50 / 100 + 1 && AtLeast(w, e.p50) >= |w| - (|w| - 1) * 50 / 100
            && AtMost(w, e.p99) >= (|w| - 1) * 99 / 100 + 1 && AtLeast(w, e.p99) >= |w| - (|w| - 1) * 99 / 100
  {
    var w := Window(Latencies(calls, name), LATENCY_SAMPLES_PER_METHOD);
    PercentileIsOrderStatistic(w, 50);
    PercentileIsOrderStatistic(w, 99);
    PercentilesOrdered(w, 50, 99);
  }
}
