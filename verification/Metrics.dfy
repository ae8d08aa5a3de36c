/** The metrics publisher: a black list searched by bisection, a rate limit and a counter per metric. */
module Metrics {
  const NANOS: int := 1_000_000_000

  // ---------------------------------------------------------------- the order of strings

  /** Strings by their first difference, a proper prefix first. */
  predicate Less(a: string, b: string) {
    if b == "" then false
    else if a == "" then true
    else if a[0] != b[0] then a[0] < b[0]
    else Less(a[1..], b[1..])
  }

  lemma {:induction false} LessIsTotal(a: string, b: string)
    ensures Less(a, b) || Less(b, a) || a == b
    ensures !(Less(a, b) && Less(b, a))
    ensures !Less(a, a)
  {
    if a != "" && b != "" && a[0] == b[0] {
      LessIsTotal(a[1..], b[1..]);
      assert a == [a[0]] + a[1..] && b == [b[0]] + b[1..];
    }
    NotLessItself(a);
  }

  lemma {:induction false} NotLessItself(a: string)
    ensures !Less(a, a)
  {
    if a != "" { NotLessItself(a[1..]); }
  }

  lemma {:induction false} LessIsTransitive(a: string, b: string, c: string)
    requires Less(a, b) && Less(b, c)
    ensures Less(a, c)
  {
    if a != "" && a[0] == b[0] == c[0] { LessIsTransitive(a[1..], b[1..], c[1..]); }
  }

  ghost predicate Sorted(s: seq<string>) {
    forall i, j :: 0 <= i < j < |s| ==> !Less(s[j], s[i])
  }

  /** `std::sort`: the same strings in order. */
  method Sort(s: seq<string>) returns (r: seq<string>)
    ensures Sorted(r) && multiset(r) == multiset(s)
  {
    r := [];
    for i := 0 to |s|
      invariant Sorted(r) && multiset(r) == multiset(s[..i])
    {
      assert s[..i + 1] == s[..i] + [s[i]];
      r := Insert(r, s[i]);
    }
    assert s[..|s|] == s;
  }

  method Insert(s: seq<string>, x: string) returns (r: seq<string>)
    requires Sorted(s)
    ensures Sorted(r) && multiset(r) == multiset(s) + multiset{x}
  {
    var k: nat := |s|;
    while k > 0 && Less(x, s[k - 1])
      invariant k <= |s|
      invariant forall j :: k <= j < |s| ==> Less(x, s[j])
    {
      k := k - 1;
    }
    InsertKeepsSorted(s, k, x);
    r := s[..k] + [x] + s[k..];
    hide Sorted, Less;
    assert s == s[..k] + s[k..];
  }

  lemma NotLessBelow(s: seq<string>, k: nat, x: string, j: nat)
    requires Sorted(s) && j < k <= |s| && !Less(x, s[k - 1])
    ensures !Less(x, s[j])
  {
    if j < k - 1 && Less(x, s[j]) {
      LessIsTotal(s[j], s[k - 1]);
      if s[j] != s[k - 1] { LessIsTransitive(x, s[j], s[k - 1]); }
    }
  }

  lemma InsertKeepsSorted(s: seq<string>, k: nat, x: string)
    requires Sorted(s) && k <= |s|
    requires k > 0 ==> !Less(x, s[k - 1])
    requires forall j :: k <= j < |s| ==> Less(x, s[j])
    ensures Sorted(s[..k] + [x] + s[k..])
  {
    var r := s[..k] + [x] + s[k..];
    forall i, j | 0 <= i < j < |r| ensures !Less(r[j], r[i]) {
      if j == k {
        NotLessBelow(s, k, x, i);
      } else if i == k {
        LessIsTotal(x, r[j]);
      }
    }
  }

  /** `std::binary_search` over a sorted list is membership. */
  method BinarySearch(s: seq<string>, x: string) returns (found: bool)
    requires Sorted(s)
    ensures found <==> x in s
  {
    var lo, hi := 0, |s|;
    while lo < hi
      invariant 0 <= lo <= hi <= |s|
      invariant forall i :: 0 <= i < lo ==> Less(s[i], x)
      invariant forall i :: hi <= i < |s| ==> !Less(s[i], x)
    {
      var mid := (lo + hi) / 2;
      if Less(s[mid], x) {
        LessBelow(s, mid, x);
        lo := mid + 1;
      } else {
        NotLessAbove(s, mid, x);
        hi := mid;
      }
    }
    found := lo < |s| && !Less(x, s[lo]);
    SearchEnds(s, x, lo);
  }

  lemma LessBelow(s: seq<string>, mid: nat, x: string)
    requires Sorted(s) && mid < |s| && Less(s[mid], x)
    ensures forall i :: 0 <= i <= mid ==> Less(s[i], x)
  {
    forall i | 0 <= i <= mid ensures Less(s[i], x) {
      LessIsTotal(s[i], s[mid]);
      if Less(s[i], s[mid]) { LessIsTransitive(s[i], s[mid], x); }
    }
  }

  lemma NotLessAbove(s: seq<string>, mid: nat, x: string)
    requires Sorted(s) && mid < |s| && !Less(s[mid], x)
    ensures forall i :: mid <= i < |s| ==> !Less(s[i], x)
  {
    forall i | mid <= i < |s| ensures !Less(s[i], x) {
      LessIsTotal(s[i], s[mid]);
      if Less(s[i], x) && Less(s[mid], s[i]) { LessIsTransitive(s[mid], s[i], x); }
    }
  }

  lemma SearchEnds(s: seq<string>, x: string, lo: nat)
    requires Sorted(s) && lo <= |s|
    requires forall i :: 0 <= i < lo ==> Less(s[i], x)
    requires forall i :: lo <= i < |s| ==> !Less(s[i], x)
    ensures (lo < |s| && !Less(x, s[lo])) <==> x in s
  {
    if lo < |s| { LessIsTotal(x, s[lo]); }
    if x in s {
      var i :| 0 <= i < |s| && s[i] == x;
      NotLessItself(x);
      assert lo <= i;
      if lo < i { assert !Less(s[i], s[lo]); }
    }
  }

  // ---------------------------------------------------------------- the limiter

  /** A push that reached the publishing thread: its counter and the clock when it was tested and recorded. */
  datatype Pushed = Pushed(id: string, data: string, counter: nat, tested: bool, testAt: int, setAt: int)

  /** A push call with its two readings of the steady clock. */
  datatype Call = Call(id: string, data: string, tested: bool, testAt: int, setAt: int)

  datatype Config = Config(enabled: bool, blacklist: seq<string>, rates: map<string, int>)

  datatype Limiter = Limiter(cfg: Config, last: map<string, int>, counters: map<string, nat>, out: seq<Pushed>)

  predicate AboveRate(l: Limiter, id: string, now: int) {
    id in l.cfg.rates && id in l.last && now - l.last[id] < l.cfg.rates[id] * NANOS
  }

  predicate MayPush(l: Limiter, id: string, now: int) {
    l.cfg.enabled && id !in l.cfg.blacklist && !AboveRate(l, id, now)
  }

  function CounterOf(l: Limiter, id: string): (n: nat) {
    if id in l.counters then l.counters[id] else 0
  }

  function DoPush(l: Limiter, c: Call): (r: Limiter) {
    if c.tested && !MayPush(l, c.id, c.testAt) then l
    else
      var n := CounterOf(l, c.id);
      Limiter(l.cfg, l.last[c.id := c.setAt], l.counters[c.id := n + 1],
        l.out + [Pushed(c.id, c.data, n, c.tested, c.testAt, c.setAt)])
  }

  function RunPushes(l: Limiter, calls: seq<Call>): (r: Limiter)
    decreases |calls|
  {
    if calls == [] then l else RunPushes(DoPush(l, calls[0]), calls[1..])
  }

  /** The steady clock does not run backwards. */
  ghost predicate InTime(from: int, calls: seq<Call>)
    decreases |calls|
  {
    calls == [] || (from <= calls[0].testAt <= calls[0].setAt && InTime(calls[0].setAt, calls[1..]))
  }

  function Count(out: seq<Pushed>, id: string): (n: nat) {
    if out == [] then 0
    else Count(out[..|out| - 1], id) + (if out[|out| - 1].id == id then 1 else 0)
  }

  /** The maps say what the pushes so far say: how many of each metric, and when the latest was. */
  ghost predicate Faithful(l: Limiter, now: int) {
    && (forall id :: CounterOf(l, id) == Count(l.out, id))
    && (forall k :: 0 <= k < |l.out| ==> l.out[k].setAt <= now)
    && (forall k :: 0 <= k < |l.out| ==> l.out[k].id in l.last && l.out[k].setAt <= l.last[l.out[k].id])
    && (forall id :: id in l.last ==> exists k :: 0 <= k < |l.out| && l.out[k].id == id && l.out[k].setAt == l.last[id])
  }

  /** Every push carries the number of earlier ones of its metric. */
  ghost predicate Numbered(l: Limiter) {
    forall k :: 0 <= k < |l.out| ==> l.out[k].counter == Count(l.out[..k], l.out[k].id)
  }

  /** A tested push of a limited metric comes at least its rate after every earlier push of that metric. */
  ghost predicate Spaced(l: Limiter) {
    forall j, k :: 0 <= j < k < |l.out| && l.out[k].tested && l.out[j].id == l.out[k].id && l.out[k].id in l.cfg.rates
      ==> l.out[k].testAt - l.out[j].setAt >= l.cfg.rates[l.out[k].id] * 1_000_000_000
  }

  /** Every earlier push of the metric, if it is limited, lies at least its rate back. */
  ghost predicate OutsideWindow(l: Limiter, c: Call) {
    c.id in l.cfg.rates ==>
      forall k :: 0 <= k < |l.out| && l.out[k].id == c.id ==>
        c.testAt - l.out[k].setAt >= l.cfg.rates[c.id] * 1_000_000_000
  }

  /**
   * A tested push is let through exactly when the publisher is enabled, the metric is not black-listed, and no push
   * of a limited metric lies within its window.
   */
  lemma AcceptedIff(l: Limiter, c: Call, now: int)
    requires Faithful(l, now) && c.tested
    ensures DoPush(l, c) != l <==> l.cfg.enabled && c.id !in l.cfg.blacklist && OutsideWindow(l, c)
  {
    if MayPush(l, c.id, c.testAt) { assert |DoPush(l, c).out| == |l.out| + 1; }
    if AboveRate(l, c.id, c.testAt) {
      var k :| 0 <= k < |l.out| && l.out[k].id == c.id && l.out[k].setAt == l.last[c.id];
    }
  }

  lemma CountMore(out: seq<Pushed>, p: Pushed, id: string)
    ensures Count(out + [p], id) == Count(out, id) + (if p.id == id then 1 else 0)
  {
    assert (out + [p])[..|out|] == out;
  }

  lemma PushCounts(l: Limiter, c: Call)
    requires (forall id :: CounterOf(l, id) == Count(l.out, id)) && DoPush(l, c) != l
    ensures forall id :: CounterOf(DoPush(l, c), id) == Count(DoPush(l, c).out, id)
  {
    hide Count, MayPush;
    var r := DoPush(l, c);
    forall id ensures CounterOf(r, id) == Count(r.out, id) {
      CountMore(l.out, r.out[|l.out|], id);
      assert CounterOf(l, id) == Count(l.out, id);
    }
  }

  lemma PushKeepsFaithful(l: Limiter, c: Call, now: int)
    requires Faithful(l, now) && now <= c.testAt <= c.setAt
    ensures Faithful(DoPush(l, c), c.setAt)
  {
    var r := DoPush(l, c);
    if r != l {
      PushCounts(l, c);
      forall id | id in r.last
        ensures exists k :: 0 <= k < |r.out| && r.out[k].id == id && r.out[k].setAt == r.last[id]
      {
        if id == c.id {
          assert r.out[|l.out|].id == id && r.out[|l.out|].setAt == r.last[id];
        } else {
          var k :| 0 <= k < |l.out| && l.out[k].id == id && l.out[k].setAt == l.last[id];
          assert r.out[k] == l.out[k];
        }
      }
    }
  }

  lemma PushKeepsNumbers(l: Limiter, c: Call)
    requires (forall id :: CounterOf(l, id) == Count(l.out, id)) && Numbered(l)
    ensures Numbered(DoPush(l, c))
  {
    var r := DoPush(l, c);
    if r != l {
      forall k | 0 <= k < |r.out| ensures r.out[k].counter == Count(r.out[..k], r.out[k].id) {
        assert r.out[..k] == l.out[..k];
        assert l.out[..|l.out|] == l.out;
      }
    }
  }

  lemma PushKeepsSpace(l: Limiter, c: Call, now: int)
    requires Faithful(l, now) && Spaced(l)
    ensures Spaced(DoPush(l, c))
  {
    var r := DoPush(l, c);
    if r != l {
      if c.tested { AcceptedIff(l, c, now); }
      hide Faithful, MayPush, AboveRate;
      assert forall j :: 0 <= j < |l.out| ==> r.out[j] == l.out[j];
    }
  }

  /** Over every run of pushes: counters count, and accepted tested pushes of a limited metric are its rate apart. */
  lemma {:induction false} RunKeepsDistance(l: Limiter, calls: seq<Call>, now: int)
    requires Faithful(l, now) && Numbered(l) && Spaced(l) && InTime(now, calls)
    ensures Numbered(RunPushes(l, calls)) && Spaced(RunPushes(l, calls)) && RunPushes(l, calls).cfg == l.cfg
    ensures exists at :: Faithful(RunPushes(l, calls), at)
    decreases |calls|
  {
    if calls != [] {
      PushKeepsFaithful(l, calls[0], now);
      PushKeepsNumbers(l, calls[0]);
      PushKeepsSpace(l, calls[0], now);
      RunKeepsDistance(DoPush(l, calls[0]), calls[1..], calls[0].setAt);
    }
  }

  /**
   * The whole promise, for a fresh publisher with a fixed configuration: after any run of pushes, every push carries
   * the number of earlier ones of its metric, tested pushes of a limited metric are its rate apart, and the next tested
   * push is let through exactly when it is enabled, not black-listed and outside its window.
   */
  lemma FreshRun(cfg: Config, calls: seq<Call>, now: int, next: Call)
    requires InTime(now, calls)
    ensures var r := RunPushes(Limiter(cfg, map[], map[], []), calls);
      && Numbered(r) && Spaced(r)
      && (next.tested ==>
            (DoPush(r, next) != r <==> cfg.enabled && next.id !in cfg.blacklist && OutsideWindow(r, next)))
  {
    var start := Limiter(cfg, map[], map[], []);
    RunKeepsDistance(start, calls, now);
    var r := RunPushes(start, calls);
    var at :| Faithful(r, at);
    if next.tested { AcceptedIff(r, next, at); }
  }

  // ---------------------------------------------------------------- the publisher object

  const SET_RATE_CONTROL_ID := "sms_set_rate_control_id"
  const SET_BLACKLIST_ID := "sms_set_blacklist_id"

  /** The rates in a table that are not negative replace those set before. */
  function MergedRates(old_: map<string, int>, table: seq<(string, int)>): (r: map<string, int>) {
    if table == [] then old_
    else
      var (id, rate) := table[|table| - 1];
      var before := MergedRates(old_, table[..|table| - 1]);
      if rate >= 0 then before[id := rate] else before
  }

  /** Entry `k` is the last one of a metric that is not negative. */
  ghost predicate LastRate(table: seq<(string, int)>, id: string, k: nat) {
    && k < |table| && table[k].0 == id && table[k].1 >= 0
    && forall i :: k < i < |table| && table[i].0 == id ==> table[i].1 < 0
  }

  /** The rate of a metric is that of its last entry in the table that is not negative, or stays as it was. */
  lemma {:induction false} MergedRatesAre(old_: map<string, int>, table: seq<(string, int)>, id: string)
    ensures var r := MergedRates(old_, table);
            || (exists k: nat :: LastRate(table, id, k) && id in r && r[id] == table[k].1)
            || ((forall i :: 0 <= i < |table| && table[i].0 == id ==> table[i].1 < 0)
                && (id in r <==> id in old_) && (id in r ==> r[id] == old_[id]))
  {
    if table != [] {
      var n := |table| - 1;
      var before := MergedRates(old_, table[..n]);
      MergedRatesAre(old_, table[..n], id);
      if table[n].0 == id && table[n].1 >= 0 {
        assert LastRate(table, id, n);
      } else if k: nat :| LastRate(table[..n], id, k) && id in before && before[id] == table[..n][k].1 {
        assert forall i :: 0 <= i < n ==> table[..n][i] == table[i];
        assert LastRate(table, id, k);
      } else {
        assert forall i :: 0 <= i < n ==> table[i] == table[..n][i];
      }
    }
  }

  class MetricsPublisher {
    var enabled: bool
    var blacklist: seq<string>
    var rateControl: map<string, int>
    var lastUpdate: map<string, int>
    var counters: map<string, nat>
    ghost var out: seq<Pushed>

    ghost predicate Valid()
      reads this
    {
      Sorted(blacklist)
    }

    ghost function Value(): (l: Limiter)
      reads this
    {
      Limiter(Config(enabled, blacklist, rateControl), lastUpdate, counters, out)
    }

    constructor ()
      ensures Valid() && Value() == Limiter(Config(true, [], map[]), map[], map[], [])
    {
      enabled, blacklist, rateControl, lastUpdate, counters, out := true, [], map[], map[], map[], [];
    }

    method IsMetricBlacklisted(id: string) returns (r: bool)
      requires Valid()
      ensures r <==> id in blacklist
    {
      r := BinarySearch(blacklist, id);
    }

    method IsAboveMaxUpdateRate(id: string, now: int) returns (r: bool)
      ensures r <==> AboveRate(Value(), id, now)
    {
      if id !in rateControl { return false; }
      if id !in lastUpdate { return false; }
      return now - lastUpdate[id] < rateControl[id] * NANOS;
    }

    method ShouldPush(id: string, now: int) returns (r: bool)
      requires Valid()
      ensures r <==> MayPush(Value(), id, now)
    {
      if !enabled { return false; }
      var listed := IsMetricBlacklisted(id);
      if listed { return false; }
      var above := IsAboveMaxUpdateRate(id, now);
      return !above;
    }

    method Push(c: Call)
      requires Valid()
      modifies this
      ensures Valid() && Value() == DoPush(old(Value()), c)
    {
      if c.tested {
        var may := ShouldPush(c.id, c.testAt);
        if !may { return; }
      }
      lastUpdate := lastUpdate[c.id := c.setAt];
      if c.id !in counters { counters := counters[c.id := 0]; }
      var counter := counters[c.id];
      counters := counters[c.id := counter + 1];
      out := out + [Pushed(c.id, c.data, counter, c.tested, c.testAt, c.setAt)];
    }

    /** The list is kept sorted; the same ids are refused as are in the list given. */
    method SetBlacklist(list: seq<string>, data: string, testAt: int, setAt: int)
      requires Valid()
      modifies this
      ensures Valid() && multiset(blacklist) == multiset(list)
      ensures forall id :: id in blacklist <==> id in list
      ensures Value() == DoPush(old(Value()).(cfg := Config(old(enabled), blacklist, old(rateControl))),
        Call("sms_set_blacklist_id", data, true, testAt, setAt))
    {
      blacklist := Sort(list);
      assert forall id :: id in blacklist <==> id in multiset(list);
      Push(Call(SET_BLACKLIST_ID, data, true, testAt, setAt));
    }

    method SetRateControl(table: seq<(string, int)>, data: string, testAt: int, setAt: int)
      requires Valid()
      modifies this
      ensures Valid() && rateControl == MergedRates(old(rateControl), table)
      ensures Value() == DoPush(old(Value()).(cfg := Config(old(enabled), old(blacklist), rateControl)),
        Call("sms_set_rate_control_id", data, true, testAt, setAt))
    {
      for i := 0 to |table|
        invariant rateControl == MergedRates(old(rateControl), table[..i])
        invariant Value() == old(Value()).(cfg := Config(old(enabled), old(blacklist), rateControl))
      {
        assert table[..i + 1][..i] == table[..i];
        if table[i].1 >= 0 {
          rateControl := rateControl[table[i].0 := table[i].1];
        }
      }
      assert table[..|table|] == table;
      Push(Call(SET_RATE_CONTROL_ID, data, true, testAt, setAt));
    }
  }
}
