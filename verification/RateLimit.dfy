/** internal/controller/pod_controller.go, lines 126 to 137 and 231 to 252: the hourly limit, which each
    creation checks for itself against a listing that may be stale. Times are in nanoseconds. */
module RateLimit {

  const HOUR := 3_600_000_000_000

  /** A diagnosis as the check sees it: which one it is, and its creation timestamp. */
  datatype Record = Record(id: nat, stamp: int)

  function RecentCount(items: seq<Record>, n: nat, cutoff: int): nat
    requires n <= |items|
  {
    if n == 0 then 0 else RecentCount(items, n - 1, cutoff) + if items[n - 1].stamp > cutoff then 1 else 0
  }

  /** It is the number of items stamped after the cutoff. */
  lemma {:induction false} RecentCountIsExact(items: seq<Record>, n: nat, cutoff: int)
    requires n <= |items|
    ensures RecentCount(items, n, cutoff) == |set i | 0 <= i < n && items[i].stamp > cutoff|
  {
    if n > 0 {
      RecentCountIsExact(items, n - 1, cutoff);
      var before := set i | 0 <= i < n - 1 && items[i].stamp > cutoff;
      var now := set i | 0 <= i < n && items[i].stamp > cutoff;
      assert now == if items[n - 1].stamp > cutoff then before + {n - 1} else before;
    }
  }

  method WithinRateLimit(items: seq<Record>, limit: int, now: int) returns (within: bool)
    ensures within <==> limit <= 0 || RecentCount(items, |items|, now - HOUR) < limit
  {
    if limit <= 0 {
      return true;
    }
    var cutoff := now - HOUR;
    var recent := 0;
    for i := 0 to |items|
      invariant recent == RecentCount(items, i, cutoff)
    {
      if items[i].stamp > cutoff {
        recent := recent + 1;
      }
    }
    return recent < limit;
  }

  // ----- a detector creating diagnoses one after another -----

  /** One creation: the clock when the limit was checked, what the listing showed, and the timestamp
      the server gave. Anyone may delete a diagnosis at any time. */
  datatype Event = Created(now: int, listed: seq<Record>, record: Record) | Deleted(record: Record)

  /** The bounds of a run: the policy's limit, how many live diagnoses a listing may miss, and how far
      a stamp may lie before the check, as when the server truncates it to a second. */
  datatype Bounds = Bounds(limit: int, missed: nat, skew: nat)

  ghost predicate Allowed(b: Bounds, live: set<Record>, e: Event) {
    match e
    case Deleted(_) => true
    case Created(now, listed, record) =>
      && |set r | r in live && r !in listed| <= b.missed
      && RecentCount(listed, |listed|, now - HOUR) < b.limit
      && record.stamp >= now - b.skew
      && record !in live
  }

  function Apply(live: set<Record>, e: Event): set<Record> {
    match e
    case Created(_, _, record) => live + {record}
    case Deleted(record) => live - {record}
  }

  ghost predicate Run(b: Bounds, live: set<Record>, events: seq<Event>, after: set<Record>)
    decreases |events|
  {
    if events == [] then live == after
    else Allowed(b, live, events[0]) && Run(b, Apply(live, events[0]), events[1..], after)
  }

  /** The diagnoses stamped in the window of one hour, less the skew, that ends at `end`. */
  function Window(b: Bounds, live: set<Record>, end: int): set<Record> {
    set r | r in live && end - (HOUR - b.skew) < r.stamp <= end
  }

  ghost predicate Limited(b: Bounds, live: set<Record>) {
    forall end :: |Window(b, live, end)| <= b.limit + b.missed
  }

  lemma {:induction false} RecentSet(items: seq<Record>, n: nat, cutoff: int)
    requires n <= |items|
    ensures |set i | 0 <= i < n && items[i].stamp > cutoff :: items[i]| <= RecentCount(items, n, cutoff)
  {
    var s := set i | 0 <= i < n && items[i].stamp > cutoff :: items[i];
    if n > 0 {
      RecentSet(items, n - 1, cutoff);
      var t := set i | 0 <= i < n - 1 && items[i].stamp > cutoff :: items[i];
      if items[n - 1].stamp > cutoff {
        assert s == t + {items[n - 1]};
      } else {
        assert s == t;
      }
    }
  }

  lemma {:induction false} SmallerSet<T>(a: set<T>, b: set<T>)
    requires a <= b
    ensures |a| <= |b|
  {
    if a != {} {
      var x :| x in a;
      SmallerSet(a - {x}, b - {x});
    }
  }

  /** At a creation, everything live in a window that holds the new stamp was either missed by the
      listing or counted as recent. */
  lemma WindowWasCounted(b: Bounds, live: set<Record>, e: Event, end: int)
    requires e.Created? && Allowed(b, live, e) && e.record.stamp <= end
    ensures |Window(b, live, end)| <= b.missed + b.limit - 1
  {
    var cutoff := e.now - HOUR;
    var missed := set r | r in live && r !in e.listed;
    var recent := set i | 0 <= i < |e.listed| && e.listed[i].stamp > cutoff :: e.listed[i];
    RecentSet(e.listed, |e.listed|, cutoff);
    forall r | r in Window(b, live, end) ensures r in missed + recent {
      if r in e.listed {
        var i :| 0 <= i < |e.listed| && e.listed[i] == r;
      }
    }
    SmallerSet(Window(b, live, end), missed + recent);
  }

  lemma StepKeepsLimit(b: Bounds, live: set<Record>, e: Event)
    requires Limited(b, live) && Allowed(b, live, e)
    ensures Limited(b, Apply(live, e))
  {
    forall end ensures |Window(b, Apply(live, e), end)| <= b.limit + b.missed {
      var w, w' := Window(b, live, end), Window(b, Apply(live, e), end);
      assert |w| <= b.limit + b.missed;
      if e.Deleted? {
        SmallerSet(w', w);
      } else if e.record in w' {
        WindowWasCounted(b, live, e, end);
        assert w' == w + {e.record};
      } else {
        assert w' == w;
      }
    }
  }

  lemma {:induction false} RunKeepsLimit(b: Bounds, live: set<Record>, events: seq<Event>, after: set<Record>)
    requires Run(b, live, events, after) && Limited(b, live)
    ensures Limited(b, after)
    decreases |events|
  {
    if events != [] {
      StepKeepsLimit(b, live, events[0]);
      RunKeepsLimit(b, Apply(live, events[0]), events[1..], after);
    }
  }

  /** Over any run, every window of an hour less the skew holds at most limit + missed live diagnoses,
      from the check each creation makes for itself. */
  lemma SlidingWindow(b: Bounds, events: seq<Event>, after: set<Record>, end: int)
    requires b.limit >= 1 && Run(b, {}, events, after)
    ensures |Window(b, after, end)| <= b.limit + b.missed
  {
    forall e ensures Window(b, {}, e) == {} {
    }
    RunKeepsLimit(b, {}, events, after);
  }

  // ----- the bound is reached -----

  function Records(n: nat): (r: seq<Record>)
    ensures |r| == n && forall i :: 0 <= i < n ==> r[i] == Record(i, 0)
  {
    seq(n, i requires 0 <= i < n => Record(i, 0))
  }

  function Ids(lo: nat, hi: nat): set<Record> {
    set i | lo <= i < hi :: Record(i, 0)
  }

  /** How many records the n-th listing shows: all but the latest few. */
  function SeenBy(b: Bounds, n: nat): nat {
    if n <= b.missed then 0 else n - b.missed
  }

  function BurstEvent(b: Bounds, n: nat): Event {
    Created(0, Records(SeenBy(b, n)), Record(n, 0))
  }

  /** n creations at one instant. */
  function Burst(b: Bounds, n: nat): seq<Event> {
    if n == 0 then [] else Burst(b, n - 1) + [BurstEvent(b, n - 1)]
  }

  lemma {:induction false} RunSnoc(b: Bounds, live: set<Record>, events: seq<Event>, mid: set<Record>, e: Event)
    requires Run(b, live, events, mid) && Allowed(b, mid, e)
    ensures Run(b, live, events + [e], Apply(mid, e))
    decreases |events|
  {
    if events == [] {
      assert [e][1..] == [] && events + [e] == [e];
    } else {
      RunSnoc(b, Apply(live, events[0]), events[1..], mid, e);
      assert (events + [e])[1..] == events[1..] + [e];
    }
  }

  lemma {:induction false} CountAtMost(items: seq<Record>, n: nat, cutoff: int)
    requires n <= |items|
    ensures RecentCount(items, n, cutoff) <= n
  {
    if n > 0 {
      CountAtMost(items, n - 1, cutoff);
    }
  }

  lemma {:induction false} IdsCount(lo: nat, hi: nat)
    requires lo <= hi
    ensures |Ids(lo, hi)| == hi - lo
  {
    if lo < hi {
      IdsCount(lo, hi - 1);
      assert Ids(lo, hi) == Ids(lo, hi - 1) + {Record(hi - 1, 0)};
    }
  }

  lemma BurstEventAllowed(b: Bounds, n: nat)
    requires b.limit >= 1 && n < b.limit + b.missed
    ensures Allowed(b, Ids(0, n), BurstEvent(b, n)) && Apply(Ids(0, n), BurstEvent(b, n)) == Ids(0, n + 1)
  {
    var seen := SeenBy(b, n);
    CountAtMost(Records(seen), seen, 0 - HOUR);
    var missed := set r | r in Ids(0, n) && r !in Records(seen);
    forall i: nat | i < seen ensures Record(i, 0) in Records(seen) {
      assert Records(seen)[i] == Record(i, 0);
    }
    assert missed <= Ids(seen, n);
    IdsCount(seen, n);
    SmallerSet(missed, Ids(seen, n));
    assert Ids(0, n) + {Record(n, 0)} == Ids(0, n + 1);
  }

  lemma {:induction false} BurstRuns(b: Bounds, n: nat)
    requires b.limit >= 1 && n <= b.limit + b.missed
    ensures Run(b, {}, Burst(b, n), Ids(0, n))
  {
    if n == 0 {
      assert Ids(0, 0) == {};
    } else {
      hide Allowed, BurstEvent, Apply, Ids, Run;
      BurstRuns(b, n - 1);
      BurstEventAllowed(b, n - 1);
      RunSnoc(b, {}, Burst(b, n - 1), Ids(0, n - 1), BurstEvent(b, n - 1));
    }
  }

  /** The slack for missed creations is real: some run fills a window with exactly limit + missed. */
  lemma WindowCanFill(b: Bounds)
    requires b.limit >= 1 && b.skew < HOUR
    ensures exists events, after :: Run(b, {}, events, after) && |Window(b, after, 0)| == b.limit + b.missed
  {
    var n := b.limit + b.missed;
    var after := Ids(0, n);
    BurstRuns(b, n);
    IdsCount(0, n);
    assert Window(b, after, 0) == after;
  }
}
