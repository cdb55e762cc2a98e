/** The aggregation side of the earnings screen: the running total of prices,
    and `groupByDay`, which buckets the loaded appointments by the date part of
    their start time and returns the buckets in ascending day order. */
module Earnings {
  import opened Common
  import opened StringOrder

  /** An appointment record as the list endpoint returns it. `startTime` is
      None when the field is null or missing; `price` is the price in cents,
      None when `Number(price)` would be NaN. */
  datatype Appointment = Appointment(id: int, serviceName: string, startTime: Option<string>, price: Option<int>)

  /** `{ day, items }`. */
  datatype Bucket = Bucket(day: string, items: seq<Appointment>)

  /** `(a.start_time || '').slice(0, 10)`: at most the first ten characters of
      the start time, the empty string when there is none. */
  function DayKey(a: Appointment): (k: string)
    ensures a.startTime.None? ==> k == ""
    ensures a.startTime.Some? ==> k <= a.startTime.value
                                  && |k| == if |a.startTime.value| < 10 then |a.startTime.value| else 10
  {
    var st := a.startTime.GetOr("");
    st[..if |st| < 10 then |st| else 10]
  }

  /** `Number(a.price) || 0`: a missing or non-numeric price counts as 0. */
  function Contribution(a: Appointment): (c: int)
    ensures a.price.None? ==> c == 0
    ensures a.price.Some? ==> c == a.price.value
  {
    a.price.GetOr(0)
  }

  /** `s.reduce((sum, a) => sum + f(a), 0)`: a left fold from 0. */
  function SumBy(s: seq<Appointment>, f: Appointment -> int): (r: int)
    ensures (forall i :: 0 <= i < |s| ==> f(s[i]) >= 0) ==> r >= 0
    ensures (forall i :: 0 <= i < |s| ==> f(s[i]) == 0) ==> r == 0
  {
    if s == [] then 0 else SumBy(s[..|s| - 1], f) + f(s[|s| - 1])
  }

  /** The `total` reducer, and the per-day `dayTotal` applied to a bucket's
      items: never negative when no price is, and 0 when no record has a
      usable price. */
  function Total(s: seq<Appointment>): (r: int)
    ensures (forall i :: 0 <= i < |s| ==> s[i].price.None?) ==> r == 0
    ensures (forall i :: 0 <= i < |s| && s[i].price.Some? ==> s[i].price.value >= 0) ==> r >= 0
  {
    SumBy(s, Contribution)
  }

  function One(a: Appointment): int {
    1
  }

  /** The appointments whose day key is `d`, in input order. */
  function OnDay(s: seq<Appointment>, d: string): seq<Appointment> {
    if s == [] then []
    else OnDay(s[..|s| - 1], d) + (if DayKey(s[|s| - 1]) == d then [s[|s| - 1]] else [])
  }

  /** The day keys that occur in `s`. */
  function Days(s: seq<Appointment>): set<string> {
    set a | a in s :: DayKey(a)
  }

  function DaysOf(buckets: seq<Bucket>): seq<string> {
    seq(|buckets|, i requires 0 <= i < |buckets| => buckets[i].day)
  }

  /** What `groupByDay(appts)` returns: one bucket per day key that occurs,
      in strictly ascending day order, each holding that day's appointments in
      input order. */
  ghost predicate IsDayGrouping(appts: seq<Appointment>, buckets: seq<Bucket>) {
    StrictlyAscending(DaysOf(buckets))
    && (forall d :: d in DaysOf(buckets) <==> d in Days(appts))
    && (forall i :: 0 <= i < |buckets| ==> buckets[i].items == OnDay(appts, buckets[i].day))
  }

  lemma SumBySnoc(s: seq<Appointment>, x: Appointment, f: Appointment -> int)
    ensures SumBy(s + [x], f) == SumBy(s, f) + f(x)
  {
    assert (s + [x])[..|s|] == s;
  }

  lemma OnDaySnoc(s: seq<Appointment>, x: Appointment, d: string)
    ensures OnDay(s + [x], d) == OnDay(s, d) + (if DayKey(x) == d then [x] else [])
  {
    assert (s + [x])[..|s|] == s;
  }

  /** Every item of a day's list carries that day's key, and every appointment
      with that key is in it. */
  lemma {:induction false} OnDayMembers(s: seq<Appointment>, d: string)
    ensures forall a :: a in OnDay(s, d) <==> a in s && DayKey(a) == d
  {
    if s != [] {
      var p, x := s[..|s| - 1], s[|s| - 1];
      assert s == p + [x];
      OnDayMembers(p, d);
    }
  }

  lemma FirstIsMember<T>(s: seq<T>)
    ensures |s| > 0 ==> s[0] in s
  {
  }

  /** Counting with the constant 1 gives the length. */
  lemma {:induction false} CountIsLength(s: seq<Appointment>)
    ensures SumBy(s, One) == |s|
  {
    if s != [] {
      CountIsLength(s[..|s| - 1]);
    }
  }

  /** Totals add up over concatenation. */
  lemma {:induction false} TotalAppend(a: seq<Appointment>, b: seq<Appointment>)
    ensures Total(a + b) == Total(a) + Total(b)
    decreases |b|
  {
    if b == [] {
      assert a + b == a;
    } else {
      var p, x := b[..|b| - 1], b[|b| - 1];
      assert b == p + [x];
      assert a + b == (a + p) + [x];
      TotalAppend(a, p);
      SumBySnoc(a + p, x, Contribution);
      SumBySnoc(p, x, Contribution);
    }
  }

  /** A record without a usable price adds nothing to the total, yet it is kept
      in its day's list. */
  lemma UnpricedAddsZero(s: seq<Appointment>, x: Appointment)
    requires x.price.None?
    ensures Total(s + [x]) == Total(s)
    ensures x in OnDay(s + [x], DayKey(x))
  {
    SumBySnoc(s, x, Contribution);
    OnDaySnoc(s, x, DayKey(x));
  }

  /** `f` summed over the lists of the days `ds`. */
  function SumOverDays(s: seq<Appointment>, ds: seq<string>, f: Appointment -> int): int {
    if ds == [] then 0 else SumOverDays(s, ds[..|ds| - 1], f) + SumBy(OnDay(s, ds[|ds| - 1]), f)
  }

  /** A new record changes one day's sum by its value when it is on that day. */
  lemma DaySumStep(s: seq<Appointment>, x: Appointment, d: string, f: Appointment -> int)
    ensures SumBy(OnDay(s + [x], d), f) == SumBy(OnDay(s, d), f) + (if DayKey(x) == d then f(x) else 0)
  {
    OnDaySnoc(s, x, d);
    if DayKey(x) == d {
      SumBySnoc(OnDay(s, d), x, f);
    } else {
      assert OnDay(s + [x], d) == OnDay(s, d);
    }
  }

  lemma {:induction false} SumOverDaysStep(s: seq<Appointment>, x: Appointment, ds: seq<string>, f: Appointment -> int)
    requires Distinct(ds)
    ensures SumOverDays(s + [x], ds, f) == SumOverDays(s, ds, f) + (if DayKey(x) in ds then f(x) else 0)
  {
    if ds != [] {
      var p, d := ds[..|ds| - 1], ds[|ds| - 1];
      assert ds == p + [d];
      assert Distinct(p);
      SumOverDaysStep(s, x, p, f);
      DaySumStep(s, x, d, f);
      if DayKey(x) == d {
        forall i | 0 <= i < |p|
          ensures p[i] != d
        {
          assert ds[i] == p[i];
        }
      }
      assert (DayKey(x) in ds) == (DayKey(x) in p || DayKey(x) == d);
    }
  }

  /** The days' lists partition the input: summing over them sums over it. */
  lemma {:induction false} SumOverDaysPartition(s: seq<Appointment>, ds: seq<string>, f: Appointment -> int)
    requires Distinct(ds)
    requires forall a :: a in s ==> DayKey(a) in ds
    ensures SumOverDays(s, ds, f) == SumBy(s, f)
  {
    if s == [] {
      EmptyOverDays(ds, f);
    } else {
      var p, x := s[..|s| - 1], s[|s| - 1];
      assert s == p + [x];
      SumOverDaysPartition(p, ds, f);
      SumOverDaysStep(p, x, ds, f);
    }
  }

  lemma {:induction false} EmptyOverDays(ds: seq<string>, f: Appointment -> int)
    ensures SumOverDays([], ds, f) == 0
  {
    if ds != [] {
      EmptyOverDays(ds[..|ds| - 1], f);
    }
  }

  /** `f` summed over each bucket's items. */
  function SumOverBuckets(buckets: seq<Bucket>, f: Appointment -> int): int {
    if buckets == [] then 0
    else SumOverBuckets(buckets[..|buckets| - 1], f) + SumBy(buckets[|buckets| - 1].items, f)
  }

  lemma {:induction false} BucketsAreDays(appts: seq<Appointment>, buckets: seq<Bucket>, f: Appointment -> int)
    requires forall i :: 0 <= i < |buckets| ==> buckets[i].items == OnDay(appts, buckets[i].day)
    ensures SumOverBuckets(buckets, f) == SumOverDays(appts, DaysOf(buckets), f)
  {
    if buckets != [] {
      var p := buckets[..|buckets| - 1];
      BucketsAreDays(appts, p, f);
      assert DaysOf(buckets)[..|buckets| - 1] == DaysOf(p);
    }
  }

  lemma GroupingPartition(appts: seq<Appointment>, buckets: seq<Bucket>, f: Appointment -> int)
    requires IsDayGrouping(appts, buckets)
    ensures SumOverBuckets(buckets, f) == SumBy(appts, f)
  {
    var ds := DaysOf(buckets);
    forall i, j | 0 <= i < j < |ds|
      ensures ds[i] != ds[j]
    {
      LexIrreflexive(ds[i]);
    }
    forall a | a in appts
      ensures DayKey(a) in ds
    {
      assert DayKey(a) in Days(appts);
    }
    BucketsAreDays(appts, buckets, f);
    SumOverDaysPartition(appts, ds, f);
  }

  /** The bucket sizes add up to the number of appointments. */
  lemma BucketSizesSum(appts: seq<Appointment>, buckets: seq<Bucket>)
    requires IsDayGrouping(appts, buckets)
    ensures SumOverBuckets(buckets, One) == |appts|
  {
    GroupingPartition(appts, buckets, One);
    CountIsLength(appts);
  }

  /** The total equals the sum of the per-day totals. */
  lemma TotalIsSumOfDayTotals(appts: seq<Appointment>, buckets: seq<Bucket>)
    requires IsDayGrouping(appts, buckets)
    ensures SumOverBuckets(buckets, Contribution) == Total(appts)
  {
    GroupingPartition(appts, buckets, Contribution);
  }

  /** Each appointment lies in the one bucket of its own day and in no other,
      and no bucket is empty. */
  lemma ExactlyOneBucket(appts: seq<Appointment>, buckets: seq<Bucket>)
    requires IsDayGrouping(appts, buckets)
    ensures forall a :: a in appts ==> exists i :: 0 <= i < |buckets| && buckets[i].day == DayKey(a)
    ensures forall a, i :: a in appts && 0 <= i < |buckets| ==>
              (a in buckets[i].items <==> buckets[i].day == DayKey(a))
    ensures forall i :: 0 <= i < |buckets| ==> buckets[i].items != []
  {
    forall a | a in appts
      ensures exists i :: 0 <= i < |buckets| && buckets[i].day == DayKey(a)
    {
      assert DayKey(a) in Days(appts);
      assert DayKey(a) in DaysOf(buckets);
      var i :| 0 <= i < |buckets| && DaysOf(buckets)[i] == DayKey(a);
    }
    forall i | 0 <= i < |buckets|
      ensures forall a :: a in buckets[i].items <==> a in appts && DayKey(a) == buckets[i].day
      ensures buckets[i].items != []
    {
      OnDayMembers(appts, buckets[i].day);
      assert DaysOf(buckets)[i] == buckets[i].day;
      assert buckets[i].day in Days(appts);
      var a :| a in appts && DayKey(a) == buckets[i].day;
      assert a in buckets[i].items;
    }
  }

  /** Empty input gives no buckets, and a total of 0. */
  lemma EmptyGrouping(buckets: seq<Bucket>)
    requires IsDayGrouping([], buckets)
    ensures buckets == [] && Total([]) == 0
  {
    FirstIsMember(DaysOf(buckets));
  }

  /** There is only one grouping of a given input. */
  lemma GroupingUnique(appts: seq<Appointment>, b1: seq<Bucket>, b2: seq<Bucket>)
    requires IsDayGrouping(appts, b1) && IsDayGrouping(appts, b2)
    ensures b1 == b2
  {
    AscendingUnique(DaysOf(b1), DaysOf(b2));
    assert |b1| == |DaysOf(b1)|;
    forall i | 0 <= i < |b1|
      ensures b1[i] == b2[i]
    {
      assert DaysOf(b1)[i] == DaysOf(b2)[i];
    }
  }

  /** Appending a record adds its day key to the days that occur. */
  lemma DaysSnoc(s: seq<Appointment>, a: Appointment)
    ensures Days(s + [a]) == Days(s) + {DayKey(a)}
  {
    assert a in s + [a];
    assert forall x :: x in s + [a] <==> x in s || x == a;
  }

  /** The loop of `groupByDay`: the map from day key to that day's
      appointments in input order, and its keys in insertion order. */
  method FillByDay(appts: seq<Appointment>) returns (byDay: map<string, seq<Appointment>>, keys: seq<string>)
    ensures Distinct(keys)
    ensures forall d :: d in keys <==> d in byDay
    ensures forall d :: d in byDay <==> d in Days(appts)
    ensures forall d :: d in byDay ==> byDay[d] == OnDay(appts, d)
  {
    byDay, keys := map[], [];
    for i := 0 to |appts|
      invariant Distinct(keys)
      invariant forall d :: d in keys <==> d in byDay
      invariant forall d :: d in byDay <==> d in Days(appts[..i])
      invariant forall d :: d in byDay ==> byDay[d] == OnDay(appts[..i], d)
    {
      var a := appts[i];
      var day := DayKey(a);
      assert appts[..i + 1] == appts[..i] + [a];
      DaysSnoc(appts[..i], a);
      if day !in byDay {
        byDay := byDay[day := []];
        keys := keys + [day];
        assert OnDay(appts[..i], day) == [] by {
          OnDayMembers(appts[..i], day);
          FirstIsMember(OnDay(appts[..i], day));
        }
      }
      byDay := byDay[day := byDay[day] + [a]];
      forall d
        ensures d in byDay ==> byDay[d] == OnDay(appts[..i + 1], d)
      {
        OnDaySnoc(appts[..i], a, d);
      }
    }
    assert appts[..|appts|] == appts;
  }

  /** Sorting the keys keeps exactly the same keys. */
  lemma SortedSameKeys(keys: seq<string>)
    ensures forall d :: d in SortStrings(keys) <==> d in keys
  {
    var days := SortStrings(keys);
    forall d
      ensures d in days <==> d in keys
    {
      assert d in multiset(days) <==> d in multiset(keys);
    }
  }

  /** Pairing each of the sorted day keys with its list from the map gives
      the grouping. */
  lemma BucketsFromMap(appts: seq<Appointment>, byDay: map<string, seq<Appointment>>,
                       days: seq<string>, buckets: seq<Bucket>)
    requires StrictlyAscending(days)
    requires forall d :: d in days <==> d in Days(appts)
    requires forall d :: d in days ==> d in byDay && byDay[d] == OnDay(appts, d)
    requires |buckets| == |days|
    requires forall j :: 0 <= j < |days| ==> buckets[j] == Bucket(days[j], byDay[days[j]])
    ensures IsDayGrouping(appts, buckets)
  {
    assert DaysOf(buckets) == days;
  }

  /** `groupByDay(appts)`: the map filled in input order, then its keys
      sorted, each paired with its list. */
  method GroupByDay(appts: seq<Appointment>) returns (buckets: seq<Bucket>)
    ensures IsDayGrouping(appts, buckets)
  {
    var byDay, keys := FillByDay(appts);
    var days := SortStrings(keys);
    SortDistinct(keys);
    SortedSameKeys(keys);
    buckets := seq(|days|, j requires 0 <= j < |days| => Bucket(days[j], byDay[days[j]]));
    BucketsFromMap(appts, byDay, days, buckets);
  }
}
