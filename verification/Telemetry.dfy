// Loss accounting and latency percentiles of the vehicle runtime.
module Telemetry {
  import opened Types

  // ---------- lost commands ----------

  datatype Meter = Meter(lost: int, last: Option<int>, reported: int)

  datatype Event = Got(sequence: int) | Report

  // on_datachannel_message for an accepted sequence; telemetry_loop taking the count into a report.
  function Step(m: Meter, e: Event): Meter {
    match e
    case Got(n) =>
      Meter(if m.last.Some? && n > m.last.value + 1 then m.lost + n - m.last.value - 1 else m.lost, Some(n), m.reported)
    case Report => Meter(0, m.last, m.reported + m.lost)
  }

  function Count(m: Meter, evs: seq<Event>): Meter {
    if evs == [] then m else Step(Count(m, evs[..|evs| - 1]), evs[|evs| - 1])
  }

  function Sequences(evs: seq<Event>): seq<int> {
    if evs == [] then []
    else Sequences(evs[..|evs| - 1]) + if evs[|evs| - 1].Got? then [evs[|evs| - 1].sequence] else []
  }

  predicate Increasing(s: seq<int>) {
    forall i, j :: 0 <= i < j < |s| ==> s[i] < s[j]
  }

  // How far a number jumps past the next one expected.
  function Jump(previous: int, next: int): nat {
    if next > previous + 1 then next - previous - 1 else 0
  }

  // All jumps of a sequence together.
  function Jumps(s: seq<int>): nat {
    var n := |s|;
    if n < 2 then 0 else Jumps(s[..n - 1]) + Jump(s[n - 2], s[n - 1])
  }

  // Reported as lost and not yet reported make up the jumps between consecutive accepted commands, each
  // counted once, for any sequence of numbers and across any number of reports. When the numbers rise,
  // as within a session, these and the accepted ones are all numbers from the first to the last.
  lemma {:induction false} NothingIsMiscounted(evs: seq<Event>)
    ensures var s, m := Sequences(evs), Count(Meter(0, None, 0), evs);
            && m.lost + m.reported == Jumps(s) && m.lost >= 0
            && m.last == (if s == [] then None else Some(s[|s| - 1]))
            && (s != [] && Increasing(s) ==> |s| + m.reported + m.lost == s[|s| - 1] - s[0] + 1)
    decreases |evs|
  {
    if evs != [] {
      var before, e := evs[..|evs| - 1], evs[|evs| - 1];
      var s := Sequences(evs);
      NothingIsMiscounted(before);
      if e.Got? {
        assert s[..|s| - 1] == Sequences(before);
      } else {
        assert s == Sequences(before);
      }
      assert Increasing(s) ==> Increasing(Sequences(before));
    }
  }

  // ---------- percentiles ----------

  function Insert(x: int, s: seq<int>): seq<int> {
    if s == [] || x <= s[0] then [x] + s else [s[0]] + Insert(x, s[1..])
  }

  // sorted()
  function Sort(s: seq<int>): seq<int> {
    if s == [] then [] else Insert(s[0], Sort(s[1..]))
  }

  predicate Ascending(s: seq<int>) {
    forall i, j :: 0 <= i < j < |s| ==> s[i] <= s[j]
  }

  function CountAtMost(s: seq<int>, x: int): nat {
    if s == [] then 0 else (if s[0] <= x then 1 else 0) + CountAtMost(s[1..], x)
  }

  function CountAtLeast(s: seq<int>, x: int): nat {
    if s == [] then 0 else (if s[0] >= x then 1 else 0) + CountAtLeast(s[1..], x)
  }

  lemma {:induction false} InsertPermutes(x: int, s: seq<int>)
    ensures multiset(Insert(x, s)) == multiset(s) + multiset{x}
  {
    if s != [] && x > s[0] {
      InsertPermutes(x, s[1..]);
      assert s == [s[0]] + s[1..];
    }
  }

  lemma {:induction false} InsertKeepsFloor(x: int, s: seq<int>, low: int)
    requires low <= x && forall k :: 0 <= k < |s| ==> low <= s[k]
    ensures forall k :: 0 <= k < |Insert(x, s)| ==> low <= Insert(x, s)[k]
  {
    if s != [] && x > s[0] { InsertKeepsFloor(x, s[1..], low); }
  }

  lemma Prepended(low: int, s: seq<int>)
    requires Ascending(s) && forall k :: 0 <= k < |s| ==> low <= s[k]
    ensures Ascending([low] + s)
  {
  }

  lemma {:induction false} InsertAscends(x: int, s: seq<int>)
    requires Ascending(s)
    ensures Ascending(Insert(x, s))
  {
    if s != [] && x > s[0] {
      InsertAscends(x, s[1..]);
      InsertKeepsFloor(x, s[1..], s[0]);
      Prepended(s[0], Insert(x, s[1..]));
    }
  }

  lemma {:induction false} InsertCounts(x: int, s: seq<int>, y: int)
    ensures CountAtMost(Insert(x, s), y) == CountAtMost(s, y) + (if x <= y then 1 else 0)
    ensures CountAtLeast(Insert(x, s), y) == CountAtLeast(s, y) + (if x >= y then 1 else 0)
  {
    if s == [] || x <= s[0] {
      assert ([x] + s)[1..] == s;
    } else {
      InsertCounts(x, s[1..], y);
      assert ([s[0]] + Insert(x, s[1..]))[1..] == Insert(x, s[1..]);
    }
  }

  // Sorting gives an ascending permutation ...
  lemma {:induction false} SortSorts(s: seq<int>)
    ensures Ascending(Sort(s)) && multiset(Sort(s)) == multiset(s) && |Sort(s)| == |s|
  {
    if s != [] {
      SortSorts(s[1..]);
      InsertPermutes(s[0], Sort(s[1..]));
      InsertAscends(s[0], Sort(s[1..]));
      assert s == [s[0]] + s[1..];
      assert |multiset(Sort(s))| == |multiset(s)|;
    }
  }

  // ... and keeps every count.
  lemma {:induction false} SortCounts(s: seq<int>, y: int)
    ensures CountAtMost(Sort(s), y) == CountAtMost(s, y)
    ensures CountAtLeast(Sort(s), y) == CountAtLeast(s, y)
  {
    if s != [] {
      SortCounts(s[1..], y);
      InsertCounts(s[0], Sort(s[1..]), y);
    }
  }

  lemma {:induction false} AscendingCounts(s: seq<int>, i: nat)
    requires Ascending(s) && i < |s|
    ensures CountAtMost(s, s[i]) >= i + 1 && CountAtLeast(s, s[i]) >= |s| - i
    decreases |s|
  {
    if i > 0 {
      AscendingCounts(s[1..], i - 1);
    } else {
      AllAtLeast(s, s[0]);
    }
  }

  lemma {:induction false} AllAtLeast(s: seq<int>, x: int)
    requires forall k :: 0 <= k < |s| ==> x <= s[k]
    ensures CountAtLeast(s, x) == |s|
  {
    if s != [] { AllAtLeast(s[1..], x); }
  }

  function P50(s: seq<int>): int
    requires s != []
  {
    SortSorts(s);
    Sort(s)[|s| / 2]
  }

  // int(n * 0.99), capped at the last sample
  function P99Index(n: nat): (i: nat)
    requires n > 0
    ensures i < n
  {
    if 99 * n / 100 < n - 1 then 99 * n / 100 else n - 1
  }

  function P99(s: seq<int>): int
    requires s != []
  {
    SortSorts(s);
    Sort(s)[P99Index(|s|)]
  }

  // The value at a position of the sorted samples: a sample, with enough of them on either side.
  lemma SortedAt(s: seq<int>, k: nat)
    requires k < |s|
    ensures |Sort(s)| == |s| && Sort(s)[k] in s
    ensures CountAtMost(s, Sort(s)[k]) >= k + 1 && CountAtLeast(s, Sort(s)[k]) >= |s| - k
  {
    SortSorts(s);
    SortCounts(s, Sort(s)[k]);
    AscendingCounts(Sort(s), k);
    assert Sort(s)[k] in multiset(Sort(s));
  }

  lemma Positions(n: nat)
    requires n > 0
    ensures n / 2 <= P99Index(n) < n
    ensures 2 * (n / 2 + 1) > n && 2 * (n - n / 2) >= n && 100 * (P99Index(n) + 1) > 99 * n
  {
  }

  lemma SortedInOrder(s: seq<int>, i: nat, k: nat)
    requires i <= k < |s|
    ensures |Sort(s)| == |s| && Sort(s)[i] <= Sort(s)[k]
  {
    SortSorts(s);
  }

  lemma {:induction false} FewBelow(s: seq<int>, k: nat, y: int)
    requires Ascending(s) && k < |s| && y < s[k]
    ensures CountAtMost(s, y) <= k
    decreases |s|
  {
    if k > 0 {
      FewBelow(s[1..], k - 1, y);
    } else {
      NoneAtMost(s, y);
    }
  }

  lemma {:induction false} NoneAtMost(s: seq<int>, y: int)
    requires forall k :: 0 <= k < |s| ==> y < s[k]
    ensures CountAtMost(s, y) == 0
  {
    if s != [] { NoneAtMost(s[1..], y); }
  }

  // Whatever has more than k samples at most it is at least the sorted value at k.
  lemma LeastAt(s: seq<int>, k: nat, y: int)
    requires k < |s| && CountAtMost(s, y) > k
    ensures |Sort(s)| == |s| && Sort(s)[k] <= y
  {
    SortSorts(s);
    SortCounts(s, y);
    if y < Sort(s)[k] { FewBelow(Sort(s), k, y); }
  }

  // Each is the least sample with more than half, and more than 99%, of the samples at most it: this says
  // which numbers they are.
  lemma PercentilesAreLeast(s: seq<int>, y: int)
    requires s != []
    ensures 2 * CountAtMost(s, P50(s)) > |s| && 100 * CountAtMost(s, P99(s)) > 99 * |s|
    ensures 2 * CountAtMost(s, y) > |s| ==> P50(s) <= y
    ensures 100 * CountAtMost(s, y) > 99 * |s| ==> P99(s) <= y
  {
    PercentilesAreRight(s);
    if 2 * CountAtMost(s, y) > |s| { LeastAt(s, |s| / 2, y); }
    if 100 * CountAtMost(s, y) > 99 * |s| { LeastAt(s, P99Index(|s|), y); }
  }

  // Both values are samples, in order; more than half and more than 99% of the samples are at most
  // them, and at least half are at least the first.
  lemma PercentilesAreRight(s: seq<int>)
    requires s != []
    ensures P50(s) in s && P99(s) in s && P50(s) <= P99(s)
    ensures 2 * CountAtMost(s, P50(s)) > |s| && 2 * CountAtLeast(s, P50(s)) >= |s|
    ensures 100 * CountAtMost(s, P99(s)) > 99 * |s|
  {
    Positions(|s|);
    SortedAt(s, |s| / 2);
    SortedAt(s, P99Index(|s|));
    SortedInOrder(s, |s| / 2, P99Index(|s|));
  }
}
