/** Sliding windows over time stamps, as used by the recovery safety state and by the login limiter.

    A writer counts the stamps younger than some span before it appends a new one. This module says what
    that buys: a bound on the stamps in *every* interval of that length, and a bound on how many stamps a
    pruned list can hold. */
module SlidingWindow {
  import opened Prelude

  ghost predicate Sorted(s: seq<int>) {
    forall i, j :: 0 <= i <= j < |s| ==> s[i] <= s[j]
  }

  /** Two stamps that are `m` or more places apart are at least `w` apart in time. */
  ghost predicate Spaced(s: seq<int>, m: nat, w: int) {
    forall i, j :: 0 <= i && i + m <= j < |s| ==> s[j] - s[i] >= w
  }

  /** One more stamp taken at `now` keeps the list spaced. */
  ghost predicate NextFits(s: seq<int>, m: nat, w: int, now: int) {
    |s| < m || (m > 0 && now - s[|s| - m] >= w)
  }

  /** The number of stamps in the half-open interval from `from` to `to`. */
  function CountIn(s: seq<int>, from: int, to: int): nat {
    if s == [] then 0
    else CountIn(s[..|s| - 1], from, to) + if from <= s[|s| - 1] < to then 1 else 0
  }

  /** The stamps younger than `span` at time `now`. */
  function Within(s: seq<int>, span: int, now: int): seq<int> {
    if s == [] then []
    else (if now - s[0] < span then [s[0]] else []) + Within(s[1..], span, now)
  }

  /** In a sorted list the young stamps are exactly a suffix. */
  lemma {:induction false} WithinIsSuffix(s: seq<int>, span: int, now: int)
    requires Sorted(s)
    ensures var kept := Within(s, span, now);
            && |kept| <= |s|
            && kept == s[|s| - |kept|..]
            && (forall j :: 0 <= j < |s| - |kept| ==> now - s[j] >= span)
            && (forall j :: |s| - |kept| <= j < |s| ==> now - s[j] < span)
  {
    if s != [] {
      if now - s[0] < span {
        assert forall j :: 0 <= j < |s| ==> s[0] <= s[j];
        AllYoungKept(s, span, now);
        assert s[0..] == s;
      } else {
        var tail := s[1..];
        assert Sorted(tail);
        WithinIsSuffix(tail, span, now);
        assert Within(s, span, now) == [] + Within(tail, span, now) == Within(tail, span, now);
        assert forall j :: 1 <= j < |s| ==> s[j] == tail[j - 1];
      }
    }
  }

  lemma SpacedExtends(s: seq<int>, m: nat, w: int, now: int)
    requires Sorted(s) && Spaced(s, m, w) && NextFits(s, m, w, now)
    requires s != [] ==> s[|s| - 1] <= now
    ensures Sorted(s + [now]) && Spaced(s + [now], m, w)
  {
    assert forall i :: 0 <= i < |s| ==> s[i] <= now;
  }

  lemma {:induction false} CountSkips(s: seq<int>, k: nat, from: int, to: int)
    requires k <= |s| && forall i :: 0 <= i < k ==> s[i] < from
    ensures CountIn(s, from, to) <= |s| - k
  {
    if |s| > 0 {
      CountSkips(s[..|s| - 1], if k < |s| then k else k - 1, from, to);
    }
  }

  /** Any interval of length `w`, wherever it starts, holds at most `m` stamps, in whatever order they were taken. */
  lemma {:induction false} SpacedBoundsEveryWindow(s: seq<int>, m: nat, w: int, from: int)
    requires Spaced(s, m, w)
    ensures CountIn(s, from, from + w) <= m
  {
    var n := |s|;
    if n > 0 {
      if from <= s[n - 1] < from + w {
        if m <= n - 1 {
          assert s[n - 1] - s[n - 1 - m] >= w;
          CountSkips(s, n - m, from, from + w);
        } else {
          CountSkips(s, 0, from, from + w);
        }
      } else {
        SpacedBoundsEveryWindow(s[..n - 1], m, w, from);
      }
    }
  }

  lemma {:induction false} EmptyInterval(s: seq<int>, from: int, to: int)
    requires to <= from
    ensures CountIn(s, from, to) == 0
  {
    if s != [] {
      EmptyInterval(s[..|s| - 1], from, to);
    }
  }

  lemma {:induction false} CountGrows(s: seq<int>, from: int, to: int, later: int)
    requires to <= later
    ensures CountIn(s, from, to) <= CountIn(s, from, later)
  {
    if s != [] {
      CountGrows(s[..|s| - 1], from, to, later);
    }
  }

  lemma {:induction false} CountAll(s: seq<int>, from: int, to: int)
    requires forall j :: 0 <= j < |s| ==> from <= s[j] < to
    ensures CountIn(s, from, to) == |s|
  {
    if s != [] {
      CountAll(s[..|s| - 1], from, to);
    }
  }

  /** The number of whole steps of `gap` that begin within `span`. */
  function Steps(span: int, gap: int): int
    requires gap >= 1
  {
    (span + gap - 1) / gap
  }

  lemma StepsIff(span: int, gap: int, k: int)
    requires gap >= 1
    ensures Steps(span, gap) >= k <==> (k - 1) * gap < span
  {
    var q, r := Steps(span, gap), (span + gap - 1) % gap;
    assert q * gap + r == span + gap - 1;
    if q >= k {
      assert (k - 1) * gap <= (q - 1) * gap;
    } else {
      assert q * gap <= (k - 1) * gap;
    }
  }

  /** The stamps that find room within `span`: for every window that begins within it `m`, or as many as `gap` allows. */
  function Room(m: nat, w: int, gap: int, span: int): nat
    requires w >= 1 && gap >= 1
    decreases Max(0, span)
  {
    if span <= 0 then 0 else Min(m, Max(0, Steps(span, gap))) + Room(m, w, gap, span - w)
  }

  /** When a window has time for `m` stamps, that is `m` for each window that fits, and what the last one has time for. */
  lemma {:induction false} RoomCountsWindows(m: nat, w: int, gap: int, span: int, q: nat)
    requires w >= 1 && gap >= 1 && (m - 1) * gap < w
    requires q >= 1 && w * (q - 1) < span <= w * q
    ensures Room(m, w, gap, span) == m * (q - 1) + Min(m, Steps(span - w * (q - 1), gap))
    decreases q
  {
    hide Steps;
    StepsIff(span, gap, 1);
    Distributes(w, q);
    if q == 1 {
      assert w * 0 == 0 && m * 0 == 0;
    } else {
      Distributes(w, q - 1);
      Distributes(m, q - 1);
      StepsIff(span, gap, m);
      RoomCountsWindows(m, w, gap, span - w, q - 1);
    }
  }

  lemma Distributes(a: int, q: int)
    ensures a * q == a * (q - 1) + a
    ensures q >= 1 && a >= 0 ==> a * (q - 1) >= 0
  {
  }

  lemma {:induction false} GapsAddUp(s: seq<int>, gap: int, n: nat)
    requires Spaced(s, 1, gap) && n < |s|
    ensures s[n] - s[0] >= n * gap
  {
    if n > 0 {
      GapsAddUp(s, gap, n - 1);
      assert s[n] - s[n - 1] >= gap;
      assert (n - 1) * gap + gap == n * gap;
    }
  }

  lemma PrefixSpaced(s: seq<int>, k: nat, m: nat, w: int)
    requires Spaced(s, m, w) && k <= |s|
    ensures Spaced(s[..k], m, w)
  {
  }

  lemma LastIsFar(s: seq<int>, m: nat, w: int)
    requires Spaced(s, m, w) && |s| > m
    ensures forall j :: 0 <= j < |s| - m ==> s[|s| - 1] - s[j] >= w
  {
  }

  lemma GapsFit(s: seq<int>, gap: int, span: int, n: nat)
    requires gap >= 1 && Spaced(s, 1, gap) && n <= |s|
    requires n > 0 ==> s[n - 1] - s[0] < span
    ensures n > 0 ==> Steps(span, gap) >= n
  {
    hide Steps;
    if n > 0 {
      GapsAddUp(s, gap, n - 1);
      StepsIff(span, gap, n);
    }
  }

  /** Pigeonhole: a spaced list whose stamps are all younger than `span` has at most its room. */
  lemma {:induction false} SpacedBoundsLength(s: seq<int>, m: nat, w: int, gap: int, span: int, now: int)
    requires w >= 1 && gap >= 1 && Spaced(s, m, w) && Spaced(s, 1, gap)
    requires forall j :: 0 <= j < |s| ==> now - s[j] < span && s[j] <= now
    ensures |s| <= Room(m, w, gap, span)
    decreases Max(0, span)
  {
    hide Steps, Spaced;
    if s != [] {
      assert now - s[0] < span && s[0] <= now;
      GapsFit(s, gap, span, if |s| > m then m else |s|);
      if |s| > m {
        var older := s[..|s| - m];
        LastIsFar(s, m, w);
        PrefixSpaced(s, |s| - m, m, w);
        PrefixSpaced(s, |s| - m, 1, gap);
        SpacedBoundsLength(older, m, w, gap, span - w, now - w);
      }
    }
  }

  /** Counting the young stamps of a retained suffix decides whether one more stamp fits the whole list. */
  lemma FewRecentMeansNextFits(all: seq<int>, kept: seq<int>, m: nat, w: int, now: int)
    requires Sorted(all) && |kept| <= |all| && kept == all[|all| - |kept|..]
    requires forall j :: 0 <= j < |all| - |kept| ==> now - all[j] >= w
    requires |Within(kept, w, now)| < m
    ensures NextFits(all, m, w, now)
  {
    WithinIsSuffix(kept, w, now);
    if |all| >= m {
      var i := |all| - m;
      var d := |all| - |kept|;
      if i >= d {
        assert all[i] == kept[i - d];
      }
    }
  }

  lemma NextFitsLater(s: seq<int>, m: nat, w: int, now: int, later: int)
    requires NextFits(s, m, w, now) && now <= later
    ensures NextFits(s, m, w, later)
  {
  }

  /** And a stamp that fits the whole list is permitted by that count. */
  lemma NextFitsMeansFewRecent(s: seq<int>, m: nat, w: int, now: int)
    requires Sorted(s) && NextFits(s, m, w, now)
    ensures |Within(s, w, now)| < m
  {
    WithinIsSuffix(s, w, now);
    if |s| >= m {
      assert now - s[|s| - m] >= w;
    }
  }

  lemma SuffixSorted(s: seq<int>, k: nat)
    requires Sorted(s) && k <= |s|
    ensures Sorted(s[k..])
  {
  }

  lemma PrefixSorted(s: seq<int>, k: nat)
    requires Sorted(s) && k <= |s|
    ensures Sorted(s[..k])
  {
  }

  lemma SuffixSpaced(s: seq<int>, k: nat, m: nat, w: int)
    requires Spaced(s, m, w) && k <= |s|
    ensures Spaced(s[k..], m, w)
  {
  }

  /** A retained suffix of a list that one more stamp fits leaves one of its own places free. */
  lemma PrunedLength(all: seq<int>, kept: seq<int>, m: nat, w: int, gap: int, span: int, now: int)
    requires w >= 1 && gap >= 1 && Sorted(all) && Spaced(all, m, w) && NextFits(all, m, w, now)
    requires Spaced(all, 1, gap) && NextFits(all, 1, gap, now)
    requires all != [] ==> all[|all| - 1] <= now
    requires |kept| <= |all| && kept == all[|all| - |kept|..]
    requires forall j :: 0 <= j < |kept| ==> now - kept[j] < span
    requires 0 < span
    ensures |kept| < Room(m, w, gap, span)
  {
    hide Sorted, Spaced, NextFits, Room;
    var k := |all| - |kept|;
    var more := (all + [now])[k..];
    SpacedExtends(all, m, w, now);
    SpacedExtends(all, 1, gap, now);
    SuffixWithNext(all, k, now);
    SuffixSorted(all + [now], k);
    SuffixSpaced(all + [now], k, m, w);
    SuffixSpaced(all + [now], k, 1, gap);
    SortedUpTo(more);
    SpacedBoundsLength(more, m, w, gap, span, now);
  }

  lemma SuffixWithNext(s: seq<int>, k: nat, now: int)
    requires k <= |s|
    ensures (s + [now])[k..] == s[k..] + [now]
  {
  }

  lemma SortedUpTo(s: seq<int>)
    requires Sorted(s)
    ensures forall j :: 0 <= j < |s| ==> s[j] <= s[|s| - 1]
  {
  }

  // ---------------------------------------------------------------------------------------------------
  // A stored list that forgets old stamps.

  /** The stored stamps are the live ones without some that pruning may forget. */
  ghost predicate Retains(attempts: seq<int>, live: seq<int>, retention: int, now: int) {
    && |attempts| <= |live|
    && attempts == live[|live| - |attempts|..]
    && forall j :: 0 <= j < |live| - |attempts| ==> now - live[j] >= retention
  }

  lemma RetainedShape(kept: seq<int>, live: seq<int>, retention: int, now: int)
    requires Retains(kept, live, retention, now)
    ensures |kept| <= |live| && kept == live[|live| - |kept|..]
    ensures forall j :: 0 <= j < |live| - |kept| ==> now - live[j] >= retention
  {
  }

  lemma RetainsNothing(retention: int, now: int)
    ensures Retains([], [], retention, now)
  {
  }

  lemma RetainedAreLive(attempts: seq<int>, live: seq<int>, retention: int, now: int)
    requires Retains(attempts, live, retention, now)
    ensures forall t :: t in attempts ==> t in live
  {
  }

  lemma RetainsPruned(attempts: seq<int>, live: seq<int>, retention: int, now: int)
    requires Sorted(live) && Retains(attempts, live, retention, now)
    ensures Retains(Within(attempts, retention, now), live, retention, now)
  {
    SuffixSorted(live, |live| - |attempts|);
    WithinIsSuffix(attempts, retention, now);
    var kept := Within(attempts, retention, now);
    assert kept == live[|live| - |kept|..];
    forall j | 0 <= j < |live| - |kept| ensures now - live[j] >= retention {
      var d := |live| - |attempts|;
      if j >= d {
        assert live[j] == attempts[j - d];
      }
    }
  }

  lemma RetainsLater(attempts: seq<int>, live: seq<int>, retention: int, now: int, later: int)
    requires Retains(attempts, live, retention, now) && now <= later
    ensures Retains(attempts, live, retention, later)
  {
  }

  lemma RetainsAppended(attempts: seq<int>, live: seq<int>, retention: int, now: int)
    requires Retains(attempts, live, retention, now)
    ensures Retains(attempts + [now], live + [now], retention, now)
  {
    assert (live + [now])[|live| - |attempts|..] == live[|live| - |attempts|..] + [now];
  }

  lemma RetainsPopped(attempts: seq<int>, live: seq<int>, last: int, retention: int, now: int)
    requires Retains(attempts, live + [last], retention, now)
    ensures Retains(if attempts == [] then [] else attempts[..|attempts| - 1], live, retention, now)
    ensures attempts != [] ==> attempts[|attempts| - 1] == last
  {
    var all := live + [last];
    forall j | 0 <= j < |live| && j < |all| - |attempts| ensures now - live[j] >= retention {
      assert all[j] == live[j];
    }
    if attempts != [] {
      assert attempts[..|attempts| - 1] == live[|live| - (|attempts| - 1)..];
    }
  }

  lemma {:induction false} AllYoungKept(s: seq<int>, span: int, now: int)
    requires forall j :: 0 <= j < |s| ==> now - s[j] < span
    ensures Within(s, span, now) == s
  {
    if s != [] {
      AllYoungKept(s[1..], span, now);
    }
  }

  lemma WithinCons(x: int, s: seq<int>, span: int, now: int)
    ensures Within([x] + s, span, now) == (if now - x < span then [x] else []) + Within(s, span, now)
  {
    assert ([x] + s)[1..] == s;
  }

  /** What is young for a short span is what is young for it among what is young for a long one. */
  lemma {:induction false} WithinWithin(s: seq<int>, long: int, short: int, now: int)
    requires short <= long
    ensures Within(Within(s, long, now), short, now) == Within(s, short, now)
  {
    if s != [] {
      WithinWithin(s[1..], long, short, now);
      var rest := Within(s[1..], long, now);
      assert ([s[0]] + rest)[1..] == rest;
      assert [] + rest == rest;
    }
  }

  lemma {:induction false} WithinConcat(a: seq<int>, b: seq<int>, span: int, now: int)
    ensures Within(a + b, span, now) == Within(a, span, now) + Within(b, span, now)
  {
    hide Within;
    if a == [] {
      NothingWithin(span, now);
      assert a + b == b;
    } else {
      WithinConcat(a[1..], b, span, now);
      WithinCons(a[0], a[1..] + b, span, now);
      WithinCons(a[0], a[1..], span, now);
      assert a == [a[0]] + a[1..] && a + b == [a[0]] + (a[1..] + b);
    }
  }

  lemma NothingWithin(span: int, now: int)
    ensures Within([], span, now) == []
  {
  }

  lemma {:induction false} CountSuffix(s: seq<int>, k: nat, from: int, to: int)
    requires k <= |s| && forall j :: |s| - k <= j < |s| ==> from <= s[j] < to
    ensures CountIn(s, from, to) >= k
  {
    if k > 0 {
      CountSuffix(s[..|s| - 1], k - 1, from, to);
    }
  }

  /** Stamps `gap` apart are `m` gaps apart when `m` places are between them. */
  lemma SpacedMultiplies(s: seq<int>, gap: int, m: nat)
    requires Spaced(s, 1, gap) && gap >= 0
    ensures Spaced(s, m, gap * m)
  {
    forall i, j | 0 <= i && i + m <= j < |s| ensures s[j] - s[i] >= gap * m {
      SuffixSpaced(s, i, 1, gap);
      GapsAddUp(s[i..], gap, j - i);
      assert (j - i) * gap >= m * gap;
    }
  }
}
