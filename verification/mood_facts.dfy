/** Properties of the mood ledger. */
module MoodFacts {
  import opened Common
  import opened Types
  import opened Mood

  /** Saving appends exactly one entry, with the value as given, after the
      earlier entries in their order. */
  lemma SaveAppendsOne(store: LocalStore, now: int, value: real, note: Option<string>)
    ensures var before := GetMoodEntries(store);
      var after := GetMoodEntries(SaveMoodEntry(store, now, value, note));
      |after| == |before| + 1 && after[..|before|] == before
      && after[|before|] == MoodEntry(now, value, note)
  {
    var before := GetMoodEntries(store);
    assert (before + [MoodEntry(now, value, note)])[..|before|] == before;
  }

  /** Saving over an unreadable list keeps only the new entry. */
  lemma SaveOverUnreadable(store: LocalStore, now: int, value: real)
    requires store.moods == Unreadable
    ensures GetMoodEntries(SaveMoodEntry(store, now, value, None)) == [MoodEntry(now, value, None)]
  {
  }

  /** Clearing and reading back gives nothing, whatever was stored. */
  lemma ClearThenRead(store: LocalStore)
    ensures GetMoodEntries(ClearMoodEntries(store)) == []
    ensures AverageMood(ClearMoodEntries(store), 0, DefaultDays) == None
  {
  }

  /** The window bound is inclusive, and entries stamped after `now` are
      inside it. */
  lemma WindowBoundary(now: int, days: int, value: real)
    ensures InWindow(MoodEntry(now - days * MsInDay, value, None), now, days)
    ensures !InWindow(MoodEntry(now - days * MsInDay - 1, value, None), now, days)
    ensures days >= 0 ==> InWindow(MoodEntry(now + 1, value, None), now, days)
  {
  }

  /** The average lies between the lowest and highest windowed value. */
  lemma AverageBetweenExtremes(store: LocalStore, now: int, days: int, lo: real, hi: real)
    requires AverageMood(store, now, days).Some?
    requires IsLowest(Recent(GetMoodEntries(store), now, days), lo)
    requires IsHighest(Recent(GetMoodEntries(store), now, days), hi)
    ensures lo <= AverageMood(store, now, days).value <= hi
  {
    MeanBetween(Recent(GetMoodEntries(store), now, days), lo, hi);
  }

  /** Sorting a list that is already in time order changes nothing. */
  lemma {:induction false} SortKeepsSorted(s: seq<MoodEntry>)
    requires SortedByTime(s)
    ensures SortByTime(s) == s
  {
    if s != [] {
      SortKeepsSorted(s[1..]);
      assert s == [s[0]] + s[1..];
    }
  }

  /** Sorting twice is sorting once. */
  lemma SortIdempotent(s: seq<MoodEntry>)
    ensures SortByTime(SortByTime(s)) == SortByTime(s)
  {
    SortKeepsSorted(SortByTime(s));
  }

  /** The window keeps stored order: filtering a concatenation filters
      each part and concatenates the results. */
  lemma {:induction false} RecentConcat(a: seq<MoodEntry>, b: seq<MoodEntry>, now: int, days: int)
    ensures Recent(a + b, now, days) == Recent(a, now, days) + Recent(b, now, days)
  {
    if a == [] {
      assert a + b == b;
    } else {
      RecentConcat(a[1..], b, now, days);
      TailOfConcat(a, b);
      ConsAssoc(a[0], Recent(a[1..], now, days), Recent(b, now, days));
    }
  }

  // The head and tail of a concatenation with a non-empty left part.
  lemma TailOfConcat<T>(a: seq<T>, b: seq<T>)
    requires a != []
    ensures a + b != [] && (a + b)[0] == a[0] && (a + b)[1..] == a[1..] + b
  {
  }

  // Prepending one element is associative with concatenation.
  lemma ConsAssoc<T>(x: T, p: seq<T>, q: seq<T>)
    ensures [x] + (p + q) == ([x] + p) + q
  {
  }

  /** The window keeps every in-window entry as often as it is stored and
      drops every other entry. */
  lemma {:induction false} RecentCounts(entries: seq<MoodEntry>, now: int, days: int)
    ensures forall e :: multiset(Recent(entries, now, days))[e]
                        == if InWindow(e, now, days) then multiset(entries)[e] else 0
  {
    if entries != [] {
      var rest := Recent(entries[1..], now, days);
      RecentCounts(entries[1..], now, days);
      assert entries == [entries[0]] + entries[1..];
      assert multiset(entries) == multiset([entries[0]]) + multiset(entries[1..]);
      if InWindow(entries[0], now, days) {
        assert multiset([entries[0]] + rest) == multiset([entries[0]]) + multiset(rest);
      }
    }
  }

  /** A window that every entry falls into keeps the list as it is. */
  lemma {:induction false} RecentKeepsAll(entries: seq<MoodEntry>, now: int, days: int)
    requires forall i :: 0 <= i < |entries| ==> InWindow(entries[i], now, days)
    ensures Recent(entries, now, days) == entries
  {
    if entries != [] {
      RecentKeepsAll(entries[1..], now, days);
      assert entries == [entries[0]] + entries[1..];
    }
  }

  // The sum of one entry is its value.
  lemma SumOne(a: MoodEntry)
    ensures Sum([a]) == a.value
  {
    assert [a][1..] == [];
  }

  // The sum of two entries is the sum of their values.
  lemma SumTwo(a: MoodEntry, b: MoodEntry)
    ensures Sum([a, b]) == a.value + b.value
  {
    assert [a, b][1..] == [b];
    SumOne(b);
  }

  // The mean of one entry is its value.
  lemma MeanOne(a: MoodEntry)
    ensures Mean([a]) == a.value
  {
    SumOne(a);
  }

  // The mean of two entries is the midpoint of their values.
  lemma MeanTwo(a: MoodEntry, b: MoodEntry)
    ensures Mean([a, b]) == (a.value + b.value) / 2.0
  {
    SumTwo(a, b);
  }

  // The halves of four entries have the means of their two pairs.
  lemma HalvesOfFour(a: MoodEntry, b: MoodEntry, c: MoodEntry, d: MoodEntry)
    ensures Mean([a, b, c, d][..2]) == (a.value + b.value) / 2.0
    ensures Mean([a, b, c, d][2..]) == (c.value + d.value) / 2.0
  {
    assert [a, b, c, d][..2] == [a, b];
    assert [a, b, c, d][2..] == [c, d];
    MeanTwo(a, b);
    MeanTwo(c, d);
  }

  function Sample(t: int, v: real): MoodEntry
  {
    MoodEntry(t, v, None)
  }

  /** Two samples of 2 and 4 in the last week average 3. */
  lemma AverageExample(now: int)
    ensures AverageMood(LocalStore(Holds([Sample(now, 2.0), Sample(now, 4.0)]), Absent, Absent), now, DefaultDays)
         == Some(3.0)
  {
    var w := [Sample(now, 2.0), Sample(now, 4.0)];
    RecentKeepsAll(w, now, DefaultDays);
    MeanTwo(w[0], w[1]);
    AverageOfWindow(LocalStore(Holds(w), Absent, Absent), now, DefaultDays, 3.0);
  }

  /** The average of a store whose windowed entries have a known mean. */
  lemma AverageOfWindow(store: LocalStore, now: int, days: int, mean: real)
    requires Recent(GetMoodEntries(store), now, days) != []
    requires Mean(Recent(GetMoodEntries(store), now, days)) == mean
    ensures AverageMood(store, now, days) == Some(mean)
  {
  }

  /** For a stored list already in time order and inside the window, the
      trend compares the means of its two halves directly. */
  lemma TrendOfOrderedWindow(store: LocalStore, now: int, days: int)
    requires var w := GetMoodEntries(store);
      |w| >= 2 && SortedByTime(w) && forall i :: 0 <= i < |w| ==> InWindow(w[i], now, days)
    ensures var w := GetMoodEntries(store);
      MoodTrend(store, now, days) == Some(Classify(Mean(w[|w| / 2..]) - Mean(w[..|w| / 2])))
  {
    var w := GetMoodEntries(store);
    RecentKeepsAll(w, now, days);
    SortKeepsSorted(w);
    assert Timeline(store, now, days) == w;
  }

  /** The trend of an ordered window whose half means are known. */
  lemma TrendFromMeans(store: LocalStore, now: int, days: int, older: real, newer: real)
    requires var w := GetMoodEntries(store);
      |w| >= 2 && SortedByTime(w) && forall i :: 0 <= i < |w| ==> InWindow(w[i], now, days)
    requires var w := GetMoodEntries(store);
      Mean(w[..|w| / 2]) == older && Mean(w[|w| / 2..]) == newer
    ensures MoodTrend(store, now, days) == Some(Classify(newer - older))
  {
    TrendOfOrderedWindow(store, now, days);
  }

  /** Samples 1, 1, 4, 5 in time order: the older half averages 1, the
      newer half 4.5, so the mood is improving. */
  lemma TrendExample(now: int)
    ensures var w := [Sample(now - 3, 1.0), Sample(now - 2, 1.0), Sample(now - 1, 4.0), Sample(now, 5.0)];
      MoodTrend(LocalStore(Holds(w), Absent, Absent), now, DefaultDays) == Some(Improving)
  {
    var w := [Sample(now - 3, 1.0), Sample(now - 2, 1.0), Sample(now - 1, 4.0), Sample(now, 5.0)];
    HalvesOfFour(w[0], w[1], w[2], w[3]);
    TrendFromMeans(LocalStore(Holds(w), Absent, Absent), now, DefaultDays, 1.0, 4.5);
    assert Classify(4.5 - 1.0) == Improving;
  }

  /** A difference of exactly 0.3 is already a trend, not stable. */
  lemma ThresholdIsNotStable(now: int)
    ensures var w := [Sample(now - 1, 1.0), Sample(now, 1.3)];
      MoodTrend(LocalStore(Holds(w), Absent, Absent), now, DefaultDays) == Some(Improving)
  {
    var w := [Sample(now - 1, 1.0), Sample(now, 1.3)];
    assert w[..1] == [w[0]];
    assert w[1..] == [w[1]];
    MeanOne(w[0]);
    MeanOne(w[1]);
    TrendFromMeans(LocalStore(Holds(w), Absent, Absent), now, DefaultDays, 1.0, 1.3);
    assert Classify(1.3 - 1.0) == Improving;
  }

  /** With an odd count the newer half gets the middle sample: 5 then 1, 1
      compares 5 with 1 and is declining. */
  lemma OddCountSplit(now: int)
    ensures var w := [Sample(now - 2, 5.0), Sample(now - 1, 1.0), Sample(now, 1.0)];
      MoodTrend(LocalStore(Holds(w), Absent, Absent), now, DefaultDays) == Some(Declining)
  {
    var w := [Sample(now - 2, 5.0), Sample(now - 1, 1.0), Sample(now, 1.0)];
    assert w[..1] == [w[0]];
    assert w[1..] == [w[1], w[2]];
    MeanOne(w[0]);
    MeanTwo(w[1], w[2]);
    TrendFromMeans(LocalStore(Holds(w), Absent, Absent), now, DefaultDays, 5.0, 1.0);
    assert Classify(1.0 - 5.0) == Declining;
  }
}
