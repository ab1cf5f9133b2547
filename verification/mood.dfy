/** The mood ledger (src/services/MoodTracking.ts).

    Mood samples are appended to one key of the browser store. The average
    and the trend look only at the samples of the last `days` days before
    `now`; the trend compares the average of the older half of those
    samples with that of the newer half. The clock is a parameter. */
module Mood {
  import opened Common
  import opened Types

  datatype Trend = Improving | Declining | Stable

  const MsInDay: int := 86400000

  /** The default window of `getAverageMood` and `getMoodTrend`. */
  const DefaultDays: int := 7

  /** A difference of averages smaller than this in magnitude is stable. */
  const StableBand: real := 0.3

  // ---------------------------------------------------------------------
  // Store access
  // ---------------------------------------------------------------------

  /** `getMoodEntries`: the stored list, or nothing when the key is absent
      or its content unreadable. */
  function GetMoodEntries(store: LocalStore): (r: seq<MoodEntry>)
    ensures store.moods.Holds? ==> r == store.moods.value
    ensures !store.moods.Holds? ==> r == []
  {
    match store.moods
    case Holds(entries) => entries
    case _ => []
  }

  /** `saveMoodEntry`: the entry, stamped with `now`, is appended to what
      `getMoodEntries` reads, and the list is written back. An unreadable
      list is thereby replaced. The value is stored as given. */
  function SaveMoodEntry(store: LocalStore, now: int, value: real, note: Option<string>): (r: LocalStore)
    ensures r.moods == Holds(GetMoodEntries(store) + [MoodEntry(now, value, note)])
    ensures r.sessions == store.sessions && r.settings == store.settings
  {
    store.(moods := Holds(GetMoodEntries(store) + [MoodEntry(now, value, note)]))
  }

  /** `clearMoodEntries`: the key is removed. */
  function ClearMoodEntries(store: LocalStore): (r: LocalStore)
    ensures GetMoodEntries(r) == []
    ensures r.sessions == store.sessions && r.settings == store.settings
  {
    store.(moods := Absent)
  }

  // ---------------------------------------------------------------------
  // Window, sums and averages
  // ---------------------------------------------------------------------

  /** The window test: at most `days` whole days old. Entries dated after
      `now` pass as well. */
  predicate InWindow(e: MoodEntry, now: int, days: int)
  {
    now - e.timestamp <= days * MsInDay
  }

  /** The entries inside the window, in stored order. */
  function Recent(entries: seq<MoodEntry>, now: int, days: int): (r: seq<MoodEntry>)
    ensures |r| <= |entries|
    ensures forall i :: 0 <= i < |r| ==> r[i] in entries && InWindow(r[i], now, days)
    ensures forall i :: 0 <= i < |entries| && InWindow(entries[i], now, days) ==> entries[i] in r
    ensures multiset(r) <= multiset(entries)
  {
    if entries == [] then []
    else
      assert entries == [entries[0]] + entries[1..];
      var rest := Recent(entries[1..], now, days);
      if InWindow(entries[0], now, days) then [entries[0]] + rest else rest
  }

  function Sum(entries: seq<MoodEntry>): real
  {
    if entries == [] then 0.0 else entries[0].value + Sum(entries[1..])
  }

  /** `reduce(...) / length`. */
  function Mean(entries: seq<MoodEntry>): real
    requires entries != []
  {
    Sum(entries) / (|entries| as real)
  }

  predicate IsLowest(entries: seq<MoodEntry>, v: real)
  {
    (exists i | 0 <= i < |entries| :: entries[i].value == v)
    && forall i :: 0 <= i < |entries| ==> v <= entries[i].value
  }

  predicate IsHighest(entries: seq<MoodEntry>, v: real)
  {
    (exists i | 0 <= i < |entries| :: entries[i].value == v)
    && forall i :: 0 <= i < |entries| ==> entries[i].value <= v
  }

  /** A sum lies between the count times any lower bound and the count
      times any upper bound of the values. */
  lemma {:induction false} SumBounds(entries: seq<MoodEntry>, lo: real, hi: real)
    requires forall i :: 0 <= i < |entries| ==> lo <= entries[i].value <= hi
    ensures (|entries| as real) * lo <= Sum(entries) <= (|entries| as real) * hi
  {
    if entries != [] {
      SumBounds(entries[1..], lo, hi);
    }
  }

  /** A mean lies between the lowest and the highest value. */
  lemma MeanBetween(entries: seq<MoodEntry>, lo: real, hi: real)
    requires entries != []
    requires forall i :: 0 <= i < |entries| ==> lo <= entries[i].value <= hi
    ensures lo <= Mean(entries) <= hi
  {
    SumBounds(entries, lo, hi);
    var n := |entries| as real;
    assert n * lo <= Sum(entries) <= n * hi;
  }

  /** `getAverageMood(days)`: no value for an empty window, otherwise the
      mean of the windowed values. */
  function AverageMood(store: LocalStore, now: int, days: int): (r: Option<real>)
    ensures r.None? <==> Recent(GetMoodEntries(store), now, days) == []
    ensures r.Some? ==> r.value == Mean(Recent(GetMoodEntries(store), now, days))
  {
    var recentEntries := Recent(GetMoodEntries(store), now, days);
    if |recentEntries| == 0 then None else Some(Mean(recentEntries))
  }

  // ---------------------------------------------------------------------
  // Stable sort by timestamp
  // ---------------------------------------------------------------------

  predicate SortedByTime(s: seq<MoodEntry>)
  {
    forall i, j :: 0 <= i < j < |s| ==> s[i].timestamp <= s[j].timestamp
  }

  /** The entries stamped `t`, in order. */
  function WithTime(s: seq<MoodEntry>, t: int): (r: seq<MoodEntry>)
    ensures |r| <= |s|
  {
    if s == [] then []
    else if s[0].timestamp == t then [s[0]] + WithTime(s[1..], t)
    else WithTime(s[1..], t)
  }

  /** Puts `x` in front of the first entry not older than it. */
  function Insert(x: MoodEntry, s: seq<MoodEntry>): (r: seq<MoodEntry>)
    requires SortedByTime(s)
    ensures SortedByTime(r)
    ensures multiset(r) == multiset{x} + multiset(s)
    ensures |r| == |s| + 1
    ensures r[0] == x || (s != [] && r[0] == s[0])
  {
    if s == [] || x.timestamp <= s[0].timestamp then
      [x] + s
    else
      var rest := Insert(x, s[1..]);
      assert s == [s[0]] + s[1..];
      assert s[0].timestamp <= rest[0].timestamp;
      [s[0]] + rest
  }

  /** `.sort((a, b) => a.timestamp - b.timestamp)`, the array sort being
      stable: entries with equal stamps keep their order. */
  function SortByTime(s: seq<MoodEntry>): (r: seq<MoodEntry>)
    ensures SortedByTime(r)
    ensures multiset(r) == multiset(s)
    ensures |r| == |s|
  {
    if s == [] then []
    else
      assert s == [s[0]] + s[1..];
      Insert(s[0], SortByTime(s[1..]))
  }

  /** Inserting `x` adds it in front of the entries with its own stamp and
      leaves the entries with every other stamp as they were. */
  lemma {:induction false} InsertKeepsOrder(x: MoodEntry, s: seq<MoodEntry>, t: int)
    requires SortedByTime(s)
    ensures WithTime(Insert(x, s), t) == if x.timestamp == t then [x] + WithTime(s, t) else WithTime(s, t)
  {
    if s == [] || x.timestamp <= s[0].timestamp {
      assert ([x] + s)[1..] == s;
    } else {
      InsertKeepsOrder(x, s[1..], t);
      assert ([s[0]] + Insert(x, s[1..]))[1..] == Insert(x, s[1..]);
      if x.timestamp == t {
        assert s[0].timestamp < t;
      }
    }
  }

  /** The sort is stable: for every stamp, the entries with that stamp
      appear in the same order before and after. */
  lemma {:induction false} SortIsStable(s: seq<MoodEntry>, t: int)
    ensures WithTime(SortByTime(s), t) == WithTime(s, t)
  {
    if s != [] {
      SortIsStable(s[1..], t);
      InsertKeepsOrder(s[0], SortByTime(s[1..]), t);
    }
  }

  // ---------------------------------------------------------------------
  // Trend
  // ---------------------------------------------------------------------

  /** The verdict on the difference of the two half averages. */
  function Classify(difference: real): (r: Trend)
    ensures r == Stable <==> -StableBand < difference < StableBand
    ensures r == Improving <==> difference >= StableBand
    ensures r == Declining <==> difference <= -StableBand
  {
    var magnitude := if difference < 0.0 then -difference else difference;
    if magnitude < StableBand then Stable
    else if difference > 0.0 then Improving
    else Declining
  }

  /** The windowed entries in time order. */
  function Timeline(store: LocalStore, now: int, days: int): (r: seq<MoodEntry>)
    ensures SortedByTime(r)
    ensures multiset(r) == multiset(Recent(GetMoodEntries(store), now, days))
  {
    SortByTime(Recent(GetMoodEntries(store), now, days))
  }

  /** `getMoodTrend(days)`: no value with fewer than two windowed entries;
      otherwise the time-ordered entries are split after the first
      ⌊n/2⌋, so that the newer half gets the extra entry of an odd count,
      and the difference of the half means is classified. */
  function MoodTrend(store: LocalStore, now: int, days: int): (r: Option<Trend>)
    ensures r.None? <==> |Recent(GetMoodEntries(store), now, days)| < 2
    ensures r.Some? ==>
      var s := Timeline(store, now, days);
      var half := |s| / 2;
      && 1 <= half <= |s| - half <= half + 1
      && r.value == Classify(Mean(s[half..]) - Mean(s[..half]))
  {
    var recentEntries := Timeline(store, now, days);
    if |recentEntries| < 2 then None
    else
      var half := |recentEntries| / 2;
      var firstHalf := recentEntries[..half];
      var secondHalf := recentEntries[half..];
      Some(Classify(Mean(secondHalf) - Mean(firstHalf)))
  }
}
