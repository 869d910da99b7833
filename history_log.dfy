/**
 * The history view (components/HistoryLog.tsx): entries are grouped by local
 * calendar day, days are shown newest first, the entries of a day are shown
 * newest first, and an entry whose medication has been deleted is skipped.
 * The calendar is the parameter `dayOf`; its day number stands for the
 * `toLocaleDateString` key, which names one day uniquely.
 */
module History {
  import opened Types
  import opened Sequences

  // ---------------------------------------------------------------------------
  // Grouping by day
  // ---------------------------------------------------------------------------

  /** The entries of `history` that fall on day `d`, in the order they were recorded. */
  function DayEntries(history: seq<HistoryEntry>, dayOf: nat -> int, d: int): (r: seq<HistoryEntry>)
    ensures forall e {:trigger e in r} :: e in r <==> e in history && dayOf(e.timestamp) == d
    ensures |r| <= |history|
    decreases |history|
  {
    if history == [] then []
    else
      var last := history[|history| - 1];
      DayEntries(history[..|history| - 1], dayOf, d) + (if dayOf(last.timestamp) == d then [last] else [])
  }

  /** A day's group keeps the order in which its entries were recorded. */
  lemma {:induction false} DayEntriesKeepHistoryOrder(history: seq<HistoryEntry>, dayOf: nat -> int, d: int)
    ensures IsSubsequence(DayEntries(history, dayOf, d), history)
    decreases |history|
  {
    if history == [] {
      EmptyIsSubsequence(history);
    } else {
      var init, last := history[..|history| - 1], history[|history| - 1];
      assert history == init + [last];
      DayEntriesKeepHistoryOrder(init, dayOf, d);
      if dayOf(last.timestamp) == d {
        SubsequenceBothLonger(DayEntries(init, dayOf, d), init, last);
      } else {
        assert DayEntries(history, dayOf, d) == DayEntries(init, dayOf, d);
        SubsequenceOfLonger(DayEntries(init, dayOf, d), init, last);
      }
    }
  }

  /** The days of `history` in the order their first entry was recorded (`Object.keys` order). */
  function DayOrder(history: seq<HistoryEntry>, dayOf: nat -> int): (r: seq<int>)
    ensures Distinct(r)
    ensures forall d {:trigger d in r} :: d in r <==> DayEntries(history, dayOf, d) != []
    decreases |history|
  {
    if history == [] then []
    else
      var init := DayOrder(history[..|history| - 1], dayOf);
      var d := dayOf(history[|history| - 1].timestamp);
      if d in init then init else init + [d]
  }

  /** Recording one more entry extends only its own day's group. */
  lemma DayEntriesOfLonger(history: seq<HistoryEntry>, e: HistoryEntry, dayOf: nat -> int, d: int)
    ensures DayEntries(history + [e], dayOf, d)
         == DayEntries(history, dayOf, d) + (if dayOf(e.timestamp) == d then [e] else [])
  {
    assert (history + [e])[..|history|] == history;
  }

  /** Recording one more entry adds its day at the end, unless the day is already known. */
  lemma DayOrderOfLonger(history: seq<HistoryEntry>, e: HistoryEntry, dayOf: nat -> int)
    ensures var days := DayOrder(history, dayOf);
      DayOrder(history + [e], dayOf) == if dayOf(e.timestamp) in days then days else days + [dayOf(e.timestamp)]
  {
    assert (history + [e])[..|history|] == history;
  }

  /** The timestamp of the first entry recorded on day `d` (`groupedHistory[d][0].timestamp`). */
  function FirstTimestamp(history: seq<HistoryEntry>, dayOf: nat -> int, d: int): nat {
    var group := DayEntries(history, dayOf, d);
    if group == [] then 0 else group[0].timestamp
  }

  /** Two days that both occur in the history never share their first timestamp. */
  lemma FirstTimestampsDiffer(history: seq<HistoryEntry>, dayOf: nat -> int, d1: int, d2: int)
    requires DayEntries(history, dayOf, d1) != [] && DayEntries(history, dayOf, d2) != []
    requires d1 != d2
    ensures FirstTimestamp(history, dayOf, d1) != FirstTimestamp(history, dayOf, d2)
  {
    var e1, e2 := DayEntries(history, dayOf, d1)[0], DayEntries(history, dayOf, d2)[0];
    assert e1 in DayEntries(history, dayOf, d1) && e2 in DayEntries(history, dayOf, d2);
  }

  /** The groups of `days`, concatenated in that order. */
  function Concat(history: seq<HistoryEntry>, dayOf: nat -> int, days: seq<int>): seq<HistoryEntry>
    decreases |days|
  {
    if days == [] then []
    else Concat(history, dayOf, days[..|days| - 1]) + DayEntries(history, dayOf, days[|days| - 1])
  }

  lemma {:induction false} ConcatOfLongerHistory(history: seq<HistoryEntry>, e: HistoryEntry, dayOf: nat -> int, days: seq<int>)
    requires Distinct(days)
    ensures multiset(Concat(history + [e], dayOf, days))
         == multiset(Concat(history, dayOf, days))
            + (if dayOf(e.timestamp) in days then multiset{e} else multiset{})
    decreases |days|
  {
    if days != [] {
      var init, d := days[..|days| - 1], days[|days| - 1];
      assert days == init + [d];
      assert Distinct(init) && d !in init by {
        forall i, j | 0 <= i < j <= |init| ensures days[i] != days[j] { }
      }
      ConcatOfLongerHistory(history, e, dayOf, init);
      DayEntriesOfLonger(history, e, dayOf, d);
    }
  }

  lemma ConcatOfMoreDays(history: seq<HistoryEntry>, dayOf: nat -> int, days: seq<int>, d: int)
    ensures Concat(history, dayOf, days + [d]) == Concat(history, dayOf, days) + DayEntries(history, dayOf, d)
  {
    assert (days + [d])[..|days|] == days;
  }

  /** The groups, concatenated in `Object.keys` order, are a rearrangement of the history. */
  ghost predicate Partitioned(history: seq<HistoryEntry>, dayOf: nat -> int) {
    multiset(Concat(history, dayOf, DayOrder(history, dayOf))) == multiset(history)
  }

  /** An entry on a day already present joins that day's group. */
  lemma PartitionKnownDay(history: seq<HistoryEntry>, e: HistoryEntry, dayOf: nat -> int)
    requires Partitioned(history, dayOf)
    requires dayOf(e.timestamp) in DayOrder(history, dayOf)
    ensures Partitioned(history + [e], dayOf)
  {
    var days := DayOrder(history, dayOf);
    assert DayOrder(history + [e], dayOf) == days by {
      DayOrderOfLonger(history, e, dayOf);
    }
    assert multiset(Concat(history + [e], dayOf, days)) == multiset(Concat(history, dayOf, days)) + multiset{e} by {
      ConcatOfLongerHistory(history, e, dayOf, days);
    }
  }

  /** An entry on a new day opens a group of its own, after all the others. */
  lemma PartitionNewDay(history: seq<HistoryEntry>, e: HistoryEntry, dayOf: nat -> int)
    requires Partitioned(history, dayOf)
    requires dayOf(e.timestamp) !in DayOrder(history, dayOf)
    ensures Partitioned(history + [e], dayOf)
  {
    var days := DayOrder(history, dayOf);
    var d := dayOf(e.timestamp);
    assert DayOrder(history + [e], dayOf) == days + [d] by {
      DayOrderOfLonger(history, e, dayOf);
    }
    assert multiset(Concat(history + [e], dayOf, days)) == multiset(Concat(history, dayOf, days)) by {
      ConcatOfLongerHistory(history, e, dayOf, days);
    }
    assert Concat(history + [e], dayOf, days + [d]) == Concat(history + [e], dayOf, days) + [e] by {
      ConcatOfMoreDays(history + [e], dayOf, days, d);
      DayEntriesOfLonger(history, e, dayOf, d);
      assert DayEntries(history, dayOf, d) == [];
    }
  }

  /**
   * Every entry lands in exactly one group: concatenating the groups in
   * `Object.keys` order gives back the history, rearranged.
   */
  lemma {:induction false} GroupsPartitionHistory(history: seq<HistoryEntry>, dayOf: nat -> int)
    ensures Partitioned(history, dayOf)
    decreases |history|
  {
    if history != [] {
      var init, e := history[..|history| - 1], history[|history| - 1];
      assert Partitioned(init + [e], dayOf) by {
        GroupsPartitionHistory(init, dayOf);
        if dayOf(e.timestamp) in DayOrder(init, dayOf) {
          PartitionKnownDay(init, e, dayOf);
        } else {
          PartitionNewDay(init, e, dayOf);
        }
      }
      LastSplit(history);
    }
  }

  /** Group membership is decided by the entry's own day alone. */
  lemma EntryInOneGroup(history: seq<HistoryEntry>, dayOf: nat -> int, e: HistoryEntry, d: int)
    requires e in history
    ensures e in DayEntries(history, dayOf, d) <==> d == dayOf(e.timestamp)
  {
  }

  /** The dictionary the `reduce` builds: each entry pushed onto its day's array. */
  function GroupMap(history: seq<HistoryEntry>, dayOf: nat -> int): map<int, seq<HistoryEntry>>
    decreases |history|
  {
    if history == [] then map[]
    else
      var acc := GroupMap(history[..|history| - 1], dayOf);
      var last := history[|history| - 1];
      var date := dayOf(last.timestamp);
      acc[date := (if date in acc then acc[date] else []) + [last]]
  }

  lemma GroupMapOfLonger(history: seq<HistoryEntry>, e: HistoryEntry, dayOf: nat -> int)
    ensures var acc := GroupMap(history, dayOf);
      var date := dayOf(e.timestamp);
      GroupMap(history + [e], dayOf) == acc[date := (if date in acc then acc[date] else []) + [e]]
  {
    assert (history + [e])[..|history|] == history;
  }

  /**
   * The dictionary has a key for exactly the days that occur, and the array
   * under a day holds that day's entries in recording order.
   */
  lemma {:induction false} GroupMapHoldsDayEntries(history: seq<HistoryEntry>, dayOf: nat -> int, d: int)
    ensures d in GroupMap(history, dayOf) <==> d in DayOrder(history, dayOf)
    ensures d in GroupMap(history, dayOf) ==> GroupMap(history, dayOf)[d] == DayEntries(history, dayOf, d)
    decreases |history|
  {
    if history != [] {
      var init, e := history[..|history| - 1], history[|history| - 1];
      assert history == init + [e];
      GroupMapHoldsDayEntries(init, dayOf, d);
      GroupMapOfLonger(init, e, dayOf);
      DayOrderOfLonger(init, e, dayOf);
      DayEntriesOfLonger(init, e, dayOf, d);
    }
  }

  /** The `reduce` into `acc`, with `Object.keys(acc)` as `dates`. */
  method GroupByDay(history: seq<HistoryEntry>, dayOf: nat -> int) returns (groups: map<int, seq<HistoryEntry>>, dates: seq<int>)
    ensures dates == DayOrder(history, dayOf)
    ensures forall d :: d in groups <==> d in dates
    ensures forall d :: d in groups ==> groups[d] == DayEntries(history, dayOf, d)
  {
    groups, dates := map[], [];
    var i := 0;
    while i < |history|
      invariant 0 <= i <= |history|
      invariant groups == GroupMap(history[..i], dayOf)
      invariant dates == DayOrder(history[..i], dayOf)
    {
      var entry := history[i];
      var date := dayOf(entry.timestamp);
      PrefixGrows(history, i);
      GroupMapOfLonger(history[..i], entry, dayOf);
      DayOrderOfLonger(history[..i], entry, dayOf);
      GroupMapHoldsDayEntries(history[..i], dayOf, date);
      var bucket := if date in groups then groups[date] else [];
      if date !in groups {
        dates := dates + [date];
      }
      groups := groups[date := bucket + [entry]];
      i := i + 1;
    }
    assert history[..i] == history;
    forall d ensures (d in groups <==> d in dates) && (d in groups ==> groups[d] == DayEntries(history, dayOf, d)) {
      GroupMapHoldsDayEntries(history, dayOf, d);
    }
  }

  // ---------------------------------------------------------------------------
  // In-place sorting
  // ---------------------------------------------------------------------------

  ghost predicate SortedDescendingBy<T>(s: seq<T>, key: T -> int) {
    forall i, j :: 0 <= i < j < |s| ==> key(s[i]) >= key(s[j])
  }

  method Swap<T>(a: array<T>, i: int, j: int)
    requires 0 <= i < a.Length && 0 <= j < a.Length
    modifies a
    ensures a[i] == old(a[j]) && a[j] == old(a[i])
    ensures forall k :: 0 <= k < a.Length && k != i && k != j ==> a[k] == old(a[k])
    ensures multiset(a[..]) == multiset(old(a[..]))
  {
    a[i], a[j] := a[j], a[i];
  }

  /** `Array.prototype.sort` with the comparator `(x, y) => key(y) - key(x)`. */
  method SortDescendingBy<T>(a: array<T>, key: T -> int)
    modifies a
    ensures SortedDescendingBy(a[..], key)
    ensures multiset(a[..]) == multiset(old(a[..]))
  {
    var i := 0;
    while i < a.Length
      invariant 0 <= i <= a.Length
      invariant forall p, q :: 0 <= p < q < i ==> key(a[p]) >= key(a[q])
      invariant multiset(a[..]) == multiset(old(a[..]))
    {
      var j := i;
      while 0 < j && key(a[j - 1]) < key(a[j])
        invariant 0 <= j <= i
        invariant forall p, q :: 0 <= p < q <= i && p != j && q != j ==> key(a[p]) >= key(a[q])
        invariant forall q :: j < q <= i ==> key(a[j]) >= key(a[q])
        invariant multiset(a[..]) == multiset(old(a[..]))
      {
        Swap(a, j - 1, j);
        j := j - 1;
      }
      i := i + 1;
    }
  }

  // ---------------------------------------------------------------------------
  // Resolving entries to medications
  // ---------------------------------------------------------------------------

  /** `medications.find(m => m.id === id)`. */
  function FindMedication(meds: seq<Medication>, id: string): (r: Option<Medication>)
    ensures r.Some? ==> r.value in meds && r.value.id == id
    ensures r.None? <==> forall m :: m in meds ==> m.id != id
    decreases |meds|
  {
    if meds == [] then None
    else if meds[0].id == id then Some(meds[0])
    else FindMedication(meds[1..], id)
  }

  /** `find` returns the first medication that carries the id. */
  lemma {:induction false} FindIsFirstMatch(meds: seq<Medication>, id: string, k: int)
    requires 0 <= k < |meds| && meds[k].id == id
    requires forall j :: 0 <= j < k ==> meds[j].id != id
    ensures FindMedication(meds, id) == Some(meds[k])
    decreases k
  {
    if k > 0 {
      FindIsFirstMatch(meds[1..], id, k - 1);
    }
  }

  /** With unique ids, every medication is found by its own id. */
  lemma FindWithUniqueIds(meds: seq<Medication>, k: int)
    requires UniqueMedicationIds(meds) && 0 <= k < |meds|
    ensures FindMedication(meds, meds[k].id) == Some(meds[k])
  {
    FindIsFirstMatch(meds, meds[k].id, k);
  }

  /** One displayed line: the entry and the medication it names. */
  datatype LogRow = LogRow(entry: HistoryEntry, medication: Medication)

  /** The `map` over a day's entries, dropping those whose `find` comes back empty. */
  function Resolve(entries: seq<HistoryEntry>, meds: seq<Medication>): (rows: seq<LogRow>)
    ensures forall row :: row in rows ==>
      row.entry in entries && FindMedication(meds, row.entry.medicationId) == Some(row.medication)
    decreases |entries|
  {
    if entries == [] then []
    else
      var last := entries[|entries| - 1];
      Resolve(entries[..|entries| - 1], meds) +
        match FindMedication(meds, last.medicationId)
        case None => []
        case Some(m) => [LogRow(last, m)]
  }

  /** How often a row is displayed: as often as its entry occurs, if the entry resolves to it. */
  lemma {:induction false} ResolveCount(entries: seq<HistoryEntry>, meds: seq<Medication>, row: LogRow)
    ensures multiset(Resolve(entries, meds))[row]
         == if FindMedication(meds, row.entry.medicationId) == Some(row.medication)
            then multiset(entries)[row.entry] else 0
    decreases |entries|
  {
    if entries != [] {
      var init, last := entries[..|entries| - 1], entries[|entries| - 1];
      assert entries == init + [last];
      ResolveCount(init, meds, row);
    }
  }

  /**
   * An entry is displayed iff some medication carries its id; orphaned
   * entries are skipped without changing the entries themselves.
   */
  lemma ResolveSkipsOrphans(entries: seq<HistoryEntry>, meds: seq<Medication>, e: HistoryEntry)
    requires e in entries
    ensures (exists row :: row in Resolve(entries, meds) && row.entry == e)
            <==> (exists m :: m in meds && m.id == e.medicationId)
  {
    var found := FindMedication(meds, e.medicationId);
    if found.Some? {
      var row := LogRow(e, found.value);
      ResolveCount(entries, meds, row);
      assert row in Resolve(entries, meds);
    }
  }

  /** Rearranging the entries rearranges the displayed rows the same way. */
  lemma ResolvePermutation(s: seq<HistoryEntry>, t: seq<HistoryEntry>, meds: seq<Medication>)
    requires multiset(s) == multiset(t)
    ensures multiset(Resolve(s, meds)) == multiset(Resolve(t, meds))
  {
    forall row {:trigger multiset(Resolve(s, meds))[row]} ensures multiset(Resolve(s, meds))[row] == multiset(Resolve(t, meds))[row] {
      ResolveCount(s, meds, row);
      ResolveCount(t, meds, row);
    }
  }

  ghost predicate RowsNewestFirst(rows: seq<LogRow>) {
    forall i, j :: 0 <= i < j < |rows| ==> rows[i].entry.timestamp >= rows[j].entry.timestamp
  }

  function Timestamp(e: HistoryEntry): int { e.timestamp }

  /** Skipping orphans keeps a newest-first order. */
  lemma {:induction false} ResolveKeepsOrder(entries: seq<HistoryEntry>, meds: seq<Medication>)
    requires SortedDescendingBy(entries, Timestamp)
    ensures RowsNewestFirst(Resolve(entries, meds))
    decreases |entries|
  {
    if entries != [] {
      var init, last := entries[..|entries| - 1], entries[|entries| - 1];
      assert SortedDescendingBy(init, Timestamp);
      ResolveKeepsOrder(init, meds);
      forall row | row in Resolve(init, meds) ensures row.entry.timestamp >= last.timestamp {
        var k :| 0 <= k < |init| && init[k] == row.entry;
        assert Timestamp(entries[k]) >= Timestamp(entries[|entries| - 1]);
      }
    }
  }

  // ---------------------------------------------------------------------------
  // The view
  // ---------------------------------------------------------------------------

  /** One day's heading and the rows listed under it. */
  datatype DayGroup = DayGroup(day: int, rows: seq<LogRow>)

  /** The empty state, or the days in display order. */
  datatype HistoryView = NoHistory | Days(days: seq<DayGroup>)

  /** Days listed by strictly descending timestamp of their first recorded entry. */
  ghost predicate DatesByFirstEntry(history: seq<HistoryEntry>, dayOf: nat -> int, dates: seq<int>) {
    forall i, j :: 0 <= i < j < |dates| ==>
      FirstTimestamp(history, dayOf, dates[i]) > FirstTimestamp(history, dayOf, dates[j])
  }

  /**
   * Sorting the days by first timestamp leaves no ties: distinct days never
   * share a first timestamp.
   */
  lemma SortedDatesAreStrict(history: seq<HistoryEntry>, dayOf: nat -> int, dates: seq<int>)
    requires multiset(dates) == multiset(DayOrder(history, dayOf))
    requires forall i, j :: 0 <= i < j < |dates| ==>
      FirstTimestamp(history, dayOf, dates[i]) >= FirstTimestamp(history, dayOf, dates[j])
    ensures DatesByFirstEntry(history, dayOf, dates)
  {
    DistinctPermutation(DayOrder(history, dayOf), dates);
    forall i, j | 0 <= i < j < |dates|
      ensures FirstTimestamp(history, dayOf, dates[i]) > FirstTimestamp(history, dayOf, dates[j])
    {
      assert dates[i] in multiset(DayOrder(history, dayOf)) && dates[j] in multiset(DayOrder(history, dayOf));
      assert dates[i] in DayOrder(history, dayOf) && dates[j] in DayOrder(history, dayOf);
      FirstTimestampsDiffer(history, dayOf, dates[i], dates[j]);
    }
  }

  /** For a monotone calendar, a day whose first entry is later is a later day. */
  lemma LaterFirstEntryLaterDay(history: seq<HistoryEntry>, dayOf: nat -> int, d1: int, d2: int)
    requires Monotone(dayOf)
    requires DayEntries(history, dayOf, d1) != [] && DayEntries(history, dayOf, d2) != []
    requires FirstTimestamp(history, dayOf, d1) > FirstTimestamp(history, dayOf, d2)
    ensures d1 > d2
  {
    var e1, e2 := DayEntries(history, dayOf, d1)[0], DayEntries(history, dayOf, d2)[0];
    assert e1 in DayEntries(history, dayOf, d1) && e2 in DayEntries(history, dayOf, d2);
    assert dayOf(e2.timestamp) <= dayOf(e1.timestamp);
  }

  /**
   * For a monotone calendar, ordering days by their first entries is ordering
   * them newest day first.
   */
  lemma NewestDayFirst(history: seq<HistoryEntry>, dayOf: nat -> int, dates: seq<int>)
    requires Monotone(dayOf)
    requires multiset(dates) == multiset(DayOrder(history, dayOf))
    requires DatesByFirstEntry(history, dayOf, dates)
    ensures forall i, j :: 0 <= i < j < |dates| ==> dates[i] > dates[j]
  {
    forall i, j | 0 <= i < j < |dates| ensures dates[i] > dates[j] {
      assert dates[i] in multiset(DayOrder(history, dayOf)) && dates[j] in multiset(DayOrder(history, dayOf));
      assert dates[i] in DayOrder(history, dayOf) && dates[j] in DayOrder(history, dayOf);
      LaterFirstEntryLaterDay(history, dayOf, dates[i], dates[j]);
    }
  }

  /**
   * The day headings of a view, in display order. Its two ensures only
   * spell out the comprehension; they are there so that the verifier can
   * use them inside the view's proofs without unfolding the definition.
   */
  function DaysShown(days: seq<DayGroup>): (dates: seq<int>)
    ensures |dates| == |days|
    ensures forall k :: 0 <= k < |days| ==> dates[k] == days[k].day
  {
    seq(|days|, k requires 0 <= k < |days| => days[k].day)
  }

  lemma DaysShownOfLonger(days: seq<DayGroup>, group: DayGroup)
    ensures DaysShown(days + [group]) == DaysShown(days) + [group.day]
  {
  }

  /** `Object.keys(groupedHistory).sort(...)`: the days by descending first timestamp. */
  method SortDates(history: seq<HistoryEntry>, dayOf: nat -> int, groups: map<int, seq<HistoryEntry>>, dates: seq<int>)
    returns (sortedDates: seq<int>)
    requires forall d :: d in groups <==> d in dates
    requires forall d :: d in groups ==> groups[d] == DayEntries(history, dayOf, d)
    ensures multiset(sortedDates) == multiset(dates)
    ensures forall i, j :: 0 <= i < j < |sortedDates| ==>
      FirstTimestamp(history, dayOf, sortedDates[i]) >= FirstTimestamp(history, dayOf, sortedDates[j])
  {
    var first: int -> int := (d: int) => if d in groups && groups[d] != [] then groups[d][0].timestamp else 0;
    var order := new int[|dates|](k requires 0 <= k < |dates| => dates[k]);
    assert order[..] == dates;
    SortDescendingBy(order, first);
    sortedDates := order[..];
    forall k | 0 <= k < |sortedDates| ensures first(sortedDates[k]) == FirstTimestamp(history, dayOf, sortedDates[k]) {
      assert sortedDates[k] in multiset(dates);
    }
  }

  /** One day's list: the group sorted newest first in place, then mapped with orphans skipped. */
  method RenderDay(group: seq<HistoryEntry>, meds: seq<Medication>) returns (rows: seq<LogRow>)
    ensures RowsNewestFirst(rows)
    ensures multiset(rows) == multiset(Resolve(group, meds))
  {
    var entries := new HistoryEntry[|group|](j requires 0 <= j < |group| => group[j]);
    assert entries[..] == group;
    SortDescendingBy(entries, Timestamp);
    ResolveKeepsOrder(entries[..], meds);
    ResolvePermutation(entries[..], group, meds);
    rows := Resolve(entries[..], meds);
  }

  /** The `sortedDates.map(...)`: one heading and list per day, in the given order. */
  method RenderDays(history: seq<HistoryEntry>, meds: seq<Medication>, dayOf: nat -> int,
                    groups: map<int, seq<HistoryEntry>>, sortedDates: seq<int>) returns (days: seq<DayGroup>)
    requires forall d :: d in sortedDates ==> d in groups && groups[d] == DayEntries(history, dayOf, d)
    ensures DaysShown(days) == sortedDates
    ensures forall k :: 0 <= k < |days| ==>
      && RowsNewestFirst(days[k].rows)
      && multiset(days[k].rows) == multiset(Resolve(DayEntries(history, dayOf, days[k].day), meds))
  {
    days := [];
    var k := 0;
    while k < |sortedDates|
      invariant 0 <= k <= |sortedDates|
      invariant DaysShown(days) == sortedDates[..k]
      invariant forall i :: 0 <= i < k ==>
        && RowsNewestFirst(days[i].rows)
        && multiset(days[i].rows) == multiset(Resolve(DayEntries(history, dayOf, days[i].day), meds))
    {
      var date := sortedDates[k];
      var rows := RenderDay(groups[date], meds);
      DaysShownOfLonger(days, DayGroup(date, rows));
      PrefixGrows(sortedDates, k);
      days := days + [DayGroup(date, rows)];
      k := k + 1;
    }
    assert sortedDates[..k] == sortedDates;
  }

  /** The HistoryLog component. */
  method RenderHistoryLog(history: seq<HistoryEntry>, meds: seq<Medication>, dayOf: nat -> int) returns (view: HistoryView)
    ensures view.NoHistory? <==> history == []
    ensures view.Days? ==> multiset(DaysShown(view.days)) == multiset(DayOrder(history, dayOf))
    ensures view.Days? ==> DatesByFirstEntry(history, dayOf, DaysShown(view.days))
    ensures view.Days? && Monotone(dayOf) ==>
      forall i, j :: 0 <= i < j < |view.days| ==> view.days[i].day > view.days[j].day
    ensures view.Days? ==> forall k :: 0 <= k < |view.days| ==>
      && RowsNewestFirst(view.days[k].rows)
      && multiset(view.days[k].rows) == multiset(Resolve(DayEntries(history, dayOf, view.days[k].day), meds))
  {
    if history == [] {
      return NoHistory;
    }
    var groups, dates := GroupByDay(history, dayOf);
    var sortedDates := SortDates(history, dayOf, groups, dates);
    forall d | d in sortedDates ensures d in groups {
      assert d in multiset(dates);
    }
    var days := RenderDays(history, meds, dayOf, groups, sortedDates);
    view := Days(days);
    SortedDatesAreStrict(history, dayOf, sortedDates);
    if Monotone(dayOf) {
      NewestDayFirst(history, dayOf, sortedDates);
    }
  }
}
