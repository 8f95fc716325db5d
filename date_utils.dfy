/** `src/utils/date.ts`: the relative-date wording of an entry's age and the
    grouping of entries by their day key. A day difference is an integer
    (what `differenceInDays` returns); the key of an entry is given by a
    function, since formatting a `Date` belongs to date-fns. */
module DateUtils {
  import opened Wrappers
  import opened JsString

  // ---------------------------------------------------------------------
  // getRelativeDate

  /** The wording `getRelativeDate` picks for a day difference. */
  datatype Relative =
    | Today
    | Yesterday
    | DaysAgo(days: int)
    | WeeksAgo(weeks: nat)
    | MonthsAgo(months: nat)
    | YearsAgo(years: nat)

  /** The bucket of a day difference; a negative difference (a date in the
      future) falls in the "days ago" bucket unchanged. */
  function Bucket(days: int): Relative {
    if days == 0 then Today
    else if days == 1 then Yesterday
    else if days < 7 then DaysAgo(days)
    else if days < 30 then WeeksAgo(days / 7)
    else if days < 365 then MonthsAgo(days / 30)
    else YearsAgo(days / 365)
  }

  function Render(r: Relative): string {
    match r
    case Today => "Today"
    case Yesterday => "Yesterday"
    case DaysAgo(n) => IntToString(n) + " days ago"
    case WeeksAgo(n) => NatToString(n) + " weeks ago"
    case MonthsAgo(n) => NatToString(n) + " months ago"
    case YearsAgo(n) => NatToString(n) + " years ago"
  }

  /** `getRelativeDate`, on the day difference from now. */
  function RelativeDate(days: int): (s: string)
    ensures days == 0 <==> s == "Today"
    ensures days == 1 <==> s == "Yesterday"
  {
    BucketWords(days);
    Render(Bucket(days))
  }

  /** No wording other than the first two is "Today" or "Yesterday". */
  lemma BucketWords(days: int)
    ensures Render(Bucket(days)) == "Today" <==> days == 0
    ensures Render(Bucket(days)) == "Yesterday" <==> days == 1
  {
    var s := Render(Bucket(days));
    if days != 0 && days != 1 {
      var q := if days < 7 then IntToString(days)
        else if days < 30 then NatToString(days / 7)
        else if days < 365 then NatToString(days / 30)
        else NatToString(days / 365);
      assert s[|q|] == ' ';
      assert s[0] == '-' || IsDigit(s[0]);
    }
  }

  /** Which bucket each range of differences lands in, and the number it
      shows: the weeks are always 1 to 4, the months 1 to 12, the years at
      least 1. */
  lemma BucketRanges(days: int)
    ensures Bucket(days).DaysAgo? <==> days < 7 && days != 0 && days != 1
    ensures Bucket(days).DaysAgo? ==> Bucket(days).days == days
    ensures Bucket(days).WeeksAgo? <==> 7 <= days < 30
    ensures Bucket(days).WeeksAgo? ==>
      Bucket(days).weeks == days / 7 && 1 <= Bucket(days).weeks <= 4
    ensures Bucket(days).MonthsAgo? <==> 30 <= days < 365
    ensures Bucket(days).MonthsAgo? ==>
      Bucket(days).months == days / 30 && 1 <= Bucket(days).months <= 12
    ensures Bucket(days).YearsAgo? <==> 365 <= days
    ensures Bucket(days).YearsAgo? ==>
      Bucket(days).years == days / 365 && Bucket(days).years >= 1
  {
  }

  /** How coarse a wording is: today, yesterday, days, weeks, months, years. */
  function Coarseness(r: Relative): nat {
    match r
    case Today => 0
    case Yesterday => 1
    case DaysAgo(_) => 2
    case WeeksAgo(_) => 3
    case MonthsAgo(_) => 4
    case YearsAgo(_) => 5
  }

  /** The number a wording shows (0 and 1 for today and yesterday). */
  function Amount(r: Relative): int {
    match r
    case Today => 0
    case Yesterday => 1
    case DaysAgo(n) => n
    case WeeksAgo(n) => n
    case MonthsAgo(n) => n
    case YearsAgo(n) => n
  }

  /** An older date never reads as more recent: from two past dates, the
      older one gets a coarser bucket, or the same bucket with a number at
      least as large. */
  lemma BucketMonotone(d1: int, d2: int)
    requires 0 <= d1 <= d2
    ensures Coarseness(Bucket(d1)) <= Coarseness(Bucket(d2))
    ensures Coarseness(Bucket(d1)) == Coarseness(Bucket(d2)) ==>
      Amount(Bucket(d1)) <= Amount(Bucket(d2))
  {
    BucketRanges(d1);
    BucketRanges(d2);
  }

  // ---------------------------------------------------------------------
  // groupEntriesByDate

  /** One property of the object `groupEntriesByDate` builds: a key and the
      entries pushed under it. */
  datatype Group<E> = Group(key: string, items: seq<E>)

  /** Where `key` sits among the groups, searching from the front. */
  function Find<E>(groups: seq<Group<E>>, key: string): (r: Option<nat>)
    ensures r.Some? ==> r.value < |groups| && groups[r.value].key == key
    ensures r.None? <==> forall i :: 0 <= i < |groups| ==> groups[i].key != key
  {
    if |groups| == 0 then None
    else if groups[0].key == key then Some(0)
    else match Find(groups[1..], key)
      case Some(j) => Some(j + 1)
      case None => None
  }

  /** `groups[key] || []`: the entries under `key`, or none. */
  function Lookup<E>(groups: seq<Group<E>>, key: string): seq<E> {
    match Find(groups, key)
    case Some(j) => groups[j].items
    case None => []
  }

  function Keys<E>(groups: seq<Group<E>>): set<string> {
    set i | 0 <= i < |groups| :: groups[i].key
  }

  /** The day keys of the entries. */
  function KeysOf<E>(entries: seq<E>, keyOf: E -> string): set<string> {
    set i | 0 <= i < |entries| :: keyOf(entries[i])
  }

  predicate DistinctKeys<E>(groups: seq<Group<E>>) {
    forall i, j :: 0 <= i < j < |groups| ==> groups[i].key != groups[j].key
  }

  /** What the object keeps throughout: every key once, no key without an
      entry. */
  predicate WellFormed<E>(groups: seq<Group<E>>) {
    DistinctKeys(groups) && forall i :: 0 <= i < |groups| ==> |groups[i].items| > 0
  }

  /** With distinct keys, a group's own key finds exactly it. */
  lemma LookupAt<E>(groups: seq<Group<E>>, i: nat)
    requires DistinctKeys(groups) && i < |groups|
    ensures Lookup(groups, groups[i].key) == groups[i].items
  {
    var r := Find(groups, groups[i].key);
    assert r.Some?;
    assert r.value == i;
  }

  /** One step of the reduce: create the key on first sight, then push. */
  function Insert<E>(groups: seq<Group<E>>, key: string, e: E): seq<Group<E>> {
    match Find(groups, key)
    case Some(j) => groups[j := Group(key, groups[j].items + [e])]
    case None => groups + [Group(key, [e])]
  }

  /** The groups after the reduce has seen `entries`, in key-insertion order. */
  function GroupBy<E>(entries: seq<E>, keyOf: E -> string): seq<Group<E>> {
    if |entries| == 0 then []
    else
      var n := |entries| - 1;
      Insert(GroupBy(entries[..n], keyOf), keyOf(entries[n]), entries[n])
  }

  /** The entries whose key is `key`, in input order. */
  function EntriesWithKey<E>(entries: seq<E>, keyOf: E -> string, key: string): (r: seq<E>)
    ensures |r| <= |entries|
    ensures forall x :: x in r ==> keyOf(x) == key
  {
    if |entries| == 0 then []
    else
      var n := |entries| - 1;
      EntriesWithKey(entries[..n], keyOf, key)
        + (if keyOf(entries[n]) == key then [entries[n]] else [])
  }

  /** The number of entries whose key passes `selected`. */
  function CountKeyed<E>(entries: seq<E>, keyOf: E -> string, selected: string -> bool): (c: nat)
    ensures c <= |entries|
  {
    if |entries| == 0 then 0
    else
      var n := |entries| - 1;
      CountKeyed(entries[..n], keyOf, selected) + (if selected(keyOf(entries[n])) then 1 else 0)
  }

  /** The sum of the group sizes over keys that pass `selected`. */
  function SizeWhere<E>(groups: seq<Group<E>>, selected: string -> bool): nat {
    if |groups| == 0 then 0
    else
      var n := |groups| - 1;
      SizeWhere(groups[..n], selected) + (if selected(groups[n].key) then |groups[n].items| else 0)
  }

  /** The number of keys that pass `selected`. */
  function KeysWhere<E>(groups: seq<Group<E>>, selected: string -> bool): nat {
    if |groups| == 0 then 0
    else
      var n := |groups| - 1;
      KeysWhere(groups[..n], selected) + (if selected(groups[n].key) then 1 else 0)
  }

  /** Growing one group at index `j` by one entry adds one to the selected
      total when its key is selected. */
  lemma {:induction false} SizeWhereGrow<E>(groups: seq<Group<E>>, j: nat, e: E, selected: string -> bool)
    requires j < |groups|
    ensures var g := groups[j := Group(groups[j].key, groups[j].items + [e])];
      SizeWhere(g, selected) == SizeWhere(groups, selected) + (if selected(groups[j].key) then 1 else 0)
      && KeysWhere(g, selected) == KeysWhere(groups, selected)
    decreases |groups|
  {
    var g := groups[j := Group(groups[j].key, groups[j].items + [e])];
    var n := |groups| - 1;
    if j < n {
      SizeWhereGrow(groups[..n], j, e, selected);
      assert g[..n] == groups[..n][j := Group(groups[j].key, groups[j].items + [e])];
    } else {
      assert g[..n] == groups[..n];
    }
  }

  /** The same for a new key added at the end with one entry. */
  lemma SizeWhereAppend<E>(groups: seq<Group<E>>, key: string, e: E, selected: string -> bool)
    ensures var g := groups + [Group(key, [e])];
      SizeWhere(g, selected) == SizeWhere(groups, selected) + (if selected(key) then 1 else 0)
      && KeysWhere(g, selected) == KeysWhere(groups, selected) + (if selected(key) then 1 else 0)
  {
    assert (groups + [Group(key, [e])])[..|groups|] == groups;
  }

  lemma InsertSizeWhere<E>(groups: seq<Group<E>>, key: string, e: E, selected: string -> bool)
    ensures SizeWhere(Insert(groups, key, e), selected) ==
      SizeWhere(groups, selected) + (if selected(key) then 1 else 0)
  {
    match Find(groups, key)
    case Some(j) => SizeWhereGrow(groups, j, e, selected);
    case None => SizeWhereAppend(groups, key, e, selected);
  }

  /** Inserting keeps every key once and every group non-empty, and its keys
      are the old keys plus `key`. */
  lemma InsertWellFormed<E>(groups: seq<Group<E>>, key: string, e: E)
    requires WellFormed(groups)
    ensures WellFormed(Insert(groups, key, e))
    ensures Keys(Insert(groups, key, e)) == Keys(groups) + {key}
  {
    var g := Insert(groups, key, e);
    match Find(groups, key)
    case Some(j) =>
      assert forall i :: 0 <= i < |g| ==> g[i].key == groups[i].key;
      assert Keys(g) == Keys(groups);
    case None =>
      assert forall i :: 0 <= i < |groups| ==> g[i] == groups[i];
      assert g[|groups|].key == key;
      assert Keys(g) == Keys(groups) + {key};
  }

  /** Pushing under `key` extends that key's list by the entry and leaves
      every other key's list alone. */
  lemma InsertLookup<E>(groups: seq<Group<E>>, key: string, e: E, k: string)
    requires DistinctKeys(groups)
    ensures Lookup(Insert(groups, key, e), k) ==
      if k == key then Lookup(groups, k) + [e] else Lookup(groups, k)
  {
    InsertKeys(groups, key, e);
    var g := Insert(groups, key, e);
    var f := Find(groups, k);
    var f' := Find(g, k);
    match Find(groups, key)
    case Some(j) =>
      assert forall i :: 0 <= i < |g| ==> g[i].key == groups[i].key;
      if f.Some? {
        LookupAt(groups, f.value);
        LookupAt(g, f.value);
      } else {
        assert f'.None?;
      }
    case None =>
      assert forall i :: 0 <= i < |groups| ==> g[i] == groups[i];
      if k == key {
        LookupAt(g, |groups|);
      } else if f.Some? {
        LookupAt(groups, f.value);
        LookupAt(g, f.value);
      } else {
        assert f'.None?;
      }
  }

  lemma InsertKeys<E>(groups: seq<Group<E>>, key: string, e: E)
    requires DistinctKeys(groups)
    ensures DistinctKeys(Insert(groups, key, e))
  {
    var g := Insert(groups, key, e);
    match Find(groups, key)
    case Some(j) =>
      assert forall i :: 0 <= i < |g| ==> g[i].key == groups[i].key;
    case None =>
      assert forall i :: 0 <= i < |groups| ==> g[i] == groups[i];
  }

  /** Every key of the result is the key of some entry, every group is
      non-empty and no key appears twice. */
  lemma {:induction false} GroupByWellFormed<E>(entries: seq<E>, keyOf: E -> string)
    ensures WellFormed(GroupBy(entries, keyOf))
    ensures Keys(GroupBy(entries, keyOf)) == KeysOf(entries, keyOf)
  {
    if |entries| > 0 {
      var n := |entries| - 1;
      var init := entries[..n];
      GroupByWellFormed(init, keyOf);
      InsertWellFormed(GroupBy(init, keyOf), keyOf(entries[n]), entries[n]);
      assert KeysOf(entries, keyOf) == KeysOf(init, keyOf) + {keyOf(entries[n])} by {
        assert forall i :: 0 <= i < n ==> init[i] == entries[i];
      }
    }
  }

  /** The list under any key is exactly the entries with that key, in input
      order; in particular it is empty for a key no entry has. */
  lemma {:induction false} GroupByLookup<E>(entries: seq<E>, keyOf: E -> string, k: string)
    ensures Lookup(GroupBy(entries, keyOf), k) == EntriesWithKey(entries, keyOf, k)
  {
    if |entries| > 0 {
      var n := |entries| - 1;
      GroupByLookup(entries[..n], keyOf, k);
      GroupByWellFormed(entries[..n], keyOf);
      InsertLookup(GroupBy(entries[..n], keyOf), keyOf(entries[n]), entries[n], k);
    }
  }

  /** Summed over any selection of keys, the group sizes count exactly the
      entries whose key is selected; over all keys they sum to the length of
      the input, so every entry is in exactly one group. */
  lemma {:induction false} GroupBySizes<E>(entries: seq<E>, keyOf: E -> string, selected: string -> bool)
    ensures SizeWhere(GroupBy(entries, keyOf), selected) == CountKeyed(entries, keyOf, selected)
  {
    if |entries| > 0 {
      var n := |entries| - 1;
      GroupBySizes(entries[..n], keyOf, selected);
      InsertSizeWhere(GroupBy(entries[..n], keyOf), keyOf(entries[n]), entries[n], selected);
    }
  }

  lemma {:induction false} CountKeyedAll<E>(entries: seq<E>, keyOf: E -> string)
    ensures CountKeyed(entries, keyOf, _ => true) == |entries|
  {
    if |entries| > 0 {
      CountKeyedAll(entries[..|entries| - 1], keyOf);
    }
  }

  lemma GroupByTotal<E>(entries: seq<E>, keyOf: E -> string)
    ensures SizeWhere(GroupBy(entries, keyOf), _ => true) == |entries|
  {
    GroupBySizes(entries, keyOf, _ => true);
    CountKeyedAll(entries, keyOf);
  }

  /** Each entry sits in the group of its own key. */
  lemma {:induction false} EntryInItsGroup<E>(entries: seq<E>, keyOf: E -> string, i: nat)
    requires i < |entries|
    ensures entries[i] in Lookup(GroupBy(entries, keyOf), keyOf(entries[i]))
  {
    GroupByLookup(entries, keyOf, keyOf(entries[i]));
    EntriesWithKeyHas(entries, keyOf, i);
  }

  lemma {:induction false} EntriesWithKeyHas<E>(entries: seq<E>, keyOf: E -> string, i: nat)
    requires i < |entries|
    ensures entries[i] in EntriesWithKey(entries, keyOf, keyOf(entries[i]))
  {
    var n := |entries| - 1;
    if i < n {
      EntriesWithKeyHas(entries[..n], keyOf, i);
    }
  }

  /** Whether some key passes `selected` (`Object.keys(...).some`). */
  function AnyKeyWhere<E>(groups: seq<Group<E>>, selected: string -> bool): bool {
    if |groups| == 0 then false
    else
      var n := |groups| - 1;
      AnyKeyWhere(groups[..n], selected) || selected(groups[n].key)
  }

  /** Some key is selected exactly when the number of selected keys is not
      zero. */
  lemma {:induction false} AnyKeyWhereCount<E>(groups: seq<Group<E>>, selected: string -> bool)
    ensures AnyKeyWhere(groups, selected) <==> KeysWhere(groups, selected) > 0
  {
    if |groups| > 0 {
      AnyKeyWhereCount(groups[..|groups| - 1], selected);
    }
  }

  /** Since no group is empty, there are never more selected keys than
      entries under them. */
  lemma {:induction false} KeysWhereAtMostSize<E>(groups: seq<Group<E>>, selected: string -> bool)
    requires WellFormed(groups)
    ensures KeysWhere(groups, selected) <= SizeWhere(groups, selected)
  {
    if |groups| > 0 {
      var n := |groups| - 1;
      assert WellFormed(groups[..n]);
      KeysWhereAtMostSize(groups[..n], selected);
    }
  }

  // ---------------------------------------------------------------------
  // The day key

  /** A local calendar date as `Date` reports it: full year, month 0 to 11
      (`getMonth`) and day of the month. */
  datatype CivilDate = CivilDate(year: nat, month: nat, day: nat)

  predicate ValidDate(d: CivilDate) {
    d.month < 12 && 1 <= d.day <= 31
  }

  /** `format(date, "yyyy-MM-dd")`: the year padded to four digits, then
      month and day to two. */
  function DayKey(d: CivilDate): string {
    ZeroPad(d.year, 4) + "-" + ZeroPad(d.month + 1, 2) + "-" + ZeroPad(d.day, 2)
  }

  /** Distinct dates have distinct keys, so grouping by key is grouping by
      day. */
  lemma DayKeyInjective(d1: CivilDate, d2: CivilDate)
    requires DayKey(d1) == DayKey(d2)
    ensures d1 == d2
  {
    DayKeyParts(d1, d2);
    ZeroPadInjective(d1.year, d2.year, 4);
    ZeroPadInjective(d1.month + 1, d2.month + 1, 2);
    ZeroPadInjective(d1.day, d2.day, 2);
  }

  /** Equal keys have equal year, month and day fields, as padded text. */
  lemma DayKeyParts(d1: CivilDate, d2: CivilDate)
    requires DayKey(d1) == DayKey(d2)
    ensures ZeroPad(d1.year, 4) == ZeroPad(d2.year, 4)
    ensures ZeroPad(d1.month + 1, 2) == ZeroPad(d2.month + 1, 2)
    ensures ZeroPad(d1.day, 2) == ZeroPad(d2.day, 2)
  {
    ThreeParts(ZeroPad(d1.year, 4), ZeroPad(d1.month + 1, 2), ZeroPad(d1.day, 2),
      ZeroPad(d2.year, 4), ZeroPad(d2.month + 1, 2), ZeroPad(d2.day, 2));
  }

  lemma ZeroPadInjective(a: nat, b: nat, width: nat)
    requires ZeroPad(a, width) == ZeroPad(b, width)
    ensures a == b
  {
    ZeroPadValue(a, width);
    ZeroPadValue(b, width);
  }

  /** Three runs of digits joined by '-' come apart again. */
  lemma ThreeParts(a1: string, b1: string, c1: string, a2: string, b2: string, c2: string)
    requires AllDigits(a1) && AllDigits(b1) && AllDigits(a2) && AllDigits(b2)
    requires a1 + "-" + b1 + "-" + c1 == a2 + "-" + b2 + "-" + c2
    ensures a1 == a2 && b1 == b2 && c1 == c2
  {
    assert a1 + "-" + b1 + "-" + c1 == a1 + "-" + (b1 + "-" + c1);
    assert a2 + "-" + b2 + "-" + c2 == a2 + "-" + (b2 + "-" + c2);
    DigitsThenDash(a1, b1 + "-" + c1, a2, b2 + "-" + c2);
    DigitsThenDash(b1, c1, b2, c2);
  }

  /** `groupEntriesByDate`: the reduce that creates a key's list the first
      time the key is seen and pushes each entry onto its key's list. */
  method GroupEntriesByDate<E>(entries: seq<E>, keyOf: E -> string) returns (groups: seq<Group<E>>)
    ensures groups == GroupBy(entries, keyOf)
    ensures WellFormed(groups)
  {
    groups := [];
    for i := 0 to |entries|
      invariant groups == GroupBy(entries[..i], keyOf)
    {
      var entry := entries[i];
      var date := keyOf(entry);
      ghost var before := groups;
      var at := Find(groups, date);
      if at.None? {
        groups := groups + [Group(date, [])];
        at := Some(|groups| - 1);
      }
      groups := groups[at.value := Group(date, groups[at.value].items + [entry])];
      assert groups == Insert(before, date, entry) by {
        if Find(before, date).None? {
          assert [] + [entry] == [entry];
          assert groups == before + [Group(date, [entry])];
        }
      }
      assert entries[..i + 1][..i] == entries[..i];
    }
    assert entries[..|entries|] == entries;
    GroupByWellFormed(entries, keyOf);
  }
}
