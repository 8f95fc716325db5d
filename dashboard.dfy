/** `src/pages/dashboard.tsx`: the new-entry form (its guard, the tag parsing
    and the reset after saving), today's and the recent entries, and the
    four moods of the mood overview. Days are the integer day numbers of the
    entries' creation dates. */
module Dashboard {
  import opened Wrappers
  import opened JsString
  import opened Toasts
  import Diary

  // ---------------------------------------------------------------------
  // Tags

  function TrimAll(parts: seq<string>): (r: seq<string>)
    ensures |r| == |parts|
  {
    if |parts| == 0 then [] else TrimAll(parts[..|parts| - 1]) + [Trim(parts[|parts| - 1])]
  }

  lemma {:induction false} TrimAllAt(parts: seq<string>)
    ensures forall i :: 0 <= i < |parts| ==> TrimAll(parts)[i] == Trim(parts[i])
  {
    if |parts| > 0 {
      TrimAllAt(parts[..|parts| - 1]);
    }
  }

  function NonEmpty(parts: seq<string>): (r: seq<string>)
    ensures |r| <= |parts|
    ensures forall t :: t in r <==> t in parts && t != ""
  {
    if |parts| == 0 then []
    else
      var last := parts[|parts| - 1];
      NonEmpty(parts[..|parts| - 1]) + (if last != "" then [last] else [])
  }

  /** `split(",").map(tag => tag.trim()).filter(tag => tag.length > 0)`. */
  function ParseTags(text: string): seq<string> {
    NonEmpty(TrimAll(Split(text, ',')))
  }

  /** Every parsed tag is non-empty, trimmed and free of commas. */
  lemma ParseTagsClean(text: string)
    ensures forall t :: t in ParseTags(text) ==> t != "" && IsTrimmed(t) && ',' !in t
  {
    var parts := Split(text, ',');
    var trimmed := TrimAll(parts);
    TrimAllAt(parts);
    forall t | t in trimmed ensures IsTrimmed(t) && ',' !in t {
      var i :| 0 <= i < |trimmed| && trimmed[i] == t;
      TrimInside(parts[i], ',');
    }
  }

  /** Trimming only removes characters. */
  lemma TrimInside(s: string, c: char)
    requires c !in s
    ensures c !in Trim(s)
  {
    var r := Trim(s);
    assert forall k :: 0 <= k < |r| ==> r[k] == s[TrimOffset(s) + k];
  }

  /** Parsing tags typed as a comma-separated list gives back the pieces,
      trimmed, in order, without the blank ones; tags that are already
      trimmed and non-empty come back unchanged. */
  lemma ParseTagsOfJoin(tags: seq<string>)
    requires |tags| >= 1 && forall i :: 0 <= i < |tags| ==> ',' !in tags[i]
    ensures ParseTags(Join(tags, ',')) == NonEmpty(TrimAll(tags))
    ensures (forall i :: 0 <= i < |tags| ==> tags[i] != "" && IsTrimmed(tags[i])) ==>
      ParseTags(Join(tags, ',')) == tags
  {
    SplitJoin(tags, ',');
    if forall i :: 0 <= i < |tags| ==> tags[i] != "" && IsTrimmed(tags[i]) {
      TrimAllOfTrimmed(tags);
      NonEmptyOfNonEmpty(tags);
    }
  }

  lemma {:induction false} TrimAllOfTrimmed(parts: seq<string>)
    requires forall i :: 0 <= i < |parts| ==> IsTrimmed(parts[i])
    ensures TrimAll(parts) == parts
  {
    if |parts| > 0 {
      var n := |parts| - 1;
      TrimAllOfTrimmed(parts[..n]);
      assert parts == parts[..n] + [parts[n]];
    }
  }

  lemma {:induction false} NonEmptyOfNonEmpty(parts: seq<string>)
    requires forall i :: 0 <= i < |parts| ==> parts[i] != ""
    ensures NonEmpty(parts) == parts
  {
    if |parts| > 0 {
      NonEmptyOfNonEmpty(parts[..|parts| - 1]);
    }
  }

  lemma {:induction false} NonEmptyOfBlanks(parts: seq<string>)
    requires forall i :: 0 <= i < |parts| ==> parts[i] == ""
    ensures NonEmpty(parts) == []
  {
    if |parts| > 0 {
      NonEmptyOfBlanks(parts[..|parts| - 1]);
    }
  }

  predicate BlankOrComma(text: string) {
    forall k :: 0 <= k < |text| ==> text[k] == ',' || IsJsWhitespace(text[k])
  }

  /** A text of spaces and commas splits into pieces of spaces. */
  lemma {:induction false} SplitOfBlank(text: string)
    requires BlankOrComma(text)
    ensures forall i :: 0 <= i < |Split(text, ',')| ==> AllWhitespace(Split(text, ',')[i])
  {
    if |text| > 0 {
      var rest := Split(text[1..], ',');
      assert BlankOrComma(text[1..]) by {
        assert forall k :: 0 <= k < |text| - 1 ==> text[1..][k] == text[k + 1];
      }
      SplitOfBlank(text[1..]);
      if text[0] != ',' {
        var first := [text[0]] + rest[0];
        assert AllWhitespace(first) by {
          assert forall k :: 1 <= k < |first| ==> first[k] == rest[0][k - 1];
        }
      }
    }
  }

  /** A field of only spaces and commas gives no tags. */
  lemma ParseTagsOfBlank(text: string)
    requires BlankOrComma(text)
    ensures ParseTags(text) == []
  {
    SplitOfBlank(text);
    TrimAllAt(Split(text, ','));
    NonEmptyOfBlanks(TrimAll(Split(text, ',')));
  }

  // ---------------------------------------------------------------------
  // Today's and recent entries

  /** `todayEntries`: the entries created on `today`, in order. */
  function TodayEntries(entries: seq<Diary.Entry>, today: int): (r: seq<Diary.Entry>)
    ensures |r| <= |entries|
    ensures forall e :: e in r <==> e in entries && e.createdDay == today
  {
    if |entries| == 0 then []
    else
      var last := entries[|entries| - 1];
      TodayEntries(entries[..|entries| - 1], today) + (if last.createdDay == today then [last] else [])
  }

  /** `entries.filter(entry => !excluded.includes(entry))`. */
  function Excluding(entries: seq<Diary.Entry>, excluded: seq<Diary.Entry>): (r: seq<Diary.Entry>)
    ensures |r| <= |entries|
  {
    if |entries| == 0 then []
    else
      var last := entries[|entries| - 1];
      Excluding(entries[..|entries| - 1], excluded) + (if last !in excluded then [last] else [])
  }

  /** The entries of other days, in order. */
  function OtherDays(entries: seq<Diary.Entry>, today: int): (r: seq<Diary.Entry>)
    ensures forall e :: e in r <==> e in entries && e.createdDay != today
  {
    if |entries| == 0 then []
    else
      var last := entries[|entries| - 1];
      OtherDays(entries[..|entries| - 1], today) + (if last.createdDay != today then [last] else [])
  }

  /** The recent list: the entries not among today's, at most five. */
  function RecentEntries(entries: seq<Diary.Entry>, today: int): seq<Diary.Entry> {
    var rest := Excluding(entries, TodayEntries(entries, today));
    if |rest| <= 5 then rest else rest[..5]
  }

  /** Excluding today's entries keeps exactly the entries of other days. */
  lemma {:induction false} ExcludingToday(entries: seq<Diary.Entry>, prefix: nat, today: int)
    requires prefix <= |entries|
    ensures Excluding(entries[..prefix], TodayEntries(entries, today)) == OtherDays(entries[..prefix], today)
  {
    if prefix > 0 {
      var init := entries[..prefix][..prefix - 1];
      assert init == entries[..prefix - 1];
      ExcludingToday(entries, prefix - 1, today);
      assert entries[prefix - 1] in entries;
    }
  }

  lemma {:induction false} SplitByDay(entries: seq<Diary.Entry>, today: int)
    ensures |TodayEntries(entries, today)| + |OtherDays(entries, today)| == |entries|
  {
    if |entries| > 0 {
      SplitByDay(entries[..|entries| - 1], today);
    }
  }

  /** The recent list holds the first five entries of other days in their
      order, and the section is shown exactly when there is such an entry. */
  lemma RecentEntriesFacts(entries: seq<Diary.Entry>, today: int)
    ensures var r := RecentEntries(entries, today); var o := OtherDays(entries, today);
      && |r| <= 5
      && r == (if |o| <= 5 then o else o[..5])
      && (forall e :: e in r ==> e in entries && e.createdDay != today)
    ensures |entries| > |TodayEntries(entries, today)| <==> |OtherDays(entries, today)| > 0
  {
    ExcludingToday(entries, |entries|, today);
    assert entries[..|entries|] == entries;
    SplitByDay(entries, today);
    var o := OtherDays(entries, today);
    forall e | e in (if |o| <= 5 then o else o[..5]) ensures e in o {
    }
  }

  // ---------------------------------------------------------------------
  // Mood overview

  /** Insert `x` after every element whose key is at least its own. */
  function InsertByKey<T>(sorted: seq<T>, x: T, key: T -> int): (r: seq<T>)
    ensures multiset(r) == multiset(sorted) + multiset{x}
    ensures |r| == |sorted| + 1
    decreases |sorted|
  {
    if |sorted| == 0 then [x]
    else if key(sorted[0]) >= key(x) then
      assert sorted == [sorted[0]] + sorted[1..];
      [sorted[0]] + InsertByKey(sorted[1..], x, key)
    else [x] + sorted
  }

  /** `sort((a, b) => key(b) - key(a))`, which is stable: by decreasing key,
      equal keys in their original order. */
  function SortByKey<T>(xs: seq<T>, key: T -> int): (r: seq<T>)
    ensures multiset(r) == multiset(xs)
    ensures |r| == |xs|
  {
    if |xs| == 0 then []
    else
      var n := |xs| - 1;
      assert xs == xs[..n] + [xs[n]];
      InsertByKey(SortByKey(xs[..n], key), xs[n], key)
  }

  predicate Descending<T>(r: seq<T>, key: T -> int) {
    forall i, j :: 0 <= i < j < |r| ==> key(r[i]) >= key(r[j])
  }

  /** The elements come in strictly increasing `rank`. */
  predicate Ranked<T>(xs: seq<T>, rank: T -> int) {
    forall i, j :: 0 <= i < j < |xs| ==> rank(xs[i]) < rank(xs[j])
  }

  /** Among equal keys, a smaller `rank` comes first. */
  predicate TiesByRank<T>(r: seq<T>, key: T -> int, rank: T -> int) {
    forall i, j :: 0 <= i < j < |r| && key(r[i]) == key(r[j]) ==> rank(r[i]) < rank(r[j])
  }

  lemma InsertByKeyMembers<T>(sorted: seq<T>, x: T, key: T -> int)
    ensures forall y :: y in InsertByKey(sorted, x, key) ==> y in sorted || y == x
  {
    var r := InsertByKey(sorted, x, key);
    forall y | y in r ensures y in sorted || y == x {
      assert y in multiset(r);
    }
  }

  lemma {:induction false} InsertByKeyDescending<T>(sorted: seq<T>, x: T, key: T -> int)
    requires Descending(sorted, key)
    ensures Descending(InsertByKey(sorted, x, key), key)
    decreases |sorted|
  {
    if |sorted| > 0 && key(sorted[0]) >= key(x) {
      var tail := sorted[1..];
      InsertByKeyDescending(tail, x, key);
      var rest := InsertByKey(tail, x, key);
      InsertByKeyMembers(tail, x, key);
      var r := [sorted[0]] + rest;
      forall j | 0 < j < |r| ensures key(r[0]) >= key(r[j]) {
        assert r[j] == rest[j - 1] && rest[j - 1] in rest;
      }
    }
  }

  lemma {:induction false} InsertByKeyTies<T>(sorted: seq<T>, x: T, key: T -> int, rank: T -> int)
    requires Descending(sorted, key) && TiesByRank(sorted, key, rank)
    requires forall i :: 0 <= i < |sorted| ==> rank(sorted[i]) < rank(x)
    ensures TiesByRank(InsertByKey(sorted, x, key), key, rank)
    decreases |sorted|
  {
    if |sorted| > 0 && key(sorted[0]) >= key(x) {
      var tail := sorted[1..];
      InsertByKeyTies(tail, x, key, rank);
      var rest := InsertByKey(tail, x, key);
      InsertByKeyMembers(tail, x, key);
      var r := [sorted[0]] + rest;
      forall j | 0 < j < |r| && key(r[0]) == key(r[j]) ensures rank(r[0]) < rank(r[j]) {
        assert r[j] == rest[j - 1] && rest[j - 1] in rest;
      }
    }
  }

  lemma {:induction false} SortByKeySorted<T>(xs: seq<T>, key: T -> int, rank: T -> int)
    requires Ranked(xs, rank)
    ensures Descending(SortByKey(xs, key), key)
    ensures TiesByRank(SortByKey(xs, key), key, rank)
  {
    if |xs| > 0 {
      var n := |xs| - 1;
      var s := SortByKey(xs[..n], key);
      SortByKeySorted(xs[..n], key, rank);
      forall i | 0 <= i < |s| ensures rank(s[i]) < rank(xs[n]) {
        assert s[i] in multiset(xs[..n]);
      }
      InsertByKeyDescending(s, xs[n], key);
      InsertByKeyTies(s, xs[n], key, rank);
    }
  }

  /** One `[mood, count]` pair of `Object.entries(moodDistribution)`. */
  datatype MoodTally = MoodTally(mood: Diary.Mood, count: nat)

  /** `Object.entries(moodDistribution)`: the moods in declaration order,
      each with its count. */
  function Tallies(counts: Diary.MoodCounts): (r: seq<MoodTally>)
    ensures |r| == 8
  {
    [ MoodTally(Diary.Happy, counts.happy), MoodTally(Diary.Sad, counts.sad),
      MoodTally(Diary.Angry, counts.angry), MoodTally(Diary.Anxious, counts.anxious),
      MoodTally(Diary.Excited, counts.excited), MoodTally(Diary.Calm, counts.calm),
      MoodTally(Diary.Frustrated, counts.frustrated), MoodTally(Diary.Content, counts.content) ]
  }

  function Count(t: MoodTally): int {
    t.count
  }

  function Rank(t: MoodTally): int {
    Diary.MoodIndex(t.mood)
  }

  /** Each tally holds the count of its own mood, and they come in
      declaration order. */
  lemma TalliesRanked(counts: Diary.MoodCounts)
    ensures Ranked(Tallies(counts), Rank)
  {
    var r := Tallies(counts);
    assert forall i :: 0 <= i < 8 ==> Rank(r[i]) == i;
  }

  lemma TalliesCounts(counts: Diary.MoodCounts)
    ensures forall t :: t in Tallies(counts) ==> t.count == counts.Get(t.mood)
  {
  }

  /** Every mood has its tally. */
  lemma TallyOf(counts: Diary.MoodCounts, m: Diary.Mood)
    ensures Tallies(counts)[Diary.MoodIndex(m)] == MoodTally(m, counts.Get(m))
  {
  }

  /** The mood overview: the tallies sorted by count, the first four. */
  function TopMoods(counts: Diary.MoodCounts): seq<MoodTally> {
    SortByKey(Tallies(counts), Count)[..4]
  }

  /** A prefix of a sorted ranked sequence is ordered by key, ties by rank. */
  lemma SortedCut<T>(xs: seq<T>, key: T -> int, rank: T -> int, cut: nat)
    requires cut <= |xs|
    requires Ranked(xs, rank)
    ensures Descending(SortByKey(xs, key)[..cut], key)
    ensures TiesByRank(SortByKey(xs, key)[..cut], key, rank)
  {
    SortByKeySorted(xs, key, rank);
  }

  /** Whatever a prefix of the sorted sequence holds comes from the input. */
  lemma CutMembers<T>(xs: seq<T>, key: T -> int, cut: nat)
    requires cut <= |xs|
    ensures forall y :: y in SortByKey(xs, key)[..cut] ==> y in xs
  {
    var r := SortByKey(xs, key);
    forall y | y in r[..cut] ensures y in xs {
      assert y in multiset(r);
    }
  }

  /** What lies past a cut of a descending sequence has a key no larger than
      the last element before it. */
  lemma PastCut<T>(xs: seq<T>, r: seq<T>, key: T -> int, cut: nat)
    requires 0 < cut <= |r| && Descending(r, key) && multiset(r) == multiset(xs)
    ensures forall y :: y in xs && y !in r[..cut] ==> key(y) <= key(r[cut - 1])
  {
    forall y | y in xs && y !in r[..cut] ensures key(y) <= key(r[cut - 1]) {
      assert y in multiset(r);
      var j :| 0 <= j < |r| && r[j] == y;
      assert j >= cut;
    }
  }

  /** Four moods are shown, by non-increasing count and, on equal counts,
      in declaration order. */
  lemma TopMoodsOrdered(counts: Diary.MoodCounts)
    ensures |TopMoods(counts)| == 4
    ensures Descending(TopMoods(counts), Count)
    ensures TiesByRank(TopMoods(counts), Count, Rank)
  {
    TalliesRanked(counts);
    SortedCut(Tallies(counts), Count, Rank, 4);
  }

  /** Every mood shown carries its true count. */
  lemma TopMoodsCounts(counts: Diary.MoodCounts)
    ensures forall t :: t in TopMoods(counts) ==> t.count == counts.Get(t.mood)
  {
    CutMembers(Tallies(counts), Count, 4);
    TalliesCounts(counts);
  }

  /** No mood left out of the overview has a higher count than the last one
      shown. */
  lemma TopMoodsMaximal(counts: Diary.MoodCounts, k: nat)
    requires k < 8 && Tallies(counts)[k] !in TopMoods(counts)
    ensures Tallies(counts)[k].count <= TopMoods(counts)[3].count
  {
    TalliesRanked(counts);
    CutMaximal(Tallies(counts), Count, Rank, 4, k);
  }

  /** An element of a ranked sequence that sorting leaves past the cut has a
      key no larger than the last element before it. */
  lemma CutMaximal<T>(xs: seq<T>, key: T -> int, rank: T -> int, cut: nat, k: nat)
    requires 0 < cut <= |xs| && k < |xs|
    requires Ranked(xs, rank)
    requires xs[k] !in SortByKey(xs, key)[..cut]
    ensures key(xs[k]) <= key(SortByKey(xs, key)[cut - 1])
  {
    SortByKeySorted(xs, key, rank);
    PastCut(xs, SortByKey(xs, key), key, cut);
  }

  // ---------------------------------------------------------------------
  // The new-entry form

  /** What `addEntry` is called with. */
  datatype NewEntry = NewEntry(content: string, mood: Diary.Mood, tags: seq<string>)

  class EntryForm {
    var content: string
    var mood: Option<Diary.Mood>
    var tagsText: string
    var showModal: bool
    var saving: bool

    constructor ()
      ensures content == "" && mood == None && tagsText == "" && !showModal && !saving
    {
      content, mood, tagsText := "", None, "";
      showModal, saving := false, false;
    }

    /** The guard of `handleCreateEntry`, which also enables the save
        button: text that is not blank and a chosen mood. */
    predicate CanCreate()
      reads this
    {
      Trim(content) != "" && mood.Some?
    }

    /** `handleCreateEntry`. A blank text or no mood raises "Please fill in
        all fields" and changes nothing. Otherwise `addEntry` is called with
        the text as typed (untrimmed), the mood and the parsed tags
        (`added`); `addFails` is its outcome. Success clears the form and
        closes the modal, failure keeps both, and `saving` ends false
        either way. */
    method HandleCreateEntry(addFails: bool) returns (added: Option<NewEntry>, toast: Toast)
      modifies this
      ensures !old(CanCreate()) ==>
        && added == None && toast == Failure("Please fill in all fields")
        && content == old(content) && mood == old(mood) && tagsText == old(tagsText)
        && showModal == old(showModal) && saving == old(saving)
      ensures old(CanCreate()) ==>
        && added == Some(NewEntry(old(content), old(mood).value, ParseTags(old(tagsText))))
        && !saving
        && (!addFails ==>
              content == "" && mood == None && tagsText == "" && !showModal
              && toast == Success("Entry saved successfully!"))
        && (addFails ==>
              content == old(content) && mood == old(mood) && tagsText == old(tagsText)
              && showModal == old(showModal) && toast == Failure("Failed to save entry"))
    {
      if Trim(content) == "" || mood.None? {
        return None, Failure("Please fill in all fields");
      }
      saving := true;
      var tags := ParseTags(tagsText);
      added := Some(NewEntry(content, mood.value, tags));
      if !addFails {
        content := "";
        mood := None;
        tagsText := "";
        showModal := false;
        toast := Success("Entry saved successfully!");
      } else {
        toast := Failure("Failed to save entry");
      }
      saving := false;
    }
  }
}
