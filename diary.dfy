/** The mood-entry utilities of src/utils/diary.ts: the fetch mapping of the
    stored documents, the analytics of a list of entries (mood distribution,
    journaling streak, seven-day trend) and the insight lines derived from
    them. A date is an integer local day number, `today` is an input, and the
    CryptoJS wrapper is a function parameter. */
module Diary {
  import opened Wrappers
  import opened JsString

  datatype Mood = Happy | Sad | Angry | Anxious | Excited | Calm | Frustrated | Content

  /** The moods in declaration order, which is also the key order of every
      counter record and hence the order in which `reduce` visits them. */
  const Moods: seq<Mood> := [Happy, Sad, Angry, Anxious, Excited, Calm, Frustrated, Content]

  function MoodName(m: Mood): string {
    match m
    case Happy => "happy"
    case Sad => "sad"
    case Angry => "angry"
    case Anxious => "anxious"
    case Excited => "excited"
    case Calm => "calm"
    case Frustrated => "frustrated"
    case Content => "content"
  }

  function MoodIndex(m: Mood): (k: nat)
    ensures k < |Moods| && Moods[k] == m
  {
    match m
    case Happy => 0
    case Sad => 1
    case Angry => 2
    case Anxious => 3
    case Excited => 4
    case Calm => 5
    case Frustrated => 6
    case Content => 7
  }

  lemma MoodIndexOf(k: nat)
    requires k < |Moods|
    ensures MoodIndex(Moods[k]) == k
  {
    if k == 0 {} else if k == 1 {} else if k == 2 {} else if k == 3 {}
    else if k == 4 {} else if k == 5 {} else if k == 6 {} else {}
  }

  /** The stored mood string read as a mood; `None` for any other string,
      which the counters then skip. */
  function ParseMood(s: string): Option<Mood> {
    if s == "happy" then Some(Happy)
    else if s == "sad" then Some(Sad)
    else if s == "angry" then Some(Angry)
    else if s == "anxious" then Some(Anxious)
    else if s == "excited" then Some(Excited)
    else if s == "calm" then Some(Calm)
    else if s == "frustrated" then Some(Frustrated)
    else if s == "content" then Some(Content)
    else None
  }

  lemma ParseMoodOfName(m: Mood)
    ensures ParseMood(MoodName(m)) == Some(m)
  {
    match m {
      case Happy => case Sad => case Angry => case Anxious =>
      case Excited => case Calm => case Frustrated => case Content =>
    }
  }

  /** The stored mood: one of the eight names, or any other text, which
      TypeScript's `Mood` type does not rule out for data read back from the
      database. */
  datatype MoodField = Known(mood: Mood) | Unknown(text: string)

  function ReadMood(s: string): MoodField {
    match ParseMood(s)
    case Some(m) => Known(m)
    case None => Unknown(s)
  }

  function MoodText(f: MoodField): string {
    match f
    case Known(m) => MoodName(m)
    case Unknown(t) => t
  }

  /** Reading a stored mood loses nothing, and a text is read as a known mood
      exactly when it is one of the eight names. */
  lemma ReadMoodText(s: string)
    ensures MoodText(ReadMood(s)) == s
    ensures ReadMood(s).Unknown? <==> forall m :: MoodName(m) != s
  {
    if ReadMood(s).Unknown? {
      forall m ensures MoodName(m) != s {
        ParseMoodOfName(m);
      }
    }
  }

  /** A decrypted entry (`DiaryEntry`). `mood` is the stored mood as read;
      `createdDay` and `updatedDay` are the local days of the timestamps. */
  datatype Entry = Entry(
    id: string, userId: string, content: string, mood: MoodField,
    tags: seq<string>, images: seq<string>, createdDay: int, updatedDay: int)

  // ---------------------------------------------------------------------
  // Fetch mapping

  /** The data of a stored document; `tags` and `images` may be missing. */
  datatype StoredMoodEntry = StoredMoodEntry(
    userId: string, content: string, mood: string,
    tags: Option<seq<string>>, images: Option<seq<string>>, createdDay: int, updatedDay: int)
  datatype MoodDoc = MoodDoc(id: string, data: StoredMoodEntry)

  const DecryptionFailed: string := "[Decryption failed]"

  /** `decryptData` of src/utils/crypto.ts. `aes` is CryptoJS's decryption
      followed by the UTF-8 conversion, `Err` where either throws; the wrapper
      catches that and returns the empty text, so it never throws itself. */
  function DecryptData(aes: string -> Result<string, string>, ciphertext: string): string {
    match aes(ciphertext)
    case Ok(t) => t
    case Err(_) => ""
  }

  /** One document as the fetch loop maps it: `decrypt` may throw (`Err`),
      and a throw is replaced by the sentinel; a missing tag or image list
      becomes the empty list. */
  function MapDoc(d: MoodDoc, decrypt: string -> Result<string, string>): (e: Entry)
    ensures e.id == d.id && e.userId == d.data.userId && e.mood == ReadMood(d.data.mood)
    ensures e.createdDay == d.data.createdDay && e.updatedDay == d.data.updatedDay
    ensures e.tags == (if d.data.tags.Some? then d.data.tags.value else [])
    ensures e.images == (if d.data.images.Some? then d.data.images.value else [])
    ensures decrypt(d.data.content).Err? ==> e.content == DecryptionFailed
    ensures decrypt(d.data.content).Ok? ==> e.content == decrypt(d.data.content).value
  {
    var content := match decrypt(d.data.content)
      case Ok(t) => t
      case Err(_) => DecryptionFailed;
    Entry(d.id, d.data.userId, content, ReadMood(d.data.mood),
          d.data.tags.GetOr([]), d.data.images.GetOr([]), d.data.createdDay, d.data.updatedDay)
  }

  /** Every document mapped by `MapDoc`, in order. */
  function MapDocs(docs: seq<MoodDoc>, decrypt: string -> Result<string, string>): (r: seq<Entry>)
    ensures |r| == |docs|
    ensures forall i :: 0 <= i < |docs| ==> r[i] == MapDoc(docs[i], decrypt)
  {
    if docs == [] then [] else MapDocs(docs[..|docs| - 1], decrypt) + [MapDoc(docs[|docs| - 1], decrypt)]
  }

  /** The `snapshot.forEach` loop of `getMoodEntries`: one entry per document,
      in query order, each mapped by `MapDoc`. */
  method FetchEntries(docs: seq<MoodDoc>, decrypt: string -> Result<string, string>)
    returns (entries: seq<Entry>)
    ensures entries == MapDocs(docs, decrypt)
  {
    entries := [];
    var i := 0;
    while i < |docs|
      invariant i <= |docs|
      invariant entries == MapDocs(docs[..i], decrypt)
    {
      var e := MapDoc(docs[i], decrypt);
      assert docs[..i + 1][..i] == docs[..i];
      entries := entries + [e];
      i := i + 1;
    }
    assert docs[..i] == docs;
  }

  /** As written, the loop is handed `decryptData`, which never throws: a
      failed decryption shows as the empty text and the sentinel appears only
      if the plaintext itself is the sentinel. */
  lemma FetchSentinelUnreachable(d: MoodDoc, aes: string -> Result<string, string>)
    ensures var e := MapDoc(d, c => Ok(DecryptData(aes, c)));
      && (aes(d.data.content).Err? ==> e.content == "")
      && (e.content == DecryptionFailed ==> aes(d.data.content) == Ok(DecryptionFailed))
  {
  }

  /** A concrete document whose decryption fails comes out with empty content
      rather than the sentinel. */
  lemma FetchSentinelCounterexample()
    ensures var d := MoodDoc("a", StoredMoodEntry("u", "x", "happy", None, None, 0, 0));
      var e := MapDoc(d, c => Ok(DecryptData(c => Err("Malformed UTF-8 data"), c)));
      e.content == "" && e.content != DecryptionFailed
  {
    var d := MoodDoc("a", StoredMoodEntry("u", "x", "happy", None, None, 0, 0));
    var aes: string -> Result<string, string> := c => Err("Malformed UTF-8 data");
    assert DecryptData(aes, "x") == "";
    assert DecryptionFailed[0] == '[';
  }

  /** Handed a decryption that reports its failure, the same loop shows the
      sentinel exactly for the documents that fail. */
  lemma FetchSentinelWhenDecryptThrows(d: MoodDoc, aes: string -> Result<string, string>)
    ensures MapDoc(d, aes).content == DecryptionFailed <==>
      aes(d.data.content).Err? || aes(d.data.content) == Ok(DecryptionFailed)
  {
  }

  // ---------------------------------------------------------------------
  // Counters

  /** A `Record<Mood, number>` counter: one field per mood. */
  datatype MoodCounts = MoodCounts(
    happy: nat, sad: nat, angry: nat, anxious: nat,
    excited: nat, calm: nat, frustrated: nat, content: nat)
  {
    function Get(m: Mood): nat {
      match m
      case Happy => happy
      case Sad => sad
      case Angry => angry
      case Anxious => anxious
      case Excited => excited
      case Calm => calm
      case Frustrated => frustrated
      case Content => content
    }

    /** `counts[m]++`: that counter alone goes up by one. */
    function Incr(m: Mood): (r: MoodCounts)
      ensures r.Get(m) == Get(m) + 1
      ensures forall x :: x != m ==> r.Get(x) == Get(x)
      ensures r.Sum() == Sum() + 1
    {
      match m
      case Happy => this.(happy := happy + 1)
      case Sad => this.(sad := sad + 1)
      case Angry => this.(angry := angry + 1)
      case Anxious => this.(anxious := anxious + 1)
      case Excited => this.(excited := excited + 1)
      case Calm => this.(calm := calm + 1)
      case Frustrated => this.(frustrated := frustrated + 1)
      case Content => this.(content := content + 1)
    }

    function Sum(): nat {
      happy + sad + angry + anxious + excited + calm + frustrated + content
    }
  }

  /** Every counter at 0. */
  const NoCounts: MoodCounts := MoodCounts(0, 0, 0, 0, 0, 0, 0, 0)

  /** How many entries carry mood `m`. */
  function CountOf(entries: seq<Entry>, m: Mood): (n: nat)
    ensures n <= |entries|
  {
    if entries == [] then 0
    else
      CountOf(entries[..|entries| - 1], m)
      + (if entries[|entries| - 1].mood == Known(m) then 1 else 0)
  }

  /** How many entries carry one of the eight moods. */
  function KnownCount(entries: seq<Entry>): (n: nat)
    ensures n <= |entries|
  {
    if entries == [] then 0
    else
      KnownCount(entries[..|entries| - 1])
      + (if entries[|entries| - 1].mood.Known? then 1 else 0)
  }

  /** `counts[entry.mood]++` when the mood is one of the eight. */
  function Count(d: MoodCounts, e: Entry): MoodCounts {
    match e.mood
    case Known(m) => d.Incr(m)
    case Unknown(_) => d
  }

  /** The counter record the counting loop leaves. */
  function Distribution(entries: seq<Entry>): MoodCounts {
    if entries == [] then NoCounts
    else Count(Distribution(entries[..|entries| - 1]), entries[|entries| - 1])
  }

  /** Each counter holds the number of entries of its mood, and the counters
      add up to the number of entries whose mood is one of the eight (the
      others are skipped). */
  lemma {:induction false} DistributionCounts(entries: seq<Entry>)
    ensures forall m :: Distribution(entries).Get(m) == CountOf(entries, m)
    ensures Distribution(entries).Sum() == KnownCount(entries)
    decreases |entries|
  {
    if entries != [] {
      DistributionCounts(entries[..|entries| - 1]);
    }
  }

  /** The counting loop over `entries` (also the day counter of the trend):
      every counter starts at 0 and each entry with a known mood increments
      its own counter. */
  method CountMoods(entries: seq<Entry>) returns (dist: MoodCounts)
    ensures dist == Distribution(entries)
  {
    dist := NoCounts;
    var i := 0;
    while i < |entries|
      invariant i <= |entries|
      invariant dist == Distribution(entries[..i])
    {
      assert entries[..i + 1][..i] == entries[..i];
      match entries[i].mood {
        case Known(m) => dist := dist.Incr(m);
        case Unknown(_) =>
      }
      assert dist == Count(Distribution(entries[..i]), entries[i]);
      i := i + 1;
    }
    assert entries[..i] == entries;
  }

  // ---------------------------------------------------------------------
  // The first-wins maximum

  /** One step of `reduce((max, cur) => cur[1] > max[1] ? cur : max)`. */
  function Pick(counts: MoodCounts, max: Mood, cur: Mood): Mood {
    if counts.Get(cur) > counts.Get(max) then cur else max
  }

  /** The reduce over the eight keys in order, starting from the first. */
  function MostFrequent(counts: MoodCounts): Mood {
    var m1 := Pick(counts, Happy, Sad);
    var m2 := Pick(counts, m1, Angry);
    var m3 := Pick(counts, m2, Anxious);
    var m4 := Pick(counts, m3, Excited);
    var m5 := Pick(counts, m4, Calm);
    var m6 := Pick(counts, m5, Frustrated);
    Pick(counts, m6, Content)
  }

  /** `m` is the first maximum among the first `k` keys. */
  predicate FirstMaxAmong(counts: MoodCounts, m: Mood, k: nat)
    requires k <= |Moods|
  {
    && MoodIndex(m) < k
    && (forall j :: 0 <= j < k ==> counts.Get(Moods[j]) <= counts.Get(m))
    && (forall j :: 0 <= j < MoodIndex(m) ==> counts.Get(Moods[j]) < counts.Get(m))
  }

  lemma PickStep(counts: MoodCounts, max: Mood, k: nat)
    requires 1 <= k < |Moods| && FirstMaxAmong(counts, max, k)
    ensures FirstMaxAmong(counts, Pick(counts, max, Moods[k]), k + 1)
  {
    MoodIndexOf(k);
  }

  /** The reduce yields the mood with the largest counter and, because the
      comparison is strict, on a tie the earliest in declaration order. */
  lemma MostFrequentIsFirstMax(counts: MoodCounts)
    ensures forall x :: counts.Get(x) <= counts.Get(MostFrequent(counts))
    ensures forall x :: MoodIndex(x) < MoodIndex(MostFrequent(counts)) ==>
      counts.Get(x) < counts.Get(MostFrequent(counts))
  {
    var m0 := Happy;
    assert FirstMaxAmong(counts, m0, 1);
    var m1 := Pick(counts, m0, Moods[1]);
    PickStep(counts, m0, 1);
    var m2 := Pick(counts, m1, Moods[2]);
    PickStep(counts, m1, 2);
    var m3 := Pick(counts, m2, Moods[3]);
    PickStep(counts, m2, 3);
    var m4 := Pick(counts, m3, Moods[4]);
    PickStep(counts, m3, 4);
    var m5 := Pick(counts, m4, Moods[5]);
    PickStep(counts, m4, 5);
    var m6 := Pick(counts, m5, Moods[6]);
    PickStep(counts, m5, 6);
    var m7 := Pick(counts, m6, Moods[7]);
    PickStep(counts, m6, 7);
    assert m7 == MostFrequent(counts);
    forall x ensures counts.Get(x) <= counts.Get(m7) {
      assert Moods[MoodIndex(x)] == x;
    }
    forall x | MoodIndex(x) < MoodIndex(m7) ensures counts.Get(x) < counts.Get(m7) {
      assert Moods[MoodIndex(x)] == x;
    }
  }

  /** The two properties pin the result down: no other mood has both. */
  lemma FirstMaximumUnique(counts: MoodCounts, m: Mood)
    requires forall x :: counts.Get(x) <= counts.Get(m)
    requires forall x :: MoodIndex(x) < MoodIndex(m) ==> counts.Get(x) < counts.Get(m)
    ensures m == MostFrequent(counts)
  {
    var r := MostFrequent(counts);
    MostFrequentIsFirstMax(counts);
    assert counts.Get(r) <= counts.Get(m) && counts.Get(m) <= counts.Get(r);
    assert Moods[MoodIndex(r)] == r && Moods[MoodIndex(m)] == m;
  }

  // ---------------------------------------------------------------------
  // Streak

  /** Days from an entry to today; positive in the past. */
  function DayDiff(e: Entry, today: int): int {
    today - e.createdDay
  }

  /** Some entry lies exactly `d` days back. */
  predicate HasEntryDaysAgo(entries: seq<Entry>, today: int, d: int) {
    exists j :: 0 <= j < |entries| && DayDiff(entries[j], today) == d
  }

  /** The order of the query: newest first. */
  predicate NewestFirst(entries: seq<Entry>) {
    forall i, j :: 0 <= i < j < |entries| ==> entries[j].createdDay <= entries[i].createdDay
  }

  /** The streak loop from index `i` with the count at `s`: a difference
      equal to the count extends it, a larger one ends the loop, a smaller
      one (a second entry of a counted day, or a future date) is skipped. */
  function StreakFrom(entries: seq<Entry>, today: int, i: nat, s: nat): nat
    requires i <= |entries|
    decreases |entries| - i
  {
    if i == |entries| then s
    else
      var d := DayDiff(entries[i], today);
      if d == s then StreakFrom(entries, today, i + 1, s + 1)
      else if d > s then s
      else StreakFrom(entries, today, i + 1, s)
  }

  function Streak(entries: seq<Entry>, today: int): nat {
    StreakFrom(entries, today, 0, 0)
  }

  lemma {:induction false} StreakFromBounds(entries: seq<Entry>, today: int, i: nat, s: nat)
    requires i <= |entries| && s <= i
    ensures s <= StreakFrom(entries, today, i, s) <= |entries|
    decreases |entries| - i
  {
    if i < |entries| {
      var d := DayDiff(entries[i], today);
      if d == s {
        StreakFromBounds(entries, today, i + 1, s + 1);
      } else if d < s {
        StreakFromBounds(entries, today, i + 1, s);
      }
    }
  }

  lemma {:induction false} StreakFromCovered(entries: seq<Entry>, today: int, i: nat, s: nat)
    requires i <= |entries|
    requires forall d :: 0 <= d < s ==> HasEntryDaysAgo(entries, today, d)
    ensures forall d :: 0 <= d < StreakFrom(entries, today, i, s) ==> HasEntryDaysAgo(entries, today, d)
    decreases |entries| - i
  {
    if i < |entries| {
      var d := DayDiff(entries[i], today);
      if d == s {
        assert HasEntryDaysAgo(entries, today, s);
        StreakFromCovered(entries, today, i + 1, s + 1);
      } else if d < s {
        StreakFromCovered(entries, today, i + 1, s);
      }
    }
  }

  lemma {:induction false} StreakFromMissing(entries: seq<Entry>, today: int, i: nat, s: nat)
    requires i <= |entries| && NewestFirst(entries)
    requires forall j :: 0 <= j < i ==> DayDiff(entries[j], today) < s
    ensures !HasEntryDaysAgo(entries, today, StreakFrom(entries, today, i, s))
    decreases |entries| - i
  {
    if i < |entries| {
      var d := DayDiff(entries[i], today);
      if d == s {
        StreakFromMissing(entries, today, i + 1, s + 1);
      } else if d > s {
        forall j | 0 <= j < |entries| ensures DayDiff(entries[j], today) != s {
          if j >= i {
            assert entries[j].createdDay <= entries[i].createdDay;
          }
        }
      } else {
        StreakFromMissing(entries, today, i + 1, s);
      }
    }
  }

  /** The streak never exceeds the number of entries, and every day back from
      today below it has an entry. */
  lemma StreakCovered(entries: seq<Entry>, today: int)
    ensures Streak(entries, today) <= |entries|
    ensures forall d :: 0 <= d < Streak(entries, today) ==> HasEntryDaysAgo(entries, today, d)
  {
    StreakFromBounds(entries, today, 0, 0);
    StreakFromCovered(entries, today, 0, 0);
  }

  /** For entries newest first, as the query returns them, the streak is
      exactly the number of consecutive days back from today that each have
      an entry: the first day without one is the streak itself. */
  lemma StreakOfNewestFirst(entries: seq<Entry>, today: int)
    requires NewestFirst(entries)
    ensures forall d :: 0 <= d < Streak(entries, today) ==> HasEntryDaysAgo(entries, today, d)
    ensures !HasEntryDaysAgo(entries, today, Streak(entries, today))
  {
    StreakFromCovered(entries, today, 0, 0);
    StreakFromMissing(entries, today, 0, 0);
  }

  /** The streak loop with its `break`. */
  method StreakDays(entries: seq<Entry>, today: int) returns (streak: nat)
    ensures streak == Streak(entries, today)
  {
    streak := 0;
    var i := 0;
    while i < |entries|
      invariant i <= |entries|
      invariant StreakFrom(entries, today, i, streak) == Streak(entries, today)
    {
      var dayDiff := today - entries[i].createdDay;
      if dayDiff == streak {
        streak := streak + 1;
      } else if dayDiff > streak {
        break;
      }
      i := i + 1;
    }
  }

  // ---------------------------------------------------------------------
  // Weekly trend

  /** `entries.filter(...)` for the entries of one day, in order. */
  function EntriesOn(entries: seq<Entry>, day: int): (r: seq<Entry>)
    ensures |r| <= |entries|
  {
    if entries == [] then []
    else
      var rest := EntriesOn(entries[..|entries| - 1], day);
      var last := entries[|entries| - 1];
      if last.createdDay == day then rest + [last] else rest
  }

  /** The day's filter keeps exactly the entries created that day. */
  lemma {:induction false} EntriesOnMembers(entries: seq<Entry>, day: int)
    ensures forall x :: x in EntriesOn(entries, day) <==> x in entries && x.createdDay == day
    decreases |entries|
  {
    if entries != [] {
      var n := |entries| - 1;
      EntriesOnMembers(entries[..n], day);
      assert entries == entries[..n] + [entries[n]];
    }
  }

  /** The positions of the entries created on `day`. */
  function PositionsOn(entries: seq<Entry>, day: int): set<nat> {
    set i: nat | i < |entries| && entries[i].createdDay == day
  }

  /** The day's filter keeps one entry for every position holding an entry
      of that day. */
  lemma {:induction false} EntriesOnCount(entries: seq<Entry>, day: int)
    ensures |EntriesOn(entries, day)| == |PositionsOn(entries, day)|
    decreases |entries|
  {
    if entries != [] {
      var n := |entries| - 1;
      EntriesOnCount(entries[..n], day);
      PositionsOnSnoc(entries, day);
    }
  }

  /** The positions of a non-empty list are those of its prefix, plus the
      last one when that entry is of the day. */
  lemma PositionsOnSnoc(entries: seq<Entry>, day: int)
    requires entries != []
    ensures var n := |entries| - 1;
      |PositionsOn(entries, day)| ==
        |PositionsOn(entries[..n], day)| + (if entries[n].createdDay == day then 1 else 0)
  {
    var n := |entries| - 1;
    var prefix := entries[..n];
    var before := PositionsOn(prefix, day);
    forall i: nat | i < n
      ensures i in PositionsOn(entries, day) <==> i in before
    {
      assert prefix[i] == entries[i];
    }
    if entries[n].createdDay == day {
      assert PositionsOn(entries, day) == before + {n};
      assert n !in before;
    } else {
      assert PositionsOn(entries, day) == before;
    }
  }

  /** One element of `weeklyMoodTrend`; `day` stands for its date string. */
  datatype TrendDay = TrendDay(day: int, mood: Mood, count: nat)

  /** The trend element of one day: its number of entries, unknown moods
      included, and its most frequent known mood, or "content" for a day
      without entries. */
  function TrendOf(entries: seq<Entry>, day: int): (t: TrendDay)
    ensures t.day == day && t.count == |EntriesOn(entries, day)|
    ensures t.count == 0 ==> t.mood == Content
  {
    var onDate := EntriesOn(entries, day);
    if |onDate| > 0 then TrendDay(day, MostFrequent(Distribution(onDate)), |onDate|)
    else TrendDay(day, Content, 0)
  }

  /** On a day with entries the trend mood has the most entries of that day,
      and every mood declared before it has strictly fewer. */
  lemma TrendMood(entries: seq<Entry>, day: int)
    requires TrendOf(entries, day).count > 0
    ensures var onDate, m := EntriesOn(entries, day), TrendOf(entries, day).mood;
      && (forall x :: CountOf(onDate, x) <= CountOf(onDate, m))
      && (forall x :: MoodIndex(x) < MoodIndex(m) ==> CountOf(onDate, x) < CountOf(onDate, m))
  {
    DistributionCounts(EntriesOn(entries, day));
    MostFrequentIsFirstMax(Distribution(EntriesOn(entries, day)));
  }

  /** A day's trend count is the number of entries created that day. */
  lemma TrendCount(entries: seq<Entry>, day: int)
    ensures TrendOf(entries, day).count == |PositionsOn(entries, day)|
  {
    EntriesOnCount(entries, day);
  }

  /** One pass of the trend loop: filter the day's entries, then count their
      moods and take the most frequent one, or "content" and 0. */
  method DayTrend(entries: seq<Entry>, day: int) returns (item: TrendDay)
    ensures item == TrendOf(entries, day)
  {
    var entriesOnDate := EntriesOn(entries, day);
    if |entriesOnDate| > 0 {
      var dayMoodCount := CountMoods(entriesOnDate);
      var mostFrequentMood := MostFrequent(dayMoodCount);
      item := TrendDay(day, mostFrequentMood, |entriesOnDate|);
    } else {
      item := TrendDay(day, Content, 0);
    }
  }

  /** The first `n` elements of the trend: the days from six days ago on. */
  function TrendPrefix(entries: seq<Entry>, today: int, n: nat): (t: seq<TrendDay>)
    ensures |t| == n
    decreases n
  {
    if n == 0 then [] else TrendPrefix(entries, today, n - 1) + [TrendOf(entries, today - 7 + n)]
  }

  /** `weeklyMoodTrend`: seven elements, oldest first. */
  function Trend(entries: seq<Entry>, today: int): seq<TrendDay> {
    TrendPrefix(entries, today, 7)
  }

  /** Element `k` of the trend describes the day `6 - k` days back. */
  lemma {:induction false} TrendPrefixAt(entries: seq<Entry>, today: int, n: nat, k: nat)
    requires k < n
    ensures TrendPrefix(entries, today, n)[k] == TrendOf(entries, today - 6 + k)
    decreases n
  {
    if k < n - 1 {
      TrendPrefixAt(entries, today, n - 1, k);
    }
  }

  /** The trend has seven elements: element `k` describes the day `6 - k`
      days before today, so the last one is today. */
  lemma TrendDays(entries: seq<Entry>, today: int)
    ensures |Trend(entries, today)| == 7
    ensures forall k :: 0 <= k < 7 ==> Trend(entries, today)[k] == TrendOf(entries, today - 6 + k)
  {
    forall k | 0 <= k < 7 ensures Trend(entries, today)[k] == TrendOf(entries, today - 6 + k) {
      TrendPrefixAt(entries, today, 7, k);
    }
  }

  /** One more trend element is the day `6 - n` days back. */
  lemma TrendPrefixStep(entries: seq<Entry>, today: int, n: nat)
    ensures TrendPrefix(entries, today, n + 1) == TrendPrefix(entries, today, n) + [TrendOf(entries, today - 6 + n)]
  {
  }

  /** The trend loop, `i` running from 6 down to 0. */
  method WeeklyTrend(entries: seq<Entry>, today: int) returns (trend: seq<TrendDay>)
    ensures trend == Trend(entries, today)
  {
    trend := [];
    var i := 6;
    while i >= 0
      invariant -1 <= i <= 6
      invariant trend == TrendPrefix(entries, today, 6 - i)
    {
      var item := DayTrend(entries, today - i);
      TrendPrefixStep(entries, today, 6 - i);
      trend := trend + [item];
      i := i - 1;
    }
  }

  // ---------------------------------------------------------------------
  // Analytics and insights

  datatype Analytics = Analytics(
    distribution: MoodCounts, weeklyTrend: seq<TrendDay>, streakDays: nat, totalEntries: nat)

  /** `getMoodAnalytics`: the distribution, the trend, the streak and the
      number of entries. */
  method GetMoodAnalytics(entries: seq<Entry>, today: int) returns (a: Analytics)
    ensures a.distribution == Distribution(entries)
    ensures a.weeklyTrend == Trend(entries, today)
    ensures a.streakDays == Streak(entries, today)
    ensures a.totalEntries == |entries|
  {
    var distribution := CountMoods(entries);
    var streakDays := StreakDays(entries, today);
    var weeklyTrend := WeeklyTrend(entries, today);
    a := Analytics(distribution, weeklyTrend, streakDays, |entries|);
  }

  const PositiveMoods: set<Mood> := {Happy, Excited, Calm, Content}
  const ToughMoods: set<Mood> := {Sad, Angry, Anxious, Frustrated}

  // The lines are written as a short opening and the rest, which keeps their
  // first characters visible to the verifier.

  function CommonMoodLine(m: Mood): string {
    "Your " + "most common mood this week is **" + MoodName(m) + "**."
  }

  function StreakLine(n: nat): string {
    "You're " + "on a journaling streak of " + NatToString(n) + " days! Keep going!"
  }

  const PositiveLine: string :=
    "You've " + "been enjoying several positive days. Keep up the great work! " + ['\U{1F31E}']
  const ToughLine: string :=
    "You seem " + "to have had a few tough days. Remember, it's okay to feel those emotions."
  const HabitLine: string :=
    "You" + ['\U{2019}'] + "re " + "building a consistent journaling habit " + ['\U{2014}'] + " well done!"

  /** The moods of the last three days of the trend (`slice(-3)`): the day
      before yesterday, yesterday and today. */
  function RecentMoods(trend: seq<TrendDay>): seq<Mood>
    requires |trend| == 7
  {
    [trend[4].mood, trend[5].mood, trend[6].mood]
  }

  /** `every(m => list.includes(m))`. */
  predicate AllIn(ms: seq<Mood>, moods: set<Mood>) {
    forall k :: 0 <= k < |ms| ==> ms[k] in moods
  }

  /** The five kinds of line differ in their fourth or fifth character. */
  lemma LinesDistinct(m: Mood, n: nat)
    ensures CommonMoodLine(m)[3] == 'r'
    ensures StreakLine(n)[3] == '\'' && StreakLine(n)[4] == 'r'
    ensures PositiveLine[3] == '\'' && PositiveLine[4] == 'v'
    ensures ToughLine[3] == ' '
    ensures HabitLine[3] == '\U{2019}'
  {
  }

  /** The lines `getMoodInsights` pushes, in order, once there are entries. */
  function InsightLines(common: Mood, streak: nat, recent: seq<Mood>, total: nat): seq<string> {
    [CommonMoodLine(common)]
    + (if streak > 1 then [StreakLine(streak)] else [])
    + (if AllIn(recent, PositiveMoods) then [PositiveLine]
       else if AllIn(recent, ToughMoods) then [ToughLine]
       else [])
    + (if total >= 7 then [HabitLine] else [])
  }

  /** The first line names the most common mood and at most three follow. */
  lemma InsightLinesShape(common: Mood, streak: nat, recent: seq<Mood>, total: nat)
    ensures var ins := InsightLines(common, streak, recent, total);
      1 <= |ins| <= 4 && ins[0] == CommonMoodLine(common)
  {
  }

  /** The streak line is there exactly when the streak is longer than one day,
      and the habit line exactly from seven entries on. */
  lemma InsightLinesCounts(common: Mood, streak: nat, recent: seq<Mood>, total: nat)
    ensures var ins := InsightLines(common, streak, recent, total);
      && (StreakLine(streak) in ins <==> streak > 1)
      && (HabitLine in ins <==> total >= 7)
  {
    LinesDistinct(common, streak);
  }

  /** Three recent moods cannot be all positive and all tough at once. */
  lemma PositiveNotTough(recent: seq<Mood>)
    requires |recent| == 3
    ensures !(AllIn(recent, PositiveMoods) && AllIn(recent, ToughMoods))
  {
    if AllIn(recent, ToughMoods) {
      assert recent[0] in ToughMoods;
    }
  }

  /** The positive line is there exactly when the last three days were all
      positive, the tough line exactly when they were all tough, never both. */
  lemma InsightLinesMoods(common: Mood, streak: nat, recent: seq<Mood>, total: nat)
    requires |recent| == 3
    ensures var ins := InsightLines(common, streak, recent, total);
      && (PositiveLine in ins <==> AllIn(recent, PositiveMoods))
      && (ToughLine in ins <==> AllIn(recent, ToughMoods))
      && !(PositiveLine in ins && ToughLine in ins)
  {
    LinesDistinct(common, streak);
    PositiveNotTough(recent);
  }

  /** `getMoodInsights`: nothing for no entries; otherwise the lines of
      `InsightLines` for the analytics of the entries. */
  method GetMoodInsights(entries: seq<Entry>, today: int) returns (insights: seq<string>)
    ensures entries == [] ==> insights == []
    ensures entries != [] ==> insights == InsightLines(
      MostFrequent(Distribution(entries)), Streak(entries, today),
      RecentMoods(Trend(entries, today)), |entries|)
  {
    if |entries| == 0 {
      return [];
    }
    var analytics := GetMoodAnalytics(entries, today);
    var mostCommonMood := MostFrequent(analytics.distribution);
    var streakPart: seq<string> := [];
    if analytics.streakDays > 1 {
      streakPart := [StreakLine(analytics.streakDays)];
    }
    var recentMoods := RecentMoods(analytics.weeklyTrend);
    var moodPart: seq<string> := [];
    if AllIn(recentMoods, PositiveMoods) {
      moodPart := [PositiveLine];
    } else if AllIn(recentMoods, ToughMoods) {
      moodPart := [ToughLine];
    }
    var habitPart: seq<string> := [];
    if analytics.totalEntries >= 7 {
      habitPart := [HabitLine];
    }
    insights := [CommonMoodLine(mostCommonMood)] + streakPart + moodPart + habitPart;
  }
}
