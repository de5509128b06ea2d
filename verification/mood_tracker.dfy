/** The mood tracker page: the fixed mood-to-score table, logging a mood into a
    list that keeps only the newest thirty entries, the ten-point chart series,
    and the trend that compares the newest five scores with an earlier window. */
module MoodTracker {

  import opened Wrappers
  import opened Seqs

  datatype Mood = Ecstatic | Happy | Meh | Sad | Angry | Anxious | Tired

  /** The label a mood is stored under. */
  function MoodName(m: Mood): string {
    match m
    case Ecstatic => "ecstatic"
    case Happy => "happy"
    case Meh => "meh"
    case Sad => "sad"
    case Angry => "angry"
    case Anxious => "anxious"
    case Tired => "tired"
  }

  /** The score table `moodScores`. */
  function Score(m: Mood): int {
    match m
    case Ecstatic => 5
    case Happy => 4
    case Meh => 3
    case Sad => 2
    case Angry => 1
    case Anxious => 2
    case Tired => 2
  }

  /** Every score is an integer in 1..5; anger alone scores lowest and
      ecstasy alone scores highest. */
  lemma ScoreRange(m: Mood)
    ensures 1 <= Score(m) <= 5
    ensures Score(m) == 1 <==> m == Angry
    ensures Score(m) == 5 <==> m == Ecstatic
  {
  }

  /** An entry of the picker table `moodOptions` (the icon is not modelled). */
  datatype MoodOption = MoodOption(mood: Mood, name: string, color: string)

  const MoodOptions: seq<MoodOption> := [
    MoodOption(Ecstatic, "Ecstatic", "hsl(var(--chart-1))"),
    MoodOption(Happy, "Happy", "hsl(var(--chart-2))"),
    MoodOption(Meh, "Meh", "hsl(var(--chart-3))"),
    MoodOption(Sad, "Sad", "hsl(var(--chart-4))"),
    MoodOption(Angry, "Angry", "hsl(var(--chart-5))"),
    MoodOption(Anxious, "Anxious", "hsl(var(--accent))"),
    MoodOption(Tired, "Tired", "hsl(var(--muted-foreground))")
  ]

  const FallbackFill: string := "hsl(var(--foreground))"

  /** Position `i` holds the first option for mood `m`. */
  predicate FirstWith(options: seq<MoodOption>, m: Mood, i: int) {
    0 <= i < |options| && options[i].mood == m && forall j :: 0 <= j < i ==> options[j].mood != m
  }

  /** `options.find(opt => opt.mood === m)?.color`: the colour of the first
      option for the mood. */
  function FindColor(options: seq<MoodOption>, m: Mood): (r: Option<string>)
    ensures r.Some? <==> exists i :: 0 <= i < |options| && options[i].mood == m
    ensures r.Some? ==> exists i :: FirstWith(options, m, i) && options[i].color == r.value
  {
    if options == [] then None
    else if options[0].mood == m then
      assert FirstWith(options, m, 0);
      Some(options[0].color)
    else
      var r := FindColor(options[1..], m);
      assert forall i :: 1 <= i < |options| ==> options[i] == options[1..][i - 1];
      if r.Some? then
        var k :| FirstWith(options[1..], m, k) && options[1..][k].color == r.value;
        assert FirstWith(options, m, k + 1);
        r
      else r
  }

  /** The bar colour of a chart point: the colour of the mood's picker entry. */
  function Fill(m: Mood): (r: string)
    ensures exists i :: 0 <= i < |MoodOptions| && MoodOptions[i].mood == m && MoodOptions[i].color == r
  {
    FillFromTable(m);
    FindColor(MoodOptions, m).GetOr(FallbackFill)
  }

  /** Every mood has a picker entry, so a bar is always coloured from the table
      and the fallback colour is never used. */
  lemma FillFromTable(m: Mood)
    ensures FindColor(MoodOptions, m).Some?
  {
    var i := match m
      case Ecstatic => 0 case Happy => 1 case Meh => 2 case Sad => 3
      case Angry => 4 case Anxious => 5 case Tired => 6;
    assert MoodOptions[i].mood == m;
  }

  /** A logged mood. `date` is the clock reading at logging time; the page
      renders a separate reading of the same clock as the entry's id, which
      is not modelled. */
  datatype MoodLog = MoodLog(date: int, mood: Mood, notes: Option<string>)

  /** The page state: the mood picked in the selector and the stored logs,
      newest first. */
  datatype Tracker = Tracker(selected: Option<Mood>, logs: seq<MoodLog>)

  /** The notification shown after pressing "Log Mood". */
  datatype Notice = NoMoodSelected | MoodLogged(mood: Mood)

  datatype LogOutcome = LogOutcome(tracker: Tracker, notice: Notice)

  const MaxLogs: nat := 30

  /** `handleLogMood`: without a selection nothing changes; otherwise the new log
      goes in front of at most 29 of the old ones and the selection is cleared. */
  function LogMood(t: Tracker, now: int): (r: LogOutcome)
    ensures t.selected.None? ==> r.tracker == t && r.notice == NoMoodSelected
    ensures t.selected.Some? ==>
      && r.notice == MoodLogged(t.selected.value)
      && r.tracker.selected.None?
      && |r.tracker.logs| == Min(MaxLogs, |t.logs| + 1)
      && r.tracker.logs[0] == MoodLog(now, t.selected.value, None)
      && r.tracker.logs[1..] == t.logs[..|r.tracker.logs| - 1]
  {
    match t.selected
    case None => LogOutcome(t, NoMoodSelected)
    case Some(m) =>
      var newLog := MoodLog(now, m, None);
      LogOutcome(Tracker(None, [newLog] + t.logs[..Min(MaxLogs - 1, |t.logs|)]), MoodLogged(m))
  }

  /** Newest first: dates never increase along the list. */
  predicate NewestFirst(logs: seq<MoodLog>) {
    forall i, j :: 0 <= i < j < |logs| ==> logs[i].date >= logs[j].date
  }

  /** Logging keeps the list capped at thirty and, when the clock has not gone
      backwards, newest first; a full list loses exactly its oldest entry. */
  lemma LogMoodKeepsNewestThirty(t: Tracker, now: int)
    requires |t.logs| <= MaxLogs && NewestFirst(t.logs)
    requires t.logs != [] ==> now >= t.logs[0].date
    ensures |LogMood(t, now).tracker.logs| <= MaxLogs
    ensures NewestFirst(LogMood(t, now).tracker.logs)
    ensures t.selected.Some? && |t.logs| == MaxLogs ==>
      LogMood(t, now).tracker.logs[1..] == t.logs[..MaxLogs - 1]
  {
    var r := LogMood(t, now).tracker.logs;
    if t.selected.Some? {
      forall i, j | 0 <= i < j < |r|
        ensures r[i].date >= r[j].date
      {
        assert r[j] == t.logs[j - 1];
        if i > 0 {
          assert r[i] == t.logs[i - 1];
        } else {
          assert t.logs[0].date >= t.logs[j - 1].date || j == 1;
        }
      }
    }
  }

  // ----- the chart series -------------------------------------------------------

  /** Oldest first: dates never decrease along the list. */
  predicate OldestFirst(logs: seq<MoodLog>) {
    forall i, j :: 0 <= i < j < |logs| ==> logs[i].date <= logs[j].date
  }

  /** Inserts `x` into an oldest-first list before the first log that is not older. */
  function InsertByDate(x: MoodLog, s: seq<MoodLog>): (r: seq<MoodLog>)
    requires OldestFirst(s)
    ensures OldestFirst(r)
    ensures multiset(r) == multiset(s) + multiset{x}
    ensures |r| == |s| + 1
    ensures r[0] == x || (s != [] && r[0] == s[0])
  {
    if s == [] then [x]
    else if x.date <= s[0].date then InsertHead(x, s); [x] + s
    else
      OldestFirstTail(s);
      var rest := InsertByDate(x, s[1..]);
      assert multiset(s) == multiset{s[0]} + multiset(s[1..]) by {
        assert s == [s[0]] + s[1..];
      }
      InsertHead(s[0], rest);
      [s[0]] + rest
  }

  /** Dropping the oldest log keeps a list oldest-first. */
  lemma OldestFirstTail(s: seq<MoodLog>)
    requires OldestFirst(s) && s != []
    ensures OldestFirst(s[1..])
  {
    forall i, j | 0 <= i < j < |s| - 1
      ensures s[1..][i].date <= s[1..][j].date
    {
      assert s[1..][i] == s[i + 1] && s[1..][j] == s[j + 1];
    }
  }

  /** A log no later than the head of an oldest-first list can go in front of it. */
  lemma InsertHead(a: MoodLog, rest: seq<MoodLog>)
    requires OldestFirst(rest)
    requires rest != [] ==> a.date <= rest[0].date
    ensures OldestFirst([a] + rest)
  {
    var r := [a] + rest;
    forall i, j | 0 <= i < j < |r|
      ensures r[i].date <= r[j].date
    {
      if i == 0 {
        assert r[j] == rest[j - 1];
      } else {
        assert r[i] == rest[i - 1] && r[j] == rest[j - 1];
      }
    }
  }

  /** The `sort` by ascending date applied to a copy of the logs. */
  function SortByDate(s: seq<MoodLog>): (r: seq<MoodLog>)
    ensures OldestFirst(r)
    ensures multiset(r) == multiset(s)
    ensures |r| == |s|
  {
    if s == [] then []
    else
      assert s == [s[0]] + s[1..];
      InsertByDate(s[0], SortByDate(s[1..]))
  }

  /** The logs the chart shows: the last ten after sorting, so at most ten,
      oldest first, and all of them stored logs. */
  function ChartLogs(logs: seq<MoodLog>): (r: seq<MoodLog>)
    ensures |r| == Min(10, |logs|)
    ensures OldestFirst(r)
    ensures multiset(r) <= multiset(logs)
  {
    var sorted := SortByDate(logs);
    var k := |sorted| - Min(10, |sorted|);
    SplitMultiset(sorted, k);
    assert Last(sorted, 10) == sorted[k..];
    Last(sorted, 10)
  }

  /** A bar of the chart. The date is kept as the timestamp; the page formats
      it as a short month-and-day label. */
  datatype ChartPoint = ChartPoint(date: int, moodScore: int, fill: string)

  function ToPoint(log: MoodLog): ChartPoint {
    ChartPoint(log.date, Score(log.mood), Fill(log.mood))
  }

  /** One bar per log, in the same order. */
  function ToPoints(logs: seq<MoodLog>): (r: seq<ChartPoint>)
    ensures |r| == |logs|
    ensures forall i :: 0 <= i < |r| ==> r[i] == ToPoint(logs[i])
  {
    if logs == [] then [] else [ToPoint(logs[0])] + ToPoints(logs[1..])
  }

  /** `chartData`: at most ten bars, in ascending date order. */
  function ChartData(logs: seq<MoodLog>): (r: seq<ChartPoint>)
    ensures |r| == Min(10, |logs|)
    ensures forall i, j :: 0 <= i < j < |r| ==> r[i].date <= r[j].date
    ensures forall i :: 0 <= i < |r| ==> 1 <= r[i].moodScore <= 5
  {
    var shown := ChartLogs(logs);
    PointsFacts(shown);
    ToPoints(shown)
  }

  /** The bars of an oldest-first list keep its dates in order and score 1 to 5. */
  lemma PointsFacts(shown: seq<MoodLog>)
    requires OldestFirst(shown)
    ensures forall i, j :: 0 <= i < j < |ToPoints(shown)| ==> ToPoints(shown)[i].date <= ToPoints(shown)[j].date
    ensures forall i :: 0 <= i < |ToPoints(shown)| ==> 1 <= ToPoints(shown)[i].moodScore <= 5
  {
    var r := ToPoints(shown);
    forall i | 0 <= i < |r|
      ensures r[i].date == shown[i].date && 1 <= r[i].moodScore <= 5
    {
      PointFacts(shown[i]);
    }
  }

  lemma PointFacts(log: MoodLog)
    ensures ToPoint(log).date == log.date && 1 <= ToPoint(log).moodScore <= 5
  {
    ScoreRange(log.mood);
  }

  /** The chart draws from the most recent logs: its logs are drawn from the
      stored ones, and every stored log it leaves out is no newer than any
      log it shows. */
  lemma ChartShowsNewest(logs: seq<MoodLog>)
    ensures multiset(ChartLogs(logs)) <= multiset(logs)
    ensures forall x, y :: x in multiset(logs) - multiset(ChartLogs(logs)) && y in ChartLogs(logs) ==>
      x.date <= y.date
    ensures forall i :: 0 <= i < |ChartData(logs)| ==> ChartData(logs)[i] == ToPoint(ChartLogs(logs)[i])
  {
    var sorted := SortByDate(logs);
    var k := |sorted| - Min(10, |sorted|);
    SplitMultiset(sorted, k);
    SplitOrdered(sorted, k);
  }

  lemma SplitMultiset(s: seq<MoodLog>, k: nat)
    requires k <= |s|
    ensures multiset(s) - multiset(s[k..]) == multiset(s[..k])
    ensures multiset(s[k..]) <= multiset(s)
  {
    assert s == s[..k] + s[k..];
  }

  /** In an oldest-first list, everything before position `k` is no newer than
      anything from `k` on. */
  lemma SplitOrdered(s: seq<MoodLog>, k: nat)
    requires k <= |s| && OldestFirst(s)
    ensures forall x, y :: x in multiset(s[..k]) && y in s[k..] ==> x.date <= y.date
  {
    forall x: MoodLog, y: MoodLog | x in multiset(s[..k]) && y in s[k..]
      ensures x.date <= y.date
    {
      assert x in s[..k];
      var i :| 0 <= i < k && s[i] == x;
      var j :| k <= j < |s| && s[j] == y;
    }
  }

  // ----- the trend ------------------------------------------------------------------

  datatype Trend = Up | Down | Stable

  datatype TrendResult = TrendResult(trend: Trend, change: real)

  function Scores(logs: seq<MoodLog>): (r: seq<int>)
    ensures |r| == |logs|
    ensures forall i :: 0 <= i < |r| ==> r[i] == Score(logs[i].mood) && 1 <= r[i] <= 5
  {
    seq(|logs|, i requires 0 <= i < |logs| => Score(logs[i].mood))
  }

  /** The scores of the newest (at most) five logs. */
  function LatestWindow(logs: seq<MoodLog>): seq<int> {
    Scores(logs[..Min(5, |logs|)])
  }

  /** The scores compared against: the single oldest log when there are at most
      five, otherwise the logs at positions 5 up to (not including) 10. */
  function PreviousWindow(logs: seq<MoodLog>): seq<int> {
    if |logs| == 0 then []
    else if |logs| <= 5 then [Score(logs[|logs| - 1].mood)]
    else Scores(logs[5..Min(10, |logs|)])
  }

  /** The thresholds: a change above one half is up, below minus one half is down. */
  function Classify(change: real): (t: Trend)
    ensures t == Up <==> change > 0.5
    ensures t == Down <==> change < -0.5
    ensures t == Stable <==> -0.5 <= change <= 0.5
  {
    if change > 0.5 then Up else if change < -0.5 then Down else Stable
  }

  /** `getMoodTrend`, including its two early returns. The reported trend is
      always the classification of the reported change. */
  function MoodTrend(logs: seq<MoodLog>): (r: TrendResult)
    ensures r.trend == Classify(r.change)
    ensures |logs| < 2 ==> r.change == 0.0
  {
    if |logs| < 2 then TrendResult(Stable, 0.0)
    else
      var latest := LatestWindow(logs);
      if |latest| < 2 then TrendResult(Stable, 0.0)
      else
        var previous := PreviousWindow(logs);
        if |previous| == 0 then TrendResult(Stable, 0.0)
        else
          var change := Mean(latest) - Mean(previous);
          TrendResult(Classify(change), change)
  }

  /** Once there are two logs the later guards never fire: the newest window
      has at least two scores and the earlier window at least one, so the
      trend is the classified difference of the two means. */
  lemma TrendWindows(logs: seq<MoodLog>)
    requires |logs| >= 2
    ensures 2 <= |LatestWindow(logs)| <= 5
    ensures 1 <= |PreviousWindow(logs)| <= 5
    ensures MoodTrend(logs).change == Mean(LatestWindow(logs)) - Mean(PreviousWindow(logs))
    ensures MoodTrend(logs).trend == Classify(MoodTrend(logs).change)
    ensures |logs| <= 5 ==> PreviousWindow(logs) == [LatestWindow(logs)[|logs| - 1]]
  {
  }

  /** Fewer than two logs give a stable trend with no change. */
  lemma TrendOfShortHistory(logs: seq<MoodLog>)
    requires |logs| < 2
    ensures MoodTrend(logs) == TrendResult(Stable, 0.0)
  {
  }

  /** The change between two means of scores in 1..5 lies in [-4, 4]. */
  lemma TrendChangeBounded(logs: seq<MoodLog>)
    ensures -4.0 <= MoodTrend(logs).change <= 4.0
  {
    if |logs| >= 2 {
      TrendWindows(logs);
      MeanBounds(LatestWindow(logs), 1, 5);
      MeanBounds(PreviousWindow(logs), 1, 5);
    }
  }

  /** The mean of a run of equal scores is that score. */
  lemma {:induction false} MeanOfConstant(s: seq<int>, c: int)
    requires |s| > 0
    requires forall i :: 0 <= i < |s| ==> s[i] == c
    ensures Mean(s) == c as real
  {
    SumOfConstant(s, c);
    CastProduct(c, |s|);
    Cancel(c as real, |s| as real);
  }

  lemma {:induction false} SumOfConstant(s: seq<int>, c: int)
    requires forall i :: 0 <= i < |s| ==> s[i] == c
    ensures Sum(s) == c * |s|
    decreases |s|
  {
    if s != [] {
      SumOfConstant(s[1..], c);
    }
  }

  /** A history of one repeated mood is stable with no change. */
  lemma ConstantMoodIsStable(logs: seq<MoodLog>, m: Mood)
    requires forall i :: 0 <= i < |logs| ==> logs[i].mood == m
    ensures MoodTrend(logs) == TrendResult(Stable, 0.0)
  {
    if |logs| >= 2 {
      TrendWindows(logs);
      MeanOfConstant(LatestWindow(logs), Score(m));
      MeanOfConstant(PreviousWindow(logs), Score(m));
    }
  }

  /** Five ecstatic logs after five sad ones: the trend is up by 3. */
  lemma TrendRisingExample(t: int)
    ensures
      var hi := MoodLog(t, Ecstatic, None);
      var lo := MoodLog(t, Sad, None);
      MoodTrend([hi, hi, hi, hi, hi, lo, lo, lo, lo, lo]) == TrendResult(Up, 3.0)
  {
    var hi := MoodLog(t, Ecstatic, None);
    var lo := MoodLog(t, Sad, None);
    var logs := [hi, hi, hi, hi, hi, lo, lo, lo, lo, lo];
    TrendWindows(logs);
    MeanOfConstant(LatestWindow(logs), 5);
    MeanOfConstant(PreviousWindow(logs), 2);
  }
}
