/** The insights page: the seven-day chart of average mood per calendar day,
    computed from the stored mood logs with its own copy of the score table. */
module Insights {

  import opened Wrappers
  import opened Seqs
  import MoodTracker

  /** A stored mood log as this page reads it: the mood is an arbitrary label,
      and the timestamp is reduced to the calendar day it falls on. */
  datatype InsightLog = InsightLog(day: int, mood: string)

  /** `moodScoresForInsights`. */
  const ScoreTable: map<string, int> :=
    map["ecstatic" := 5, "happy" := 4, "meh" := 3, "sad" := 2, "angry" := 1, "anxious" := 2, "tired" := 2]

  /** `moodScoresForInsights[name] || 0`: labels outside the table score 0. */
  function LabelScore(name: string): int {
    if name in ScoreTable then ScoreTable[name] else 0
  }

  /** The two score tables agree on every mood the tracker can log. */
  lemma TablesAgree(m: MoodTracker.Mood)
    ensures MoodTracker.MoodName(m) in ScoreTable
    ensures LabelScore(MoodTracker.MoodName(m)) == MoodTracker.Score(m)
  {
  }

  /** Every label score lies in [0, 5], and in [1, 5] for a label in the table. */
  lemma LabelScoreRange(name: string)
    ensures 0 <= LabelScore(name) <= 5
    ensures name in ScoreTable ==> 1 <= LabelScore(name)
  {
  }

  function Scores(logs: seq<InsightLog>): (r: seq<int>)
    ensures |r| == |logs|
    ensures forall i :: 0 <= i < |r| ==> r[i] == LabelScore(logs[i].mood)
  {
    seq(|logs|, i requires 0 <= i < |logs| => LabelScore(logs[i].mood))
  }

  function OnDay(d: int): InsightLog -> bool {
    (log: InsightLog) => log.day == d
  }

  /** `dayLogs`: the logs whose calendar day is `d`. */
  function DayLogs(logs: seq<InsightLog>, d: int): (r: seq<InsightLog>)
    ensures |r| <= |logs|
    ensures forall i :: 0 <= i < |r| ==> r[i].day == d && r[i] in logs
  {
    var r := Filter(logs, OnDay(d));
    FilterMembers(logs, OnDay(d));
    assert forall i :: 0 <= i < |r| ==> r[i] in r;
    r
  }

  /** A log contributes to a day exactly when it falls on that day, and the
      day's logs keep their stored order. */
  lemma DayLogsExact(logs: seq<InsightLog>, d: int)
    ensures forall x :: x in DayLogs(logs, d) <==> x in logs && x.day == d
    ensures Subseq(DayLogs(logs, d), logs)
    ensures forall x :: multiset(DayLogs(logs, d))[x] == if x.day == d then multiset(logs)[x] else 0
  {
    FilterCount(logs, OnDay(d));
    FilterIsSubseq(logs, OnDay(d));
    FilterMembers(logs, OnDay(d));
  }

  /** One point of the chart. `mood` is absent (`null`) on a day without logs. */
  datatype DayPoint = DayPoint(day: int, mood: Option<real>)

  /** The day's average mood; absent exactly when no log falls on that day. */
  function DayAverage(logs: seq<InsightLog>, d: int): (r: Option<real>)
    ensures r.None? <==> forall j :: 0 <= j < |logs| ==> logs[j].day != d
  {
    var dayLogs := DayLogs(logs, d);
    DayLogsEmptyIff(logs, d);
    if |dayLogs| > 0 then Some(Mean(Scores(dayLogs))) else None
  }

  lemma DayLogsEmptyIff(logs: seq<InsightLog>, d: int)
    ensures DayLogs(logs, d) == [] <==> forall j :: 0 <= j < |logs| ==> logs[j].day != d
  {
    var dayLogs := DayLogs(logs, d);
    DayLogsExact(logs, d);
    if dayLogs != [] {
      assert dayLogs[0] in dayLogs;
    } else {
      forall j | 0 <= j < |logs|
        ensures logs[j].day != d
      {
        assert logs[j] in logs;
      }
    }
  }

  /** The chart for the week ending on `today`: seven points, one per day from
      six days ago up to today. A day without logs has no average, never 0. */
  function WeeklyChart(logs: seq<InsightLog>, today: int): (r: seq<DayPoint>)
    ensures |r| == 7
    ensures forall i :: 0 <= i < 7 ==> r[i].day == today - (6 - i)
    ensures forall i :: 0 <= i < 7 ==>
      (r[i].mood.None? <==> forall j :: 0 <= j < |logs| ==> logs[j].day != r[i].day)
  {
    var r := seq(7, i requires 0 <= i < 7 =>
      var d := today - (6 - i);
      DayPoint(d, DayAverage(logs, d)));
    assert forall i :: 0 <= i < 7 ==> r[i].mood == DayAverage(logs, r[i].day);
    r
  }

  /** A day with logs shows the arithmetic mean of their scores. */
  lemma WeeklyChartMeans(logs: seq<InsightLog>, today: int, i: nat)
    requires i < 7
    ensures var p := WeeklyChart(logs, today)[i];
      p.mood.Some? ==>
        |DayLogs(logs, p.day)| > 0 && p.mood.value == Mean(Scores(DayLogs(logs, p.day)))
  {
    var d := today - (6 - i);
    var p := WeeklyChart(logs, today)[i];
    assert p == DayPoint(d, DayAverage(logs, d));
    var dayLogs := DayLogs(logs, d);
    assert DayAverage(logs, d) == if |dayLogs| > 0 then Some(Mean(Scores(dayLogs))) else None;
  }

  /** Averages lie in [0, 5]; when every stored label is in the table they lie
      in [1, 5]. */
  lemma WeeklyChartRange(logs: seq<InsightLog>, today: int)
    ensures forall i :: 0 <= i < 7 && WeeklyChart(logs, today)[i].mood.Some? ==>
      0.0 <= WeeklyChart(logs, today)[i].mood.value <= 5.0
    ensures (forall j :: 0 <= j < |logs| ==> logs[j].mood in ScoreTable) ==>
      forall i :: 0 <= i < 7 && WeeklyChart(logs, today)[i].mood.Some? ==>
        1.0 <= WeeklyChart(logs, today)[i].mood.value <= 5.0
  {
    var r := WeeklyChart(logs, today);
    forall i | 0 <= i < 7 && r[i].mood.Some?
      ensures 0.0 <= r[i].mood.value <= 5.0
      ensures (forall j :: 0 <= j < |logs| ==> logs[j].mood in ScoreTable) ==> 1.0 <= r[i].mood.value
    {
      var dayLogs := DayLogs(logs, r[i].day);
      var scores := Scores(dayLogs);
      DayLogsExact(logs, r[i].day);
      WeeklyChartMeans(logs, today, i);
      forall k | 0 <= k < |scores|
        ensures 0 <= scores[k] <= 5
      {
        LabelScoreRange(dayLogs[k].mood);
      }
      MeanBounds(scores, 0, 5);
      if forall j :: 0 <= j < |logs| ==> logs[j].mood in ScoreTable {
        forall k | 0 <= k < |scores|
          ensures 1 <= scores[k] <= 5
        {
          assert dayLogs[k] in dayLogs;
          LabelScoreRange(dayLogs[k].mood);
        }
        MeanBounds(scores, 1, 5);
      }
    }
  }

  /** The effect on mount: nothing stored leaves the chart empty; a stored list
      (even an empty one) gives the seven-day chart. */
  function LoadChart(stored: Option<seq<InsightLog>>, today: int): (r: seq<DayPoint>)
    ensures stored.None? ==> r == []
    ensures stored.Some? ==> r == WeeklyChart(stored.value, today)
  {
    match stored
    case None => []
    case Some(logs) => WeeklyChart(logs, today)
  }

  /** How a mood tracker log is read back here, given the calendar day of its
      timestamp. */
  function FromTracker(log: MoodTracker.MoodLog, dayOf: int -> int): InsightLog {
    InsightLog(dayOf(log.date), MoodTracker.MoodName(log.mood))
  }

  /** Logs written by the tracker always carry a table label, so their daily
      averages lie in [1, 5]. */
  lemma TrackerLogsAverageInRange(logs: seq<MoodTracker.MoodLog>, dayOf: int -> int, today: int)
    ensures var read := seq(|logs|, j requires 0 <= j < |logs| => FromTracker(logs[j], dayOf));
      forall i :: 0 <= i < 7 && WeeklyChart(read, today)[i].mood.Some? ==>
        1.0 <= WeeklyChart(read, today)[i].mood.value <= 5.0
  {
    var read := seq(|logs|, j requires 0 <= j < |logs| => FromTracker(logs[j], dayOf));
    forall j | 0 <= j < |read|
      ensures read[j].mood in ScoreTable
    {
      TablesAgree(logs[j].mood);
    }
    WeeklyChartRange(read, today);
  }
}
