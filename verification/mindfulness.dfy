/** The mindfulness page: a catalogue of timed breathing exercises, a one-second
    countdown timer with a progress bar, and the `m:ss` rendering of a number
    of seconds. */
module Mindfulness {

  import opened Wrappers
  import opened Seqs
  import opened Text

  /** Exercise lengths are whole, positive numbers of seconds. */
  type Duration = n: int | n > 0 witness 1

  /** An exercise; the description, steps, image hint and audio link only feed
      the markup. */
  datatype Exercise = Exercise(id: string, title: string, duration: Duration)

  const Exercises: seq<Exercise> := [
    Exercise("box-breathing", "Box Breathing", 120),
    Exercise("body-scan", "Body Scan Meditation", 300),
    Exercise("mindful-listening", "Mindful Listening", 180)
  ]

  /** The page state: the open exercise (`null` when none), whether the timer
      runs, the seconds left and the progress-bar value. */
  datatype TimerState = TimerState(
    selected: Option<Exercise>,
    playing: bool,
    timeLeft: int,
    progress: real)

  /** The state on first render. */
  const Initial: TimerState := TimerState(None, false, 0, 0.0)

  /** The bar value when `t` of `d` seconds are left, written as the page
      computes it: the elapsed fraction times a hundred. */
  function Progress(d: Duration, t: int): real {
    ((d - t) as real / d as real) * 100.0
  }

  /** `startExercise`: open the exercise with a full clock and start it. */
  function Start(st: TimerState, e: Exercise): (r: TimerState)
    ensures r.selected == Some(e) && r.playing
    ensures r.timeLeft == e.duration && r.progress == 0.0
  {
    TimerState(Some(e), true, e.duration, 0.0)
  }

  /** One firing of the timer effect. A running clock with time left loses one
      second and, while an exercise is open, the bar moves to the new elapsed
      fraction; a running clock at zero stops; anything else is left alone. */
  function Tick(st: TimerState): (r: TimerState)
    ensures r.selected == st.selected
    ensures st.playing && st.timeLeft > 0 ==> r.playing && r.timeLeft == st.timeLeft - 1
    ensures st.playing && st.timeLeft > 0 ==>
      r.progress == (if st.selected.Some? then Progress(st.selected.value.duration, st.timeLeft - 1)
                     else st.progress)
    ensures st.playing && st.timeLeft == 0 ==> r == st.(playing := false)
    ensures !st.playing ==> r == st
  {
    if st.playing && st.timeLeft > 0 then
      st.(timeLeft := st.timeLeft - 1,
          progress := match st.selected
            case Some(e) => Progress(e.duration, st.timeLeft - 1)
            case None => st.progress)
    else if st.timeLeft == 0 && st.playing then
      st.(playing := false)
    else
      st
  }

  /** `togglePlayPause`: flips whether the clock runs and nothing else. */
  function TogglePlayPause(st: TimerState): (r: TimerState)
    ensures r.playing == !st.playing
    ensures r.selected == st.selected && r.timeLeft == st.timeLeft && r.progress == st.progress
  {
    st.(playing := !st.playing)
  }

  /** `resetExercise`: with an exercise open, refill the clock, empty the bar and
      pause; with none open, nothing happens. */
  function Reset(st: TimerState): (r: TimerState)
    ensures st.selected.None? ==> r == st
    ensures st.selected.Some? ==>
      r.selected == st.selected && !r.playing
      && r.timeLeft == st.selected.value.duration && r.progress == 0.0
  {
    match st.selected
      case None => st
      case Some(e) => st.(timeLeft := e.duration, progress := 0.0, playing := false)
  }

  /** "Close Exercise": forgets the exercise but leaves the clock as it is, so a
      running clock keeps counting down. */
  function Close(st: TimerState): (r: TimerState)
    ensures r.selected.None?
    ensures r.playing == st.playing && r.timeLeft == st.timeLeft && r.progress == st.progress
  {
    st.(selected := None)
  }

  /** What the user (or the one-second timer) can do to the page. */
  datatype Event = StartEvent(e: Exercise) | ToggleEvent | ResetEvent | CloseEvent | TickEvent

  function Apply(st: TimerState, ev: Event): TimerState {
    match ev
      case StartEvent(e) => Start(st, e)
      case ToggleEvent => TogglePlayPause(st)
      case ResetEvent => Reset(st)
      case CloseEvent => Close(st)
      case TickEvent => Tick(st)
  }

  function Run(st: TimerState, evs: seq<Event>): TimerState
    decreases |evs|
  {
    if evs == [] then st else Run(Apply(st, evs[0]), evs[1..])
  }

  /** The states the page can reach: the clock is never negative, the bar stays
      within 0..100, and while an exercise is open the clock is within its
      length and the bar shows exactly the elapsed fraction. */
  ghost predicate Valid(st: TimerState) {
    st.timeLeft >= 0
    && 0.0 <= st.progress <= 100.0
    && (st.selected.Some? ==>
          st.timeLeft <= st.selected.value.duration
          && st.progress == Progress(st.selected.value.duration, st.timeLeft))
  }

  /** With `t` of `d` seconds left the bar lies within 0..100. */
  lemma ProgressRange(d: Duration, t: int)
    requires 0 <= t <= d
    ensures 0.0 <= Progress(d, t) <= 100.0
  {
    RatioBounds(d - t, d, 0, 1);
  }

  lemma ProgressFull(d: Duration)
    ensures Progress(d, 0) == 100.0
  {
    assert (d - 0) as real / d as real == 1.0;
  }

  lemma InitialValid()
    ensures Valid(Initial)
  {
  }

  /** Every event keeps the page in a valid state. */
  lemma ApplyPreservesValid(st: TimerState, ev: Event)
    requires Valid(st)
    ensures Valid(Apply(st, ev))
  {
    match ev
      case StartEvent(e) =>
        assert Progress(e.duration, e.duration) == 0.0;
      case TickEvent =>
        if st.playing && st.timeLeft > 0 && st.selected.Some? {
          ProgressRange(st.selected.value.duration, st.timeLeft - 1);
        }
      case _ =>
  }

  /** Any sequence of events from a valid state ends in a valid state. */
  lemma {:induction false} RunPreservesValid(st: TimerState, evs: seq<Event>)
    requires Valid(st)
    ensures Valid(Run(st, evs))
    decreases |evs|
  {
    if evs != [] {
      ApplyPreservesValid(st, evs[0]);
      RunPreservesValid(Apply(st, evs[0]), evs[1..]);
    }
  }

  /** The clock only ever counts down: a tick never adds time, and while an
      exercise is open the bar never moves back. */
  lemma TickMonotone(st: TimerState)
    requires Valid(st)
    ensures Tick(st).timeLeft <= st.timeLeft
    ensures st.selected.Some? ==> Tick(st).progress >= st.progress
  {
    if st.playing && st.timeLeft > 0 && st.selected.Some? {
      var d := st.selected.value.duration;
      ScaleDown((d - st.timeLeft) as real, (d - (st.timeLeft - 1)) as real, d as real);
    }
  }

  /** `n` firings of the timer. */
  function Ticks(st: TimerState, n: nat): TimerState
    decreases n
  {
    if n == 0 then st else Ticks(Tick(st), n - 1)
  }

  /** A running clock with an exercise open counts down one second per tick and
      keeps the bar in step. */
  lemma {:induction false} CountDown(st: TimerState, n: nat)
    requires Valid(st) && st.playing && st.selected.Some?
    requires n <= st.timeLeft
    ensures Ticks(st, n).selected == st.selected && Ticks(st, n).playing
    ensures Ticks(st, n).timeLeft == st.timeLeft - n
    ensures Valid(Ticks(st, n))
    decreases n
  {
    if n > 0 {
      ApplyPreservesValid(st, TickEvent);
      CountDown(Tick(st), n - 1);
    }
  }

  /** Started and left alone, an exercise runs to the end: after its length in
      ticks plus one the clock reads zero, has stopped, and the bar is full. */
  lemma RunToCompletion(st: TimerState, e: Exercise)
    ensures var r := Ticks(Start(st, e), e.duration + 1);
      r.timeLeft == 0 && !r.playing && r.progress == 100.0 && r.selected == Some(e)
  {
    var s0 := Start(st, e);
    assert Progress(e.duration, e.duration) == 0.0;
    assert Valid(s0);
    CountDown(s0, e.duration);
    var s1 := Ticks(s0, e.duration);
    TicksSplit(s0, e.duration);
    ProgressFull(e.duration);
    assert Ticks(s0, e.duration + 1) == Tick(s1);
  }

  lemma {:induction false} TicksSplit(st: TimerState, n: nat)
    ensures Ticks(st, n + 1) == Tick(Ticks(st, n))
    decreases n
  {
    if n > 0 {
      TicksSplit(Tick(st), n - 1);
    }
  }

  /** A stopped clock stays stopped: once the timer has run out, ticks change
      nothing. */
  lemma StoppedIsFixed(st: TimerState, n: nat)
    requires !st.playing
    ensures Ticks(st, n) == st
  {
  }

  /** Pausing twice is the same as not pausing. */
  lemma ToggleTwice(st: TimerState)
    ensures TogglePlayPause(TogglePlayPause(st)) == st
  {
  }

  // ----- the clock face ---------------------------------------------------------

  /** Two characters for the seconds: a leading zero below ten. */
  function TwoDigits(n: nat): (r: string)
    requires n < 60
    ensures |r| == 2 && AllDigits(r)
    ensures DigitValue(r[0]) == n / 10 && DigitValue(r[1]) == n % 10
  {
    if n < 10 then
      assert NatToString(n) == [DigitChar(n)];
      "0" + NatToString(n)
    else
      assert NatToString(n) == [DigitChar(n / 10), DigitChar(n % 10)];
      NatToString(n)
  }

  /** `formatTime`: whole minutes, a colon, and the seconds as two digits. */
  function FormatTime(seconds: nat): (r: string)
    ensures |r| >= 4 && r[|r| - 3] == ':'
    ensures forall k :: 0 <= k < |r| && k != |r| - 3 ==> IsDigit(r[k])
    ensures r[0] == '0' ==> |r| == 4
  {
    var m := NatToString(seconds / 60);
    var s := TwoDigits(seconds % 60);
    var r := m + ":" + s;
    assert forall k :: 0 <= k < |m| ==> r[k] == m[k];
    assert forall k :: |m| < k < |r| ==> r[k] == s[k - |m| - 1];
    r
  }

  /** Reads an `m:ss` face back: digits, one colon, exactly two digits of
      seconds below sixty. */
  function ParseTime(t: string): (r: Option<nat>)
    ensures r.Some? ==> ':' in t
  {
    match FindChar(t, ':')
      case None => None
      case Some(i) =>
        var m := t[..i];
        var ss := t[i + 1..];
        if |m| >= 1 && AllDigits(m) && |ss| == 2 && AllDigits(ss) && DigitValue(ss[0]) < 6 then
          Some(ParseNat(m) * 60 + 10 * DigitValue(ss[0]) + DigitValue(ss[1]))
        else None
  }

  /** The face loses nothing: reading it back gives the number of seconds. */
  lemma FormatTimeRoundTrip(seconds: nat)
    ensures ParseTime(FormatTime(seconds)) == Some(seconds)
  {
    var a := NatToString(seconds / 60);
    var b := TwoDigits(seconds % 60);
    var t := FormatTime(seconds);
    assert t == a + [':'] + b;
    assert forall k :: 0 <= k < |a| ==> a[k] != ':';
    FindFirstSeparator(a, ':', b);
    assert t[..|a|] == a && t[|a| + 1..] == b;
    ParseNatToString(seconds / 60);
  }

  /** The first separator in `a + [c] + b` is the one after `a` when `a` has none. */
  lemma FindFirstSeparator(a: string, c: char, b: string)
    requires c !in a
    ensures FindChar(a + [c] + b, c) == Some(|a|)
  {
    var t := a + [c] + b;
    assert t[|a|] == c;
  }

  /** The face is the only spelling of its value without padded minutes: any
      text that reads back as `n`, and whose minutes are not zero-padded, is
      `FormatTime(n)`. */
  lemma FormatTimeCanonical(t: string, n: nat)
    requires ParseTime(t) == Some(n)
    requires 1 < |t| && (t[0] == '0' ==> t[1] == ':')
    ensures t == FormatTime(n)
  {
    var i := FindChar(t, ':').value;
    var m := t[..i];
    var ss := t[i + 1..];
    ParseTimeParts(t, n);
    var sec := 10 * DigitValue(ss[0]) + DigitValue(ss[1]);
    SecondsPair(ss);
    MinutesAndSeconds(ParseNat(m), sec);
    assert n / 60 == ParseNat(m) && n % 60 == sec;
    if m[0] == '0' {
      assert t[1] == ':';
      assert i <= 1;
    }
    NatToStringParseNat(m);
    assert FormatTime(n) == m + ":" + ss;
    SplitAtSeparator(t, i);
  }

  /** What a successful reading of a face has checked, and the value it gives. */
  lemma ParseTimeParts(t: string, n: nat)
    requires ParseTime(t) == Some(n)
    ensures FindChar(t, ':').Some?
    ensures var i := FindChar(t, ':').value;
      var m := t[..i];
      var ss := t[i + 1..];
      |m| >= 1 && AllDigits(m) && |ss| == 2 && AllDigits(ss) && DigitValue(ss[0]) < 6 &&
      n == ParseNat(m) * 60 + (10 * DigitValue(ss[0]) + DigitValue(ss[1]))
  {
  }

  /** A text is its part before position `i`, the character there, and the rest. */
  lemma SplitAtSeparator(t: string, i: nat)
    requires i < |t|
    ensures t == t[..i] + [t[i]] + t[i + 1..]
  {
  }

  /** Two digits whose first is below six are the padded spelling of their value. */
  lemma SecondsPair(ss: string)
    requires |ss| == 2 && AllDigits(ss) && DigitValue(ss[0]) < 6
    ensures 10 * DigitValue(ss[0]) + DigitValue(ss[1]) < 60
    ensures TwoDigits(10 * DigitValue(ss[0]) + DigitValue(ss[1])) == ss
  {
    var v := 10 * DigitValue(ss[0]) + DigitValue(ss[1]);
    DigitRoundTrip(ss[0]);
    DigitRoundTrip(ss[1]);
    var two := TwoDigits(v);
    DigitRoundTrip(two[0]);
    DigitRoundTrip(two[1]);
  }

  /** Whole minutes and a seconds remainder below sixty are recovered by division. */
  lemma MinutesAndSeconds(m: nat, s: nat)
    requires s < 60
    ensures (m * 60 + s) / 60 == m && (m * 60 + s) % 60 == s
  {
  }

  /** Ten minutes and more are written without padding. */
  lemma TenMinuteFace()
    ensures FormatTime(600) == "10:00"
  {
    assert NatToString(10) == NatToString(1) + [DigitChar(0)];
  }

  /** Different numbers of seconds show different faces. */
  lemma FormatTimeInjective(x: nat, y: nat)
    requires x != y
    ensures FormatTime(x) != FormatTime(y)
  {
    FormatTimeRoundTrip(x);
    FormatTimeRoundTrip(y);
  }

  /** The catalogue's lengths as they appear on the cards. */
  lemma CatalogueFaces()
    ensures FormatTime(Exercises[0].duration) == "2:00"
    ensures FormatTime(Exercises[1].duration) == "5:00"
    ensures FormatTime(Exercises[2].duration) == "3:00"
    ensures FormatTime(65) == "1:05"
  {
  }
}
