/** The click test's game engine as transitions on the game state: starting
    a game, counting clicks, the once-a-second countdown, the end of a game
    (score and achievements), picking a duration and resetting. The class in
    module ClickTest performs these same transitions in place. */
module Engine {
  import opened Numbers
  import Ledger
  import Achievements

  /** The engine part of the page's `gameState`. */
  datatype State = State(
    count: nat,
    timeLeft: int,
    totalTime: int,
    isRunning: bool,
    scores: seq<Score>,
    achievements: seq<string>)

  /** The duration the page starts with, in seconds. */
  const InitialDuration: int := 10

  /** The state when the page loads, given what was persisted. */
  function Initial(scores: seq<Score>, achievements: seq<string>): (s: State)
    ensures !s.isRunning && s.count == 0
    ensures s.timeLeft == s.totalTime == InitialDuration
    ensures s.scores == scores && s.achievements == achievements
  {
    State(0, InitialDuration, InitialDuration, false, scores, achievements)
  }

  /** The state invariant: a running game never has more time left than its
      duration, and an idle game has either its full duration left or, once
      a game ran out, no time at all (`endGame` does not restore it). */
  predicate Inv(s: State) {
    && (s.isRunning ==> s.timeLeft <= s.totalTime)
    && (!s.isRunning ==> s.timeLeft == s.totalTime || s.timeLeft <= 0)
  }

  /** `startGame`: ignored while running; otherwise the game runs with the
      click count cleared and the duration taken from the time left. */
  function Start(s: State): (t: State)
    ensures s.isRunning ==> t == s
    ensures !s.isRunning ==>
      t.isRunning && t.count == 0 && t.totalTime == s.timeLeft && t.timeLeft == s.timeLeft &&
      t.scores == s.scores && t.achievements == s.achievements
  {
    if s.isRunning then s
    else s.(isRunning := true, count := 0, totalTime := s.timeLeft)
  }

  /** `handleClick`: a click on an idle game only starts it and is not
      counted; a click on a running game adds one to the count and changes
      nothing else. */
  function Click(s: State): (t: State)
    ensures !s.isRunning ==> t == Start(s) && t.count == 0
    ensures s.isRunning ==> t == s.(count := s.count + 1)
  {
    if !s.isRunning then Start(s)
    else s.(count := s.count + 1)
  }

  /** The spacebar path of the keydown handler: start the game if it is
      idle, then count the press as a click. */
  function SpacePress(s: State): (t: State)
    ensures t.isRunning
    ensures s.isRunning ==> t == s.(count := s.count + 1)
    ensures !s.isRunning ==> t == Start(s).(count := 1)
  {
    var started := if !s.isRunning then Start(s) else s;
    if started.isRunning then Click(started) else started
  }

  /** The keydown handler: only a Space key with the spacebar setting on
      does anything. */
  function KeyDown(s: State, isSpace: bool, spacebarEnabled: bool): (t: State)
    ensures !(isSpace && spacebarEnabled) ==> t == s
    ensures isSpace && spacebarEnabled ==> t == SpacePress(s)
  {
    if isSpace && spacebarEnabled then SpacePress(s) else s
  }

  /** A duration button: ignored while running; otherwise both the time
      left and the duration become the chosen number of seconds. */
  function SelectDuration(s: State, seconds: int): (t: State)
    ensures s.isRunning ==> t == s
    ensures !s.isRunning ==> t == s.(timeLeft := seconds, totalTime := seconds)
  {
    if s.isRunning then s
    else s.(timeLeft := seconds, totalTime := seconds)
  }

  /** `resetGame`, with `selected` the duration of the active time button:
      from any state, an idle game with no clicks and the full duration. */
  function Reset(s: State, selected: int): (t: State)
    ensures !t.isRunning && t.count == 0 && t.timeLeft == t.totalTime == selected
    ensures t.scores == s.scores && t.achievements == s.achievements
  {
    s.(isRunning := false, count := 0, timeLeft := selected, totalTime := selected)
  }

  /** The clicks per second `endGame` computes for a state. */
  function FinalCps(s: State): (cps: Score) {
    Cps(s.count, s.totalTime)
  }

  /** `endGame`: stops the game, saves the score once, then evaluates the
      achievements against the updated ledger. The count and the time left
      are left as they are. */
  function End(s: State): (t: State)
    ensures !t.isRunning && t.count == s.count && t.timeLeft == s.timeLeft && t.totalTime == s.totalTime
    ensures t.scores == Ledger.Saved(s.scores, FinalCps(s))
    ensures t.achievements == Achievements.Unlock(s.achievements, FinalCps(s), |t.scores|)
  {
    var cps := FinalCps(s);
    var scores := Ledger.Saved(s.scores, cps);
    s.(isRunning := false, scores := scores,
       achievements := Achievements.Unlock(s.achievements, cps, |scores|))
  }

  /** One firing of the one-second interval. The interval exists exactly
      while a game runs, so an idle game ignores it; otherwise the time left
      drops by one and the game ends when it reaches zero or below. */
  function Tick(s: State): (t: State)
    ensures !s.isRunning ==> t == s
    ensures s.isRunning && s.timeLeft - 1 > 0 ==> t == s.(timeLeft := s.timeLeft - 1)
    ensures s.isRunning && s.timeLeft - 1 <= 0 ==> t == End(s.(timeLeft := s.timeLeft - 1))
  {
    if !s.isRunning then s
    else
      var t := s.(timeLeft := s.timeLeft - 1);
      if t.timeLeft <= 0 then End(t) else t
  }

  /** The user and timer events the page reacts to. `SpaceKey` is a Space
      keydown with the spacebar setting on. */
  datatype Event =
    | StartButton
    | AreaClick
    | SpaceKey
    | DurationButton(seconds: int)
    | ResetButton(selected: int)
    | TimerTick

  /** The handler for one event. Every event keeps the state invariant. */
  function Step(s: State, e: Event): (t: State)
    ensures Inv(s) ==> Inv(t)
  {
    match e
    case StartButton => Start(s)
    case AreaClick => Click(s)
    case SpaceKey => SpacePress(s)
    case DurationButton(seconds) => SelectDuration(s, seconds)
    case ResetButton(selected) => Reset(s, selected)
    case TimerTick => Tick(s)
  }

  /** The state after a sequence of events, handled one at a time. */
  function Run(s: State, events: seq<Event>): (t: State)
    decreases |events|
  {
    if events == [] then s else Run(Step(s, events[0]), events[1..])
  }

  function Repeat(e: Event, n: nat): (r: seq<Event>)
    ensures |r| == n
  {
    if n == 0 then [] else [e] + Repeat(e, n - 1)
  }

  lemma {:induction false} RunAppend(s: State, a: seq<Event>, b: seq<Event>)
    ensures Run(s, a + b) == Run(Run(s, a), b)
    decreases |a|
  {
    if a != [] {
      assert a + b != [] && (a + b)[0] == a[0];
      assert (a + b)[1..] == a[1..] + b;
      RunAppend(Step(s, a[0]), a[1..], b);
    } else {
      assert a + b == b;
    }
  }

  lemma {:induction false} RunPreservesInv(s: State, events: seq<Event>)
    requires Inv(s)
    ensures Inv(Run(s, events))
    decreases |events|
  {
    if events != [] {
      RunPreservesInv(Step(s, events[0]), events[1..]);
    }
  }

  /** While a game keeps running, no event lowers the click count, raises
      the time left or changes the duration. */
  lemma RunningStepMonotone(s: State, e: Event)
    requires s.isRunning && Step(s, e).isRunning
    ensures var t := Step(s, e);
      s.count <= t.count && t.timeLeft <= s.timeLeft && t.totalTime == s.totalTime
  {
  }

  /** A score is recorded only by the tick that ends a running game, and
      then exactly once; every other event leaves the ledger and the
      achievements alone. */
  lemma ScoreRecordedOnlyAtExpiry(s: State, e: Event)
    ensures var t := Step(s, e);
      if e == TimerTick && s.isRunning && s.timeLeft <= 1 then
        t.scores == Ledger.Saved(s.scores, Cps(s.count, s.totalTime))
      else
        t.scores == s.scores && t.achievements == s.achievements
  {
  }

  /** Clicks on a running game are counted one by one. */
  lemma {:induction false} ClicksWhileRunning(s: State, n: nat)
    requires s.isRunning
    ensures Run(s, Repeat(AreaClick, n)) == s.(count := s.count + n)
    decreases n
  {
    if n > 0 {
      ClicksWhileRunning(s.(count := s.count + 1), n - 1);
    }
  }

  /** Before the time runs out each tick lowers the time left by one and the
      game keeps running. */
  lemma {:induction false} TicksCountDown(s: State, k: nat)
    requires s.isRunning && k < s.timeLeft
    ensures Run(s, Repeat(TimerTick, k)) == s.(timeLeft := s.timeLeft - k)
    decreases k
  {
    if k > 0 {
      TicksCountDown(s.(timeLeft := s.timeLeft - 1), k - 1);
    }
  }

  /** An idle game ignores ticks. */
  lemma {:induction false} TicksWhileStopped(s: State, n: nat)
    requires !s.isRunning
    ensures Run(s, Repeat(TimerTick, n)) == s
  {
    if n > 0 {
      TicksWhileStopped(s, n - 1);
    }
  }

  /** A running game with `k` seconds left ends on exactly the `k`-th tick,
      with the time left at zero, and later ticks change nothing: one
      finished game, one recorded score. */
  lemma TicksExpire(s: State, extra: nat)
    requires s.isRunning && s.timeLeft >= 1
    ensures Run(s, Repeat(TimerTick, s.timeLeft - 1)).isRunning
    ensures Run(s, Repeat(TimerTick, s.timeLeft)) == End(s.(timeLeft := 0))
    ensures Run(s, Repeat(TimerTick, s.timeLeft + extra)) == End(s.(timeLeft := 0))
  {
    var k := s.timeLeft;
    TicksCountDown(s, k - 1);
    var last := s.(timeLeft := 1);
    assert Repeat(TimerTick, k) == Repeat(TimerTick, k - 1) + [TimerTick] by {
      RepeatSplit(TimerTick, k - 1, 1);
    }
    RunAppend(s, Repeat(TimerTick, k - 1), [TimerTick]);
    assert Run(last, [TimerTick]) == Tick(last);
    RepeatSplit(TimerTick, k, extra);
    RunAppend(s, Repeat(TimerTick, k), Repeat(TimerTick, extra));
    TicksWhileStopped(End(s.(timeLeft := 0)), extra);
  }

  lemma {:induction false} RepeatSplit(e: Event, m: nat, n: nat)
    ensures Repeat(e, m + n) == Repeat(e, m) + Repeat(e, n)
  {
    if m > 0 {
      RepeatSplit(e, m - 1, n);
    }
  }

  /** A game as the player plays it: start, `clicks` clicks on the area,
      then `seconds` timer ticks. */
  function Game(clicks: nat, seconds: nat): (r: seq<Event>)
    ensures |r| == 1 + clicks + seconds
    ensures r[0] == StartButton
  {
    [StartButton] + Repeat(AreaClick, clicks) + Repeat(TimerTick, seconds)
  }

  /** The state a game ends in: started from `s`, `clicks` clicks counted,
      no time left. */
  function Finished(s: State, clicks: nat): (t: State) {
    End(Start(s).(count := clicks, timeLeft := 0))
  }

  /** Start, `clicks` clicks, and at least the duration's worth of ticks
      end in `Finished(s, clicks)`. */
  lemma GameEnds(s: State, clicks: nat, ticks: nat)
    requires !s.isRunning && 1 <= s.timeLeft <= ticks
    ensures Run(s, Game(clicks, ticks)) == Finished(s, clicks)
  {
    var started := Start(s);
    var clicked := started.(count := clicks);
    var clicking := [StartButton] + Repeat(AreaClick, clicks);
    RunAppend(s, [StartButton], Repeat(AreaClick, clicks));
    ClicksWhileRunning(started, clicks);
    assert Run(s, clicking) == clicked;
    RunAppend(s, clicking, Repeat(TimerTick, ticks));
    TicksExpire(clicked, ticks - s.timeLeft);
  }

  /** A game started from an idle state with the full duration left, given
      at least that many ticks, ends with the clicks counted, no time left,
      and the clicks over the duration saved. */
  lemma PlayedGame(s: State, clicks: nat, ticks: nat)
    requires !s.isRunning && 1 <= s.timeLeft <= ticks
    ensures var t := Run(s, Game(clicks, ticks));
      && !t.isRunning && t.count == clicks && t.timeLeft == 0 && t.totalTime == s.timeLeft
      && t.scores == Ledger.Saved(s.scores, Cps(clicks, s.timeLeft))
      && t.achievements == Achievements.Unlock(s.achievements, Cps(clicks, s.timeLeft), |t.scores|)
  {
    GameEnds(s, clicks, ticks);
  }

  /** A game whose score stays below every threshold, played onto a ledger
      with room for it, appends that score and unlocks nothing. */
  lemma QuietGame(s: State, clicks: nat)
    requires !s.isRunning && s.timeLeft >= 1 && |s.scores| + 1 < Achievements.PersistentScores
    requires !AtLeast(Cps(clicks, s.timeLeft), Achievements.SpeedDemonCps)
    ensures var t := Run(s, Game(clicks, s.timeLeft));
      && !t.isRunning && t.count == clicks && t.timeLeft == 0
      && t.scores == s.scores + [Cps(clicks, s.timeLeft)]
      && t.achievements == s.achievements
  {
    GameEnds(s, clicks, s.timeLeft);
    QuietSave(s.scores, s.achievements, Cps(clicks, s.timeLeft));
  }

  lemma QuietSave(scores: seq<Score>, achievements: seq<string>, cps: Score)
    requires |scores| + 1 < Achievements.PersistentScores
    requires !AtLeast(cps, Achievements.SpeedDemonCps)
    ensures Ledger.Saved(scores, cps) == scores + [cps]
    ensures Achievements.Unlock(achievements, cps, |scores| + 1) == achievements
  {
    Achievements.UnlockBelowThresholds(achievements, cps, |scores| + 1);
  }

  /** Twelve clicks in a ten-second game give 1.2 clicks per second, saved
      as the newest score, and unlock nothing while the ledger stays short. */
  lemma TwelveClicksInTenSeconds(s: State)
    requires !s.isRunning && s.timeLeft == 10 && |s.scores| < 9
    ensures var t := Run(s, Game(12, s.timeLeft));
      && !t.isRunning && t.count == 12 && t.timeLeft == 0
      && t.scores == s.scores + [Finite(1.2)]
      && t.achievements == s.achievements
  {
    CpsOfTwelveInTen();
    QuietGame(s, 12);
  }

  lemma CpsOfTwelveInTen()
    ensures Cps(12, 10) == Finite(1.2)
  {
    Round2OfHundredths(120);
  }

  // ---------------------------------------------------------------------
  // Restarting after a finished game

  /** The call discipline under which the duration stays positive: a
      duration or reset is always positive, and a game that ran out is not
      started again before a duration is picked or the game is reset. */
  predicate Allowed(s: State, e: Event) {
    match e
    case DurationButton(seconds) => seconds > 0
    case ResetButton(selected) => selected > 0
    case TimerTick => true
    case _ => s.isRunning || s.timeLeft > 0
  }

  predicate Disciplined(s: State, events: seq<Event>)
    decreases |events|
  {
    events == [] || (Allowed(s, events[0]) && Disciplined(Step(s, events[0]), events[1..]))
  }

  /** The duration is positive, a running game has between one second and
      the duration left, and an idle game has either its full duration left
      or has run out at exactly zero. */
  predicate Safe(s: State) {
    && s.totalTime > 0
    && (s.isRunning ==> 1 <= s.timeLeft <= s.totalTime)
    && (!s.isRunning ==> s.timeLeft == s.totalTime || s.timeLeft == 0)
  }

  /** Every recorded score is a finite, non-negative number. */
  predicate FiniteScores(s: State) {
    forall i :: 0 <= i < |s.scores| ==> s.scores[i].Finite? && s.scores[i].value >= 0.0
  }

  lemma SafeStep(s: State, e: Event)
    requires Safe(s) && FiniteScores(s) && Allowed(s, e)
    ensures Safe(Step(s, e)) && FiniteScores(Step(s, e))
  {
    if e == TimerTick && s.isRunning && s.timeLeft == 1 {
      SafeExpiry(s);
    }
  }

  /** The tick that ends a game with a positive duration records a finite,
      non-negative score and leaves the time left at zero. */
  lemma SafeExpiry(s: State)
    requires Safe(s) && FiniteScores(s) && s.isRunning && s.timeLeft == 1
    ensures Safe(Tick(s)) && FiniteScores(Tick(s))
  {
    var t := Tick(s);
    var cps := Cps(s.count, s.totalTime);
    assert t.scores == Ledger.Saved(s.scores, cps);
    forall i | 0 <= i < |t.scores| ensures t.scores[i].Finite? && t.scores[i].value >= 0.0 {
      var k := |s.scores| + 1 - |t.scores|;
      assert t.scores[i] == (s.scores + [cps])[k + i];
    }
  }

  /** Under the call discipline the duration stays positive and every
      recorded score is finite and non-negative, whatever the events. */
  lemma {:induction false} DisciplinedRunRecordsFiniteScores(s: State, events: seq<Event>)
    requires Safe(s) && FiniteScores(s) && Disciplined(s, events)
    ensures Safe(Run(s, events)) && FiniteScores(Run(s, events))
    decreases |events|
  {
    if events != [] {
      SafeStep(s, events[0]);
      DisciplinedRunRecordsFiniteScores(Step(s, events[0]), events[1..]);
    }
  }

  /** As written, `endGame` leaves the time left at zero or below and
      `startGame` copies it into the duration. A game restarted straight
      after one ran out therefore has no duration, ends on its first tick,
      and records the clicks divided by that duration: NaN or Infinity for
      a duration of zero, zero or less for a negative one. */
  lemma {:induction false} RestartAfterExpiry(s: State, clicks: nat)
    requires !s.isRunning && s.timeLeft <= 0
    ensures Start(s).isRunning && Start(s).totalTime == s.timeLeft
    ensures var t := Run(s, [AreaClick] + Repeat(AreaClick, clicks) + [TimerTick]);
      && !t.isRunning && t.count == clicks && t.timeLeft == s.timeLeft - 1
      && t.scores == Ledger.Saved(s.scores, Cps(clicks, s.timeLeft))
      && (s.timeLeft == 0 && clicks > 0 ==>
            t.scores[|t.scores| - 1] == Infinity &&
            Achievements.SpeedDemon in t.achievements && Achievements.ClickMaster in t.achievements)
      && (s.timeLeft == 0 && clicks == 0 ==> t.scores[|t.scores| - 1] == NaN)
      && (s.timeLeft < 0 ==> t.scores[|t.scores| - 1].value <= 0.0)
  {
    RestartRun(s, clicks);
    var t := End(Start(s).(count := clicks, timeLeft := s.timeLeft - 1));
  }

  /** A restarted game of `clicks` clicks followed by one tick. */
  lemma RestartRun(s: State, clicks: nat)
    requires !s.isRunning && s.timeLeft <= 0
    ensures Run(s, [AreaClick] + Repeat(AreaClick, clicks) + [TimerTick])
         == End(Start(s).(count := clicks, timeLeft := s.timeLeft - 1))
  {
    var started := Start(s);
    RunAppend(s, [AreaClick], Repeat(AreaClick, clicks));
    ClicksWhileRunning(started, clicks);
    RunAppend(s, [AreaClick] + Repeat(AreaClick, clicks), [TimerTick]);
    var clicked := started.(count := clicks);
    assert Run(clicked, [TimerTick]) == Tick(clicked);
  }

  /** The concrete case: after a ten-second game of twelve clicks, clicking
      the area four more times and letting one tick pass records Infinity and
      unlocks both speed achievements. */
  lemma ReplayAfterTwelveClickGame(s: State)
    requires !s.isRunning && s.timeLeft == 10 && |s.scores| < 8
    ensures var first := Run(s, Game(12, s.timeLeft));
      var t := Run(first, [AreaClick] + Repeat(AreaClick, 3) + [TimerTick]);
      && first.scores == s.scores + [Finite(1.2)]
      && t.scores == s.scores + [Finite(1.2), Infinity]
      && Achievements.SpeedDemon in t.achievements
      && Achievements.ClickMaster in t.achievements
  {
    TwelveClicksInTenSeconds(s);
    var first := Run(s, Game(12, s.timeLeft));
    ReplayAfterExpiry(first, 3);
    assert s.scores + [Finite(1.2)] + [Infinity] == s.scores + [Finite(1.2), Infinity];
  }

  /** Restarting a game that ran out to zero, with at least one counted
      click and one tick, appends Infinity and unlocks both speed
      achievements. */
  lemma ReplayAfterExpiry(first: State, clicks: nat)
    requires !first.isRunning && first.timeLeft == 0 && clicks > 0
    requires |first.scores| < Ledger.Capacity
    ensures var t := Run(first, [AreaClick] + Repeat(AreaClick, clicks) + [TimerTick]);
      && t.scores == first.scores + [Infinity]
      && Achievements.SpeedDemon in t.achievements
      && Achievements.ClickMaster in t.achievements
  {
    RestartRun(first, clicks);
    var t := End(Start(first).(count := clicks, timeLeft := -1));
    assert Cps(clicks, 0) == Infinity;
    assert t.scores == Ledger.Saved(first.scores, Infinity);
  }

  /** The evidently intended start: a new game always gets the duration
      last picked (kept in `totalTime`) as its time left. */
  function StartCorrected(s: State): (t: State)
    ensures s.isRunning ==> t == s
    ensures !s.isRunning ==>
      t.isRunning && t.count == 0 && t.timeLeft == t.totalTime == s.totalTime &&
      t.scores == s.scores && t.achievements == s.achievements
  {
    if s.isRunning then s
    else s.(isRunning := true, count := 0, timeLeft := s.totalTime)
  }

  /** With the corrected start, a game started after any finished or reset
      game with a positive duration runs for that full duration and records
      a finite, non-negative score within half a hundredth of the true
      clicks per second. */
  lemma CorrectedRestartRunsFullDuration(s: State, clicks: nat)
    requires !s.isRunning && s.totalTime > 0
    ensures var started := StartCorrected(s);
      var t := Run(started, Repeat(AreaClick, clicks) + Repeat(TimerTick, s.totalTime));
      && Run(started, Repeat(AreaClick, clicks) + Repeat(TimerTick, s.totalTime - 1)).isRunning
      && !t.isRunning && t.count == clicks
      && t.scores == Ledger.Saved(s.scores, Cps(clicks, s.totalTime))
      && t.scores[|t.scores| - 1].Finite?
      && t.scores[|t.scores| - 1].value >= 0.0
      && -0.005 <= t.scores[|t.scores| - 1].value - clicks as real / s.totalTime as real <= 0.005
  {
    var started := StartCorrected(s);
    ClicksWhileRunning(started, clicks);
    var clicked := started.(count := clicks);
    RunAppend(started, Repeat(AreaClick, clicks), Repeat(TimerTick, s.totalTime));
    RunAppend(started, Repeat(AreaClick, clicks), Repeat(TimerTick, s.totalTime - 1));
    TicksExpire(clicked, 0);
  }
}
