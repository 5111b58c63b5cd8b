/** The page's `gameState` object and the event handlers that update it in
    place. Each handler performs, field by field, the transition that module
    Engine defines on values, so every property proved there holds of the
    object. */
module ClickTest {
  import opened Numbers
  import Ledger
  import Achievements
  import Engine

  /** What `endGame` reports: the clicks, the clicks per second and the
      achievement banners it shows. */
  datatype Outcome = Outcome(clicks: nat, cps: Score, banners: seq<string>)

  class GameState {
    var count: nat
    var timeLeft: int
    var totalTime: int
    var isRunning: bool
    var scores: seq<Score>
    var achievements: seq<string>
    /** The settings as loaded; their toggles are not part of this model. */
    const spacebarEnabled: bool
    const achievementsEnabled: bool

    /** The engine state the fields hold. */
    function Snapshot(): (s: Engine.State)
      reads this
    {
      Engine.State(count, timeLeft, totalTime, isRunning, scores, achievements)
    }

    /** Page load, given the persisted scores, achievements and settings. */
    constructor (savedScores: seq<Score>, savedAchievements: seq<string>,
                 spacebarOn: bool, achievementsOn: bool)
      ensures Snapshot() == Engine.Initial(savedScores, savedAchievements)
      ensures spacebarEnabled == spacebarOn && achievementsEnabled == achievementsOn
    {
      count := 0;
      timeLeft := Engine.InitialDuration;
      totalTime := Engine.InitialDuration;
      isRunning := false;
      scores := savedScores;
      achievements := savedAchievements;
      spacebarEnabled := spacebarOn;
      achievementsEnabled := achievementsOn;
    }

    method StartGame()
      modifies this
      ensures Snapshot() == Engine.Start(old(Snapshot()))
    {
      if isRunning {
        return;
      }
      isRunning := true;
      count := 0;
      totalTime := timeLeft;
    }

    method HandleClick()
      modifies this
      ensures Snapshot() == Engine.Click(old(Snapshot()))
    {
      if !isRunning {
        StartGame();
        return;
      }
      count := count + 1;
    }

    /** The keydown listener; `isSpace` tells whether the key was Space. */
    method KeyDown(isSpace: bool)
      modifies this
      ensures Snapshot() == Engine.KeyDown(old(Snapshot()), isSpace, spacebarEnabled)
    {
      if isSpace && spacebarEnabled {
        if !isRunning {
          StartGame();
        }
        if isRunning {
          HandleClick();
        }
      }
    }

    /** A duration button's click listener. */
    method SelectDuration(seconds: int)
      modifies this
      ensures Snapshot() == Engine.SelectDuration(old(Snapshot()), seconds)
    {
      if isRunning {
        return;
      }
      timeLeft := seconds;
      totalTime := timeLeft;
    }

    /** One firing of the interval `startGame` sets up. It reports the
        outcome of the game when this tick ends it. */
    method Tick() returns (ended: Option<Outcome>)
      modifies this
      ensures Snapshot() == Engine.Tick(old(Snapshot()))
      ensures ended.Some? <==> old(isRunning) && old(timeLeft) <= 1
      ensures ended.Some? ==>
        ended.value.clicks == old(count) && ended.value.cps == Cps(old(count), old(totalTime))
    {
      if !isRunning {
        return None;
      }
      timeLeft := timeLeft - 1;
      if timeLeft <= 0 {
        var outcome := EndGame();
        ended := Some(outcome);
      } else {
        ended := None;
      }
    }

    method EndGame() returns (outcome: Outcome)
      modifies this
      ensures Snapshot() == Engine.End(old(Snapshot()))
      ensures |old(achievements)| <= |achievements|
      ensures outcome == Outcome(old(count), Engine.FinalCps(old(Snapshot())),
                                 Achievements.Banners(achievements[|old(achievements)|..], achievementsEnabled))
    {
      isRunning := false;
      var cps := Cps(count, totalTime);
      SaveScore(cps);
      var shown := CheckAchievements(cps);
      outcome := Outcome(count, cps, shown);
    }

    method ResetGame(selected: int)
      modifies this
      ensures Snapshot() == Engine.Reset(old(Snapshot()), selected)
    {
      isRunning := false;
      count := 0;
      timeLeft := selected;
      totalTime := timeLeft;
    }

    method SaveScore(cps: Score)
      modifies this
      ensures scores == Ledger.Saved(old(scores), cps)
      ensures count == old(count) && timeLeft == old(timeLeft) && totalTime == old(totalTime)
      ensures isRunning == old(isRunning) && achievements == old(achievements)
    {
      scores := scores + [cps];
      if |scores| > Ledger.Capacity {
        scores := scores[|scores| - Ledger.Capacity..];
      }
    }

    /** Unlocks what `cps` and the ledger length earn, and returns the
        banners shown for the new ids. */
    method CheckAchievements(cps: Score) returns (shown: seq<string>)
      modifies this
      ensures achievements == Achievements.Unlock(old(achievements), cps, |scores|)
      ensures |old(achievements)| <= |achievements|
      ensures shown == Achievements.Banners(achievements[|old(achievements)|..], achievementsEnabled)
      ensures count == old(count) && timeLeft == old(timeLeft) && totalTime == old(totalTime)
      ensures isRunning == old(isRunning) && scores == old(scores)
    {
      ghost var before := achievements;
      shown := [];
      if AtLeast(cps, Achievements.SpeedDemonCps) && Achievements.SpeedDemon !in achievements {
        Push(before, Achievements.SpeedDemon, shown);
        shown := shown + ShowAchievement(Achievements.SpeedDemon);
      }
      if AtLeast(cps, Achievements.ClickMasterCps) && Achievements.ClickMaster !in achievements {
        Push(before, Achievements.ClickMaster, shown);
        shown := shown + ShowAchievement(Achievements.ClickMaster);
      }
      if |scores| >= Achievements.PersistentScores && Achievements.Persistent !in achievements {
        Push(before, Achievements.Persistent, shown);
        shown := shown + ShowAchievement(Achievements.Persistent);
      }
    }

    /** Appends `id` to the unlocked list; the banners shown so far, plus
        the one for `id`, are then those of everything added since `before`. */
    method Push(ghost before: seq<string>, id: string, ghost shown: seq<string>)
      requires |before| <= |achievements| && achievements[..|before|] == before
      requires shown == Achievements.Banners(achievements[|before|..], achievementsEnabled)
      modifies this
      ensures achievements == old(achievements) + [id]
      ensures achievements[..|before|] == before
      ensures shown + ShowAchievement(id) == Achievements.Banners(achievements[|before|..], achievementsEnabled)
      ensures count == old(count) && timeLeft == old(timeLeft) && totalTime == old(totalTime)
      ensures isRunning == old(isRunning) && scores == old(scores)
    {
      var added := achievements[|before|..];
      achievements := achievements + [id];
      assert achievements[|before|..] == added + [id];
      Achievements.BannersAppend(added, [id], achievementsEnabled);
    }

    /** `showAchievement`: the banner for `id`, or nothing when the
        achievement setting is off. */
    function ShowAchievement(id: string): (r: seq<string>)
      reads this
      ensures r == Achievements.Banners([id], achievementsEnabled)
    {
      if achievementsEnabled then [Achievements.Banner(id)] else []
    }
  }
}
