/** The achievement evaluator: `checkAchievements` appends an id to the list
    of unlocked achievements when its threshold is met and it is not yet in
    the list. */
module Achievements {
  import opened Numbers

  const SpeedDemon: string := "speed_demon"
  const ClickMaster: string := "click_master"
  const Persistent: string := "persistent"

  /** `speed_demon` needs at least this many clicks per second. */
  const SpeedDemonCps: real := 10.0
  /** `click_master` needs at least this many clicks per second. */
  const ClickMasterCps: real := 15.0
  /** `persistent` needs at least this many scores in the ledger. */
  const PersistentScores: nat := 10

  predicate NoDuplicates(ids: seq<string>) {
    forall i, j :: 0 <= i < j < |ids| ==> ids[i] != ids[j]
  }

  /** Appends `id` when `due` holds and the list does not hold it yet. */
  function AddIfDue(ids: seq<string>, id: string, due: bool): (r: seq<string>)
    ensures r == ids || r == ids + [id]
    ensures id in r <==> id in ids || due
    ensures forall x :: x in r && x != id ==> x in ids
    ensures NoDuplicates(ids) ==> NoDuplicates(r)
  {
    if due && id !in ids then ids + [id] else ids
  }

  /** The list after `checkAchievements(cps)`, where `scoreCount` is the
      ledger length after the score was saved. The three rules are checked
      in this order and each independently: an id is present afterwards
      exactly when it was before or its rule fires. The old list is kept as
      a prefix, only the three known ids are ever added, and no duplicate
      is introduced. */
  function Unlock(ids: seq<string>, cps: Score, scoreCount: nat): (r: seq<string>)
    ensures SpeedDemon in r <==> SpeedDemon in ids || AtLeast(cps, SpeedDemonCps)
    ensures ClickMaster in r <==> ClickMaster in ids || AtLeast(cps, ClickMasterCps)
    ensures Persistent in r <==> Persistent in ids || scoreCount >= PersistentScores
    ensures |ids| <= |r| && r[..|ids|] == ids
    ensures forall x :: x in r ==> x in ids || x == SpeedDemon || x == ClickMaster || x == Persistent
    ensures NoDuplicates(ids) ==> NoDuplicates(r)
  {
    var afterSpeed := AddIfDue(ids, SpeedDemon, AtLeast(cps, SpeedDemonCps));
    var afterMaster := AddIfDue(afterSpeed, ClickMaster, AtLeast(cps, ClickMasterCps));
    assert SpeedDemon != ClickMaster && SpeedDemon != Persistent && ClickMaster != Persistent;
    assert afterSpeed[..|ids|] == ids;
    assert afterMaster[..|ids|] == ids;
    AddIfDue(afterMaster, Persistent, scoreCount >= PersistentScores)
  }

  /** Below every threshold nothing is unlocked. */
  lemma UnlockBelowThresholds(ids: seq<string>, cps: Score, scoreCount: nat)
    requires !AtLeast(cps, SpeedDemonCps) && scoreCount < PersistentScores
    ensures Unlock(ids, cps, scoreCount) == ids
  {
    assert !AtLeast(cps, ClickMasterCps);
  }

  /** Evaluating twice with the same inputs unlocks nothing new. */
  lemma UnlockIdempotent(ids: seq<string>, cps: Score, scoreCount: nat)
    ensures Unlock(Unlock(ids, cps, scoreCount), cps, scoreCount) == Unlock(ids, cps, scoreCount)
  {
  }

  /** How often `id` occurs in `ids`. */
  function Occurrences(ids: seq<string>, id: string): (n: nat) {
    if ids == [] then 0
    else Occurrences(ids[..|ids| - 1], id) + (if ids[|ids| - 1] == id then 1 else 0)
  }

  lemma {:induction false} OccurrencesAppend(ids: seq<string>, more: seq<string>, id: string)
    ensures Occurrences(ids + more, id) == Occurrences(ids, id) + Occurrences(more, id)
    decreases |more|
  {
    if more == [] {
      assert ids + more == ids;
    } else {
      var init := more[..|more| - 1];
      assert (ids + more)[..|ids + more| - 1] == ids + init;
      OccurrencesAppend(ids, init, id);
    }
  }

  lemma {:induction false} OccurrencesAbsent(ids: seq<string>, id: string)
    requires id !in ids
    ensures Occurrences(ids, id) == 0
  {
    if ids != [] {
      OccurrencesAbsent(ids[..|ids| - 1], id);
    }
  }

  /** Across any sequence of evaluations, each with its own cps and ledger
      length, `click_master` never occurs twice. It occurs exactly once when
      it was already there or some evaluation had `cps >= 15`, and not at
      all otherwise. */
  lemma {:induction false} ClickMasterUnlockedOnce(ids: seq<string>, evals: seq<(Score, nat)>)
    requires Occurrences(ids, ClickMaster) <= 1
    ensures Occurrences(UnlockEach(ids, evals), ClickMaster)
         == if ClickMaster in ids || SomeReaches(evals, ClickMasterCps) then 1 else 0
    decreases |evals|
  {
    if evals == [] {
      if ClickMaster in ids {
        OccurrencesPositive(ids, ClickMaster);
      } else {
        OccurrencesAbsent(ids, ClickMaster);
      }
    } else {
      var next := Unlock(ids, evals[0].0, evals[0].1);
      OccurrencesAfterUnlock(ids, evals[0].0, evals[0].1);
      if ClickMaster in ids {
        OccurrencesPositive(ids, ClickMaster);
      } else {
        OccurrencesAbsent(ids, ClickMaster);
      }
      ClickMasterUnlockedOnce(next, evals[1..]);
      SomeReachesUnfold(evals, ClickMasterCps);
    }
  }

  /** Some evaluation in `evals` had a cps of at least `bound`. */
  predicate SomeReaches(evals: seq<(Score, nat)>, bound: real) {
    exists i :: 0 <= i < |evals| && AtLeast(evals[i].0, bound)
  }

  lemma SomeReachesUnfold(evals: seq<(Score, nat)>, bound: real)
    requires evals != []
    ensures SomeReaches(evals, bound) <==> AtLeast(evals[0].0, bound) || SomeReaches(evals[1..], bound)
  {
    if SomeReaches(evals[1..], bound) {
      var i :| 0 <= i < |evals[1..]| && AtLeast(evals[1..][i].0, bound);
      assert evals[i + 1] == evals[1..][i];
    }
    if SomeReaches(evals, bound) && !AtLeast(evals[0].0, bound) {
      var i :| 0 <= i < |evals| && AtLeast(evals[i].0, bound);
      assert evals[1..][i - 1] == evals[i];
    }
  }

  lemma {:induction false} OccurrencesPositive(ids: seq<string>, id: string)
    requires id in ids
    ensures Occurrences(ids, id) >= 1
  {
    if ids[|ids| - 1] != id {
      OccurrencesPositive(ids[..|ids| - 1], id);
    }
  }

  /** An evaluation adds one `click_master` exactly when its cps reaches 15
      and the list does not hold it yet. */
  lemma OccurrencesAfterUnlock(ids: seq<string>, cps: Score, scoreCount: nat)
    ensures Occurrences(Unlock(ids, cps, scoreCount), ClickMaster)
         == Occurrences(ids, ClickMaster) + (if AtLeast(cps, ClickMasterCps) && ClickMaster !in ids then 1 else 0)
  {
    var afterSpeed := AddIfDue(ids, SpeedDemon, AtLeast(cps, SpeedDemonCps));
    var afterMaster := AddIfDue(afterSpeed, ClickMaster, AtLeast(cps, ClickMasterCps));
    assert SpeedDemon != ClickMaster && Persistent != ClickMaster;
    OccurrencesAddIfDue(ids, SpeedDemon, AtLeast(cps, SpeedDemonCps), ClickMaster);
    OccurrencesAddIfDue(afterSpeed, ClickMaster, AtLeast(cps, ClickMasterCps), ClickMaster);
    OccurrencesAddIfDue(afterMaster, Persistent, scoreCount >= PersistentScores, ClickMaster);
  }

  /** How `AddIfDue` changes the number of occurrences of any id `x`. */
  lemma OccurrencesAddIfDue(ids: seq<string>, id: string, due: bool, x: string)
    ensures Occurrences(AddIfDue(ids, id, due), x)
         == Occurrences(ids, x) + (if due && id !in ids && id == x then 1 else 0)
  {
    if due && id !in ids {
      OccurrencesAppend(ids, [id], x);
      assert [id][..0] == [];
    }
  }

  /** One evaluation per finished game, each with its cps and ledger length. */
  function UnlockEach(ids: seq<string>, evals: seq<(Score, nat)>): (r: seq<string>)
    decreases |evals|
  {
    if evals == [] then ids else UnlockEach(Unlock(ids, evals[0].0, evals[0].1), evals[1..])
  }

  /** The banner `showAchievement` displays for a newly unlocked id. */
  function Banner(id: string): (text: string)
    ensures id == SpeedDemon ==> text == "Speed Demon: Achieved 10+ CPS!"
    ensures id == ClickMaster ==> text == "Click Master: Achieved 15+ CPS!"
    ensures id == Persistent ==> text == "Persistent: Completed 10 tests!"
  {
    if id == SpeedDemon then "Speed Demon: Achieved 10+ CPS!"
    else if id == ClickMaster then "Click Master: Achieved 15+ CPS!"
    else "Persistent: Completed 10 tests!"
  }

  /** The banners shown for the ids unlocked in one evaluation: none when
      the achievement setting is off, otherwise one per new id, in order. */
  function Banners(added: seq<string>, enabled: bool): (r: seq<string>)
    ensures !enabled ==> r == []
    ensures enabled ==> |r| == |added| && forall i :: 0 <= i < |added| ==> r[i] == Banner(added[i])
  {
    if !enabled || added == [] then []
    else [Banner(added[0])] + Banners(added[1..], enabled)
  }

  lemma {:induction false} BannersAppend(a: seq<string>, b: seq<string>, enabled: bool)
    ensures Banners(a + b, enabled) == Banners(a, enabled) + Banners(b, enabled)
  {
    if enabled && a != [] {
      assert (a + b)[1..] == a[1..] + b;
      BannersAppend(a[1..], b, enabled);
    } else if a == [] {
      assert a + b == b;
    }
  }
}
