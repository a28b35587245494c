/** The sleep gate at the top of the loop: from the key-in level and the
    tracker's sleep state it decides to pause sleep, resume it, or leave it.
    The tracker's own sleep manager is not part of this model; its effect is
    stated below as an explicit assumption. */
module SleepGate {

  datatype SleepAction = PauseSleep | ResumeSleep | NoAction

  /** `sleepDisabled` and `sleepMode` are what the tracker reports this
      iteration (`isSleepDisabled()`, `getSleepMode()`). */
  function Decide(keyIn: bool, sleepDisabled: bool, sleepMode: bool): (a: SleepAction)
    ensures a != NoAction <==> !sleepDisabled && keyIn != sleepMode
    ensures a == PauseSleep ==> keyIn
    ensures a == ResumeSleep ==> !keyIn
  {
    if keyIn && !sleepDisabled && !sleepMode then PauseSleep
    else if !keyIn && !sleepDisabled && sleepMode then ResumeSleep
    else NoAction
  }

  /** ASSUMED effect of the tracker calls on the reported sleep mode: pausing
      sets it and resuming clears it. The tracker's code is not modelled, so
      every lemma that uses this function rests on that assumption. */
  function AssumedMode(a: SleepAction, sleepMode: bool): bool {
    match a
    case PauseSleep => true
    case ResumeSleep => false
    case NoAction => sleepMode
  }

  /** With sleep enabled, one decision brings the mode in line with the key. */
  lemma GateSettles(keyIn: bool, sleepMode: bool)
    ensures AssumedMode(Decide(keyIn, false, sleepMode), sleepMode) == keyIn
  {
  }

  /** ... so deciding again on the same key-in level does nothing. */
  lemma GateIdempotent(keyIn: bool, sleepMode: bool)
    ensures Decide(keyIn, false, AssumedMode(Decide(keyIn, false, sleepMode), sleepMode)) == NoAction
  {
    GateSettles(keyIn, sleepMode);
  }

  /** The decisions of successive iterations that see the key-in levels
      `keys`, with sleep enabled, starting from `sleepMode`. */
  function Run(sleepMode: bool, keys: seq<bool>): (acts: seq<SleepAction>)
    ensures |acts| == |keys|
    decreases |keys|
  {
    if keys == [] then []
    else
      var a := Decide(keys[0], false, sleepMode);
      [a] + Run(AssumedMode(a, sleepMode), keys[1..])
  }

  function Transitions(acts: seq<SleepAction>): nat
    decreases |acts|
  {
    if acts == [] then 0 else (if acts[0] != NoAction then 1 else 0) + Transitions(acts[1..])
  }

  /** How often the level in `keys` differs from the one before it (the first
      compared with `prev`). */
  function LevelChanges(prev: bool, keys: seq<bool>): nat
    decreases |keys|
  {
    if keys == [] then 0 else (if keys[0] != prev then 1 else 0) + LevelChanges(keys[0], keys[1..])
  }

  /** The gate is a level-to-edge adapter: it acts exactly once per change of
      the key-in level, and never while the level stays put. */
  lemma {:induction false} TransitionsAreLevelChanges(sleepMode: bool, keys: seq<bool>)
    ensures Transitions(Run(sleepMode, keys)) == LevelChanges(sleepMode, keys)
    decreases |keys|
  {
    if keys != [] {
      var a := Decide(keys[0], false, sleepMode);
      GateSettles(keys[0], sleepMode);
      TransitionsAreLevelChanges(keys[0], keys[1..]);
      assert ([a] + Run(keys[0], keys[1..]))[1..] == Run(keys[0], keys[1..]);
    }
  }

  /** The key goes in, out and in again with sleep enabled and not paused. */
  lemma KeyInOutIn()
    ensures Run(false, [true, false, true]) == [PauseSleep, ResumeSleep, PauseSleep]
  {
    assert [true, false, true][1..] == [false, true];
    assert [false, true][1..] == [true];
  }
}
