/**
 * The start/stop flags of the older canvas renderer against the host's
 * animation-frame queue. Only the scheduling is modelled: `pending` counts
 * queued loop callbacks, `frames` counts loop bodies that ran a frame, and
 * `nextHandle` is the handle the next `requestAnimationFrame` returns
 * (handles are positive, so a stored handle is truthy).
 */
module CanvasLoop {
  import opened Wrappers

  datatype LoopState = LoopState(isRunning: bool, animationId: Option<nat>, pending: nat,
                                 frames: nat, nextHandle: nat)

  datatype Op = Start | Stop | Fire

  /** A renderer just constructed: stopped, nothing queued. */
  const Initial: LoopState := LoopState(false, None, 0, 0, 1)

  // ---- As written ----------------------------------------------------------

  /** `start()`: a no-op while running; otherwise set the flag and queue the loop, dropping the handle. */
  function StartAsWritten(s: LoopState): (r: LoopState)
    ensures s.isRunning ==> r == s
    ensures !s.isRunning ==> r.isRunning && r.pending == s.pending + 1 && r.animationId == s.animationId
  {
    if s.isRunning then s
    else s.(isRunning := true, pending := s.pending + 1, nextHandle := s.nextHandle + 1)
  }

  /** `stop()`: clear the flag, and cancel the stored handle if there is one. */
  function StopAsWritten(s: LoopState): (r: LoopState)
    ensures !r.isRunning && r.animationId.None? && r.frames == s.frames
    ensures s.animationId.None? ==> r.pending == s.pending
  {
    if s.animationId.Some? then
      s.(isRunning := false, animationId := None, pending := if s.pending > 0 then s.pending - 1 else 0)
    else s.(isRunning := false)
  }

  /**
   * One queued callback fires: it returns at once when the flag is clear,
   * otherwise it runs a frame and queues itself again without storing the handle.
   */
  function FireAsWritten(s: LoopState): (r: LoopState)
    ensures s.pending == 0 ==> r == s
    ensures s.pending > 0 && !s.isRunning ==> r.pending == s.pending - 1 && r.frames == s.frames
    ensures s.pending > 0 && s.isRunning ==> r.pending == s.pending && r.frames == s.frames + 1
    ensures r.animationId == s.animationId && r.isRunning == s.isRunning
  {
    if s.pending == 0 then s
    else if !s.isRunning then s.(pending := s.pending - 1)
    else s.(frames := s.frames + 1, nextHandle := s.nextHandle + 1)
  }

  function StepAsWritten(s: LoopState, op: Op): LoopState {
    match op
    case Start => StartAsWritten(s)
    case Stop => StopAsWritten(s)
    case Fire => FireAsWritten(s)
  }

  function RunAsWritten(s: LoopState, ops: seq<Op>): LoopState
    decreases |ops|
  {
    if ops == [] then s else RunAsWritten(StepAsWritten(s, ops[0]), ops[1..])
  }

  /** Nothing ever stores a handle, so the cancelling branch of `stop` is unreachable. */
  lemma {:induction false} HandleNeverStored(s: LoopState, ops: seq<Op>)
    requires s.animationId.None?
    ensures RunAsWritten(s, ops).animationId.None?
    decreases |ops|
  {
    if ops != [] {
      HandleNeverStored(StepAsWritten(s, ops[0]), ops[1..]);
    }
  }

  /**
   * start, stop, start before any frame: the first callback was never
   * cancelled, so two loop chains run and every animation frame now runs
   * two particle frames.
   */
  lemma RestartDoublesLoop()
    ensures var s := RunAsWritten(Initial, [Start, Stop, Start]);
            s.isRunning && s.pending == 2
    ensures var s := RunAsWritten(Initial, [Start, Stop, Start, Fire, Fire]);
            s.pending == 2 && s.frames == 2
  {
    var s1 := StartAsWritten(Initial);
    var s2 := StopAsWritten(s1);
    var s3 := StartAsWritten(s2);
    assert RunAsWritten(Initial, [Start, Stop, Start]) == RunAsWritten(s3, []) by {
      assert [Start, Stop, Start][1..] == [Stop, Start];
      assert [Stop, Start][1..] == [Start];
      assert [Start][1..] == [];
    }
    var s4 := FireAsWritten(s3);
    var s5 := FireAsWritten(s4);
    assert RunAsWritten(Initial, [Start, Stop, Start, Fire, Fire]) == RunAsWritten(s5, []) by {
      assert [Start, Stop, Start, Fire, Fire][1..] == [Stop, Start, Fire, Fire];
      assert [Stop, Start, Fire, Fire][1..] == [Start, Fire, Fire];
      assert [Start, Fire, Fire][1..] == [Fire, Fire];
      assert [Fire, Fire][1..] == [Fire];
      assert [Fire][1..] == [];
    }
  }

  // ---- Corrected: the handle is stored and cancelled ----------------------

  function StartFixed(s: LoopState): (r: LoopState)
    ensures s.isRunning ==> r == s
    ensures !s.isRunning ==> r.isRunning && r.pending == s.pending + 1 && r.animationId == Some(s.nextHandle)
  {
    if s.isRunning then s
    else s.(isRunning := true, animationId := Some(s.nextHandle), pending := s.pending + 1,
            nextHandle := s.nextHandle + 1)
  }

  function StopFixed(s: LoopState): (r: LoopState)
    ensures !r.isRunning && r.animationId.None? && r.frames == s.frames
    ensures s.animationId.Some? && s.pending > 0 ==> r.pending == s.pending - 1
  {
    if s.animationId.Some? then
      s.(isRunning := false, animationId := None, pending := if s.pending > 0 then s.pending - 1 else 0)
    else s.(isRunning := false)
  }

  function FireFixed(s: LoopState): (r: LoopState)
    ensures s.pending == 0 ==> r == s
    ensures s.pending > 0 && !s.isRunning ==> r.pending == s.pending - 1 && r.frames == s.frames
    ensures s.pending > 0 && s.isRunning ==> r.pending == s.pending && r.frames == s.frames + 1
  {
    if s.pending == 0 then s
    else if !s.isRunning then s.(pending := s.pending - 1)
    else s.(frames := s.frames + 1, animationId := Some(s.nextHandle), nextHandle := s.nextHandle + 1)
  }

  function StepFixed(s: LoopState, op: Op): LoopState {
    match op
    case Start => StartFixed(s)
    case Stop => StopFixed(s)
    case Fire => FireFixed(s)
  }

  function RunFixed(s: LoopState, ops: seq<Op>): LoopState
    decreases |ops|
  {
    if ops == [] then s else RunFixed(StepFixed(s, ops[0]), ops[1..])
  }

  /** Exactly one loop chain while running, none while stopped, and a handle exactly while running. */
  predicate SingleChain(s: LoopState) {
    s.pending == (if s.isRunning then 1 else 0) && (s.isRunning <==> s.animationId.Some?)
  }

  lemma StepFixedKeepsSingleChain(s: LoopState, op: Op)
    requires SingleChain(s)
    ensures SingleChain(StepFixed(s, op))
  {
  }

  /** With the handle stored, no sequence of starts, stops and frames ever queues a second chain. */
  lemma {:induction false} FixedNeverDoubles(s: LoopState, ops: seq<Op>)
    requires SingleChain(s)
    ensures SingleChain(RunFixed(s, ops)) && RunFixed(s, ops).pending <= 1
    decreases |ops|
  {
    if ops != [] {
      StepFixedKeepsSingleChain(s, ops[0]);
      FixedNeverDoubles(StepFixed(s, ops[0]), ops[1..]);
    }
  }

  lemma RestartFixed()
    ensures var s := RunFixed(Initial, [Start, Stop, Start]);
            s.isRunning && s.pending == 1
  {
    FixedNeverDoubles(Initial, [Start, Stop, Start]);
    var s1 := StartFixed(Initial);
    var s2 := StopFixed(s1);
    var s3 := StartFixed(s2);
    assert RunFixed(Initial, [Start, Stop, Start]) == RunFixed(s3, []) by {
      assert [Start, Stop, Start][1..] == [Stop, Start];
      assert [Stop, Start][1..] == [Start];
      assert [Start][1..] == [];
    }
  }
}
