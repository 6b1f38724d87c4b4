/**
 * Command admission and the start of the queue drain.
 *
 * A command arriving while no drain runs is appended and the drain
 * coroutine is started. `StartCoroutine` runs the drain at once up to its
 * first `yield return`: commands that never reach one (a Trigger whose
 * object is not a definition, a popup Trigger with no current screen or
 * with a current screen that does not allow popups) are consumed there and
 * then. When the drain runs out of commands inside that first step it has
 * cleared `transitionRoutine` already, and the handle `StartCoroutine`
 * hands back is then stored into it. Whether that handle is null for a
 * coroutine that finished inside the call is a property of the engine, not
 * of this code: `finishedHandle` says which, and both outcomes are proved.
 */
module Admission {
  import opened Wrappers
  import opened UIEntities

  /** Whether dispatching `cmd` reaches a `yield return` in ProcessCommandQueue. */
  predicate Yields(cmd: ScreenFlowCommand, current: Option<ScreenConfig>) {
    match cmd.kind
    case Trigger =>
      (match cmd.target
       case EntityTarget(ScreenEntity(_)) => true
       case EntityTarget(PopupEntity(_)) => current.Some? && current.value.allowPopups
       case _ => false)
    case MoveBack => true
    case ClosePopup => true
  }

  /** The queue left once the synchronous first step of the drain has
      consumed the leading commands that never yield. None of those changes
      the current screen, so one `current` serves for all of them. */
  function SkipDiscarded(q: seq<ScreenFlowCommand>, current: Option<ScreenConfig>): (r: seq<ScreenFlowCommand>)
    ensures |r| <= |q| && r == q[|q| - |r|..]
    ensures r == [] || Yields(r[0], current)
    ensures forall i :: 0 <= i < |q| - |r| ==> !Yields(q[i], current)
  {
    if q == [] then []
    else if Yields(q[0], current) then q
    else
      var r := SkipDiscarded(q[1..], current);
      assert forall i :: 1 <= i < |q| - |r| ==> q[i] == q[1..][i - 1];
      r
  }

  /** The drain as the admission code sees it: the queue, whether
      `transitionRoutine` holds a handle (this is `IsTransiting`), and whether
      a drain coroutine is actually alive to empty the queue. */
  datatype Drain = Drain(queue: seq<ScreenFlowCommand>, routine: bool, running: bool)

  /** `commandQueue.Add(command); transitionRoutine ??= StartCoroutine(ProcessCommandQueue())`
      issued while `transitionRoutine` is null. */
  function StartDrain(q: seq<ScreenFlowCommand>, current: Option<ScreenConfig>, finishedHandle: bool): Drain {
    var rest := SkipDiscarded(q, current);
    Drain(rest, rest != [] || finishedHandle, rest != [])
  }

  /** SendTrigger, MoveBack and ClosePopup: append and start the drain when
      not transiting; while transiting, append only when `enqueue`. */
  function Admit(d: Drain, cmd: ScreenFlowCommand, enqueue: bool, current: Option<ScreenConfig>,
                 finishedHandle: bool): (r: Drain)
    ensures d.routine ==> r.routine && r.running == d.running
  {
    if !d.routine then StartDrain(d.queue + [cmd], current, finishedHandle)
    else if enqueue then d.(queue := d.queue + [cmd])
    else d
  }

  /** The flag tells the truth: a handle is held exactly while a drain is
      alive, and no command waits while none is. */
  ghost predicate Consistent(d: Drain) {
    d.routine == d.running && (!d.routine ==> d.queue == [])
  }

  /** The flag is set but nothing will ever empty the queue. */
  ghost predicate Stuck(d: Drain) {
    d.routine && !d.running
  }

  /** With a null handle for a finished coroutine, admission keeps the flag
      truthful. */
  lemma AdmitKeepsConsistent(d: Drain, cmd: ScreenFlowCommand, enqueue: bool, current: Option<ScreenConfig>)
    requires Consistent(d)
    ensures Consistent(Admit(d, cmd, enqueue, current, false))
  {
  }

  /** A command that yields is never lost by admission: it ends the queue
      unless a busy flow was asked not to enqueue. */
  lemma AdmitKeepsYieldingCommand(d: Drain, cmd: ScreenFlowCommand, enqueue: bool, current: Option<ScreenConfig>,
                                  finishedHandle: bool)
    requires Consistent(d) && Yields(cmd, current)
    requires !d.routine || enqueue
    ensures var r := Admit(d, cmd, enqueue, current, finishedHandle);
      r.running && r.queue != [] && r.queue[|r.queue| - 1] == cmd
  {
    if !d.routine {
      assert d.queue + [cmd] == [cmd];
    }
  }

  /** While transiting, a command is appended exactly when `enqueue` holds
      and the queued ones keep their order. */
  lemma AdmitWhileTransiting(d: Drain, cmd: ScreenFlowCommand, enqueue: bool, current: Option<ScreenConfig>,
                             finishedHandle: bool)
    requires d.routine
    ensures var r := Admit(d, cmd, enqueue, current, finishedHandle);
      r.queue == if enqueue then d.queue + [cmd] else d.queue
  {
  }

  /** With a non-null handle for a finished coroutine, a single popup
      trigger sent before any screen is shown leaves the flow transiting
      with no drain alive... */
  lemma StuckAfterDiscardedPopupTrigger(p: PopupConfig, args: Arg, enqueue: bool)
    ensures Stuck(Admit(Drain([], false, false), ScreenFlowCommand(Trigger, EntityTarget(PopupEntity(p)), args, None, None),
                        enqueue, None, true))
  {
    var cmd := ScreenFlowCommand(Trigger, EntityTarget(PopupEntity(p)), args, None, None);
    assert [] + [cmd] == [cmd];
    assert SkipDiscarded([cmd], None) == SkipDiscarded([], None);
  }

  /** ...and no later admission ever starts a drain again. */
  lemma StuckIsPermanent(d: Drain, cmd: ScreenFlowCommand, enqueue: bool, current: Option<ScreenConfig>,
                         finishedHandle: bool)
    requires Stuck(d)
    ensures Stuck(Admit(d, cmd, enqueue, current, finishedHandle))
  {
  }
}
