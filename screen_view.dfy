/**
 * ScreenBaseT: a screen view whose Show and Hide take typed arguments.
 *
 * `Show(object)` and `Hide(object)` run the typed Show/Hide only when the
 * argument is of the declared type; otherwise they log a type mismatch,
 * and the log message reads the argument's runtime type, which fails on a
 * null argument. `RequestHide` and `OnDestroy` raise their notifications in
 * a fixed order. The view records what it does in `log`.
 */
module ScreenViews {
  import opened UIEntities

  /** How `Show(object)`/`Hide(object)` handle an argument. */
  datatype Dispatch = RunTyped | LogMismatch | Throw

  /** `args is TData` selects the typed call; any other argument goes to the
      mismatch branch, whose message calls `args.GetType()`. */
  function DispatchOf(types: set<Name>, args: Arg): (d: Dispatch)
    ensures d == RunTyped <==> IsOfType(args, types)
    ensures d == Throw <==> args.Null?
  {
    if IsOfType(args, types) then RunTyped
    else if args.Null? then Throw
    else LogMismatch
  }

  datatype ViewSignal =
    | TypedShow(showArgs: Arg)
    | TypedHide(hideArgs: Arg)
    | TypeMismatchLogged
    | HideRequest        // OnHideRequest, raised through ScreenBase
    | HideRequestT       // OnHideRequestT
    | HideCompleted      // OnHideCompleted, raised through ScreenBase
    | HideCompletedT     // OnHideCompletedT
    | Destroyed          // OnDestroyed of ScreenBase
    | DestroyedT         // OnDestroyedT

  /** What one typed dispatch records. */
  function DispatchSignals(d: Dispatch, typed: ViewSignal): seq<ViewSignal> {
    match d
    case RunTyped => [typed]
    case LogMismatch => [TypeMismatchLogged]
    case Throw => []
  }

  /** What RequestHide records: request notifications, the hide, then the
      completed notifications, unless the hide throws. */
  function RequestHideSignals(hideTypes: set<Name>, args: Arg): seq<ViewSignal> {
    var d := DispatchOf(hideTypes, args);
    [HideRequest, HideRequestT] + DispatchSignals(d, TypedHide(args))
    + (if d == Throw then [] else [HideCompleted, HideCompletedT])
  }

  class ScreenView {
    const showTypes: set<Name>
    const hideTypes: set<Name>
    var log: seq<ViewSignal>

    constructor(showTypes: set<Name>, hideTypes: set<Name>)
      ensures this.showTypes == showTypes && this.hideTypes == hideTypes && log == []
    {
      this.showTypes := showTypes;
      this.hideTypes := hideTypes;
      log := [];
    }

    /** `Show(object)`; `threw` when the argument is null. */
    method Show(args: Arg) returns (threw: bool)
      modifies this`log
      ensures threw <==> args.Null?
      ensures log == old(log) + DispatchSignals(DispatchOf(showTypes, args), TypedShow(args))
    {
      var d := DispatchOf(showTypes, args);
      match d
      case RunTyped => log := log + [TypedShow(args)]; threw := false;
      case LogMismatch => log := log + [TypeMismatchLogged]; threw := false;
      case Throw => threw := true;
    }

    /** `Hide(object)`; `threw` when the argument is null. */
    method Hide(args: Arg) returns (threw: bool)
      modifies this`log
      ensures threw <==> args.Null?
      ensures log == old(log) + DispatchSignals(DispatchOf(hideTypes, args), TypedHide(args))
    {
      var d := DispatchOf(hideTypes, args);
      match d
      case RunTyped => log := log + [TypedHide(args)]; threw := false;
      case LogMismatch => log := log + [TypeMismatchLogged]; threw := false;
      case Throw => threw := true;
    }

    /** `RequestHide(object)`: both request notifications, the hide, then
        both completed notifications, the base one first each time. */
    method RequestHide(args: Arg) returns (threw: bool)
      modifies this`log
      ensures threw <==> args.Null?
      ensures log == old(log) + RequestHideSignals(hideTypes, args)
    {
      log := log + [HideRequest, HideRequestT];
      threw := Hide(args);
      if !threw {
        log := log + [HideCompleted, HideCompletedT];
      }
    }

    /** `OnDestroy`: the base notification, then the typed one. */
    method OnDestroy()
      modifies this`log
      ensures log == old(log) + [Destroyed, DestroyedT]
    {
      log := log + [Destroyed];
      log := log + [DestroyedT];
    }
  }

  /** A typed hide runs exactly when the argument is of the hide type, and
      then it sits between the request and the completed notifications. */
  lemma RequestHideOrder(hideTypes: set<Name>, args: Arg)
    ensures TypedHide(args) in RequestHideSignals(hideTypes, args) <==> IsOfType(args, hideTypes)
    ensures IsOfType(args, hideTypes) ==>
      RequestHideSignals(hideTypes, args) == [HideRequest, HideRequestT, TypedHide(args), HideCompleted, HideCompletedT]
  {
  }

  /** A null argument never reaches the typed hide and the completed
      notifications are never raised. */
  lemma RequestHideNullArgs(hideTypes: set<Name>)
    ensures RequestHideSignals(hideTypes, Null) == [HideRequest, HideRequestT]
  {
  }

  /** An argument of the wrong type still completes the hide request,
      without the typed hide. */
  lemma RequestHideMismatch(hideTypes: set<Name>, args: Arg)
    requires args.Obj? && args.runtimeType !in hideTypes
    ensures RequestHideSignals(hideTypes, args) == [HideRequest, HideRequestT, TypeMismatchLogged, HideCompleted, HideCompletedT]
  {
  }
}
