/**
 * PopupBaseT: the typed popup view. It stores the screen it belongs to,
 * keeps the close-request delegate the flow subscribes to, dispatches
 * GoToBackground on its argument (typed, wrong type, null) and raises the
 * close-request notifications. The view records what it does in `log`.
 */
module PopupViews {
  import opened Wrappers
  import opened UIEntities

  datatype PopupSignal =
    | TypedGoToBackground(args: Arg)   // OnGoToBackgroundT
    | GoneToBackground                 // OnGoneToBackground
    | GoneToBackgroundT                // OnGoneToBackgroundT
    | TypeMismatchLogged
    | NullArgsWarned
    | CloseRequested(handler: Callback) // one handler of the close-request delegate
    | CloseRequestedT                  // OnClosePopupRequestT

  /** What GoToBackground records for an argument. */
  function GoToBackgroundSignals(hideTypes: set<Name>, args: Arg): seq<PopupSignal> {
    if args.Obj? then
      if IsOfType(args, hideTypes) then [TypedGoToBackground(args), GoneToBackground, GoneToBackgroundT]
      else [TypeMismatchLogged]
    else [NullArgsWarned, GoneToBackground, GoneToBackgroundT]
  }

  /** Invoking a delegate: every handler of its invocation list, in order. */
  function CloseRequestSignals(handlers: seq<Callback>): (r: seq<PopupSignal>)
    ensures |r| == |handlers| && forall i :: 0 <= i < |r| ==> r[i] == CloseRequested(handlers[i])
  {
    if handlers == [] then [] else [CloseRequested(handlers[0])] + CloseRequestSignals(handlers[1..])
  }

  /** `Delegate.Remove`: drops the last occurrence of the handler; no
      change when it is not subscribed. */
  function RemoveLast(s: seq<Callback>, h: Callback): (r: seq<Callback>)
    ensures h in s ==> |r| == |s| - 1
    ensures h !in s ==> r == s
    decreases |s|
  {
    if s == [] then []
    else if s[|s| - 1] == h then s[..|s| - 1]
    else RemoveLast(s[..|s| - 1], h) + [s[|s| - 1]]
  }

  /** Removing a handler takes exactly one subscription of it away. */
  lemma {:induction false} RemoveLastMultiset(s: seq<Callback>, h: Callback)
    ensures multiset(RemoveLast(s, h)) == multiset(s) - multiset{h}
    decreases |s|
  {
    if s != [] {
      assert s == s[..|s| - 1] + [s[|s| - 1]];
      if s[|s| - 1] != h {
        RemoveLastMultiset(s[..|s| - 1], h);
      }
    }
  }

  class PopupView {
    const hideTypes: set<Name>
    var parentScreen: Option<ViewId>
    var closeRequestHandlers: seq<Callback>
    var log: seq<PopupSignal>

    constructor(hideTypes: set<Name>)
      ensures this.hideTypes == hideTypes
      ensures parentScreen == None && closeRequestHandlers == [] && log == []
    {
      this.hideTypes := hideTypes;
      parentScreen := None;
      closeRequestHandlers := [];
      log := [];
    }

    /** The `ParentScreen` getter. */
    function ParentScreen(): Option<ViewId>
      reads this`parentScreen
    {
      parentScreen
    }

    /** The `ParentScreen` setter: the getter returns what was assigned last. */
    method SetParentScreen(screen: Option<ViewId>)
      modifies this`parentScreen
      ensures ParentScreen() == screen
    {
      parentScreen := screen;
    }

    /** `OnClosePopupRequest += handler`. */
    method AddCloseRequestHandler(h: Callback)
      modifies this`closeRequestHandlers
      ensures closeRequestHandlers == old(closeRequestHandlers) + [h]
    {
      closeRequestHandlers := closeRequestHandlers + [h];
    }

    /** `OnClosePopupRequest -= handler`. */
    method RemoveCloseRequestHandler(h: Callback)
      modifies this`closeRequestHandlers
      ensures closeRequestHandlers == RemoveLast(old(closeRequestHandlers), h)
      ensures multiset(closeRequestHandlers) == multiset(old(closeRequestHandlers)) - multiset{h}
    {
      RemoveLastMultiset(closeRequestHandlers, h);
      closeRequestHandlers := RemoveLast(closeRequestHandlers, h);
    }

    /** `GoToBackground(args)`. */
    method GoToBackground(args: Arg)
      modifies this`log
      ensures log == old(log) + GoToBackgroundSignals(hideTypes, args)
    {
      if args.Obj? {
        if IsOfType(args, hideTypes) {
          log := log + [TypedGoToBackground(args)];
          log := log + [GoneToBackground];
          log := log + [GoneToBackgroundT];
        } else {
          log := log + [TypeMismatchLogged];
        }
      } else {
        log := log + [NullArgsWarned];
        log := log + [GoneToBackground];
        log := log + [GoneToBackgroundT];
      }
    }

    /** `ClosePopup()`: every subscribed close-request handler, then the
        typed notification. */
    method ClosePopup()
      modifies this`log
      ensures log == old(log) + CloseRequestSignals(closeRequestHandlers) + [CloseRequestedT]
    {
      log := log + CloseRequestSignals(closeRequestHandlers);
      log := log + [CloseRequestedT];
    }
  }

  /** Subscribing then unsubscribing the same handler restores the delegate. */
  lemma AddThenRemoveRestores(s: seq<Callback>, h: Callback)
    ensures RemoveLast(s + [h], h) == s
  {
    assert (s + [h])[..|s|] == s;
  }

  /** GoToBackground runs the typed callback exactly for an argument of the
      hide type, raises the gone-to-background notifications exactly when
      it does not reject the argument, and raises them after the callback,
      the untyped one first. */
  lemma GoToBackgroundDispatch(hideTypes: set<Name>, args: Arg)
    ensures var s := GoToBackgroundSignals(hideTypes, args);
      && (TypedGoToBackground(args) in s <==> IsOfType(args, hideTypes))
      && (GoneToBackground in s <==> args.Null? || IsOfType(args, hideTypes))
      && (GoneToBackground in s ==> s[|s| - 2] == GoneToBackground && s[|s| - 1] == GoneToBackgroundT)
      && (args.Obj? && !IsOfType(args, hideTypes) ==> s == [TypeMismatchLogged])
      && (forall a :: TypedGoToBackground(a) in s ==> a.Obj?)
  {
  }

  /** The close-request delegate is raised before the typed notification,
      once per subscription. */
  lemma ClosePopupOrder(handlers: seq<Callback>, h: Callback)
    ensures var s := CloseRequestSignals(handlers) + [CloseRequestedT];
      s[|s| - 1] == CloseRequestedT && (CloseRequested(h) in s <==> h in handlers)
  {
    var s := CloseRequestSignals(handlers);
    if CloseRequested(h) in s {
      var i :| 0 <= i < |s| && s[i] == CloseRequested(h);
      assert handlers[i] == h;
    }
    if h in handlers {
      var i :| 0 <= i < |handlers| && handlers[i] == h;
      assert s[i] == CloseRequested(h);
    }
  }
}
