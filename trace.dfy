/**
 * The event trace through which the flow talks to its collaborators.
 *
 * The engine is driven by coroutines on one thread. Every `yield return` on
 * a Show, Hide, RequestHide or asset load is modelled as an atomic call to a
 * collaborator: awaiting it at once appends `Started(a)` and `Joined(a)`
 * side by side; starting it as a background coroutine (the Intersection
 * policy) appends `Started(a)` and keeps a handle, and joining that handle
 * later appends `Joined(a)`. Unity calls without logic of their own
 * (activation, destruction, instantiation, unloading) and the callbacks and
 * notifications the flow fires are events too.
 */
module Trace {
  import opened Wrappers
  import opened UIEntities

  datatype Anim =
    | Load(entity: Entity)
    | RequestHide(view: ViewId, args: Arg)   // ScreenBase.RequestHide: hide with its request/completed notifications
    | Hide(view: ViewId, args: Arg)          // a bare Hide (the older engine calls it directly)
    | Show(view: ViewId, args: Arg)

  datatype LogEntry =
    | ConfigIsNull
    | DuplicateEntity(name: Name)
    | LoadFailed(entity: Entity)
    | NoViewComponent(entity: Entity)

  datatype Event =
    | Started(anim: Anim)
    | Joined(anim: Anim)
    | LoadPolled(entity: Entity)
    | WentToBackground(view: ViewId, args: Arg)
    | Activated(view: ViewId)
    | Deactivated(view: ViewId)
    | Instantiated(view: ViewId, prefab: ViewId)
    | Destroyed(view: ViewId)
    | Unloaded(entity: Entity)
    | CanvasCreated(canvas: CanvasId)
    | Invoked(callback: Callback, arg: Option<ViewId>)
    | ScreenChanged(previousScreen: Option<ScreenConfig>, nextScreen: ScreenConfig)
    | PopupOpened(previousPopup: Option<PopupConfig>, nextPopup: PopupConfig)
    | SceneAssetSet(entity: Entity, view: ViewId)
    | Logged(entry: LogEntry)

  /** `cb?.Invoke(v)`: nothing when the callback is null. */
  function CallbackEvents(cb: Option<Callback>, v: Option<ViewId>): seq<Event> {
    if cb.Some? then [Invoked(cb.value, v)] else []
  }

  /** No animation is started or joined: nothing waits on a Show or a Hide. */
  ghost predicate Quiet(events: seq<Event>) {
    forall e :: e in events ==> !e.Started? && !e.Joined?
  }

  /** `a` occurs strictly before `b` in `t`. */
  ghost predicate Precedes(t: seq<Event>, a: Event, b: Event) {
    exists i, j :: 0 <= i < j < |t| && t[i] == a && t[j] == b
  }

  /** `s` is what was appended last to `t`. */
  ghost predicate EndsWith(t: seq<Event>, s: seq<Event>) {
    |s| <= |t| && t[|t| - |s|..] == s
  }

  /** Awaiting a collaborator at once: the Wait and NoAnimation policies. */
  function Awaited(a: Anim): seq<Event> {
    [Started(a), Joined(a)]
  }

  /** An ordering seen in a piece of a trace holds in any trace around it. */
  lemma PrecedesInContext(p: seq<Event>, t: seq<Event>, s: seq<Event>, a: Event, b: Event)
    requires Precedes(t, a, b)
    ensures Precedes(p + t + s, a, b)
  {
    var i, j :| 0 <= i < j < |t| && t[i] == a && t[j] == b;
    assert (p + t + s)[|p| + i] == a && (p + t + s)[|p| + j] == b;
  }

  /** Appending the steps of a phase one by one appends their concatenation. */
  lemma AppendTwo(t: seq<Event>, a: seq<Event>, b: seq<Event>)
    ensures t + a + b == t + (a + b)
  {
  }

  lemma AppendThree(t: seq<Event>, a: seq<Event>, b: seq<Event>, c: seq<Event>)
    ensures t + a + b + c == t + (a + b + c)
  {
  }

  lemma AppendFour(t: seq<Event>, a: seq<Event>, b: seq<Event>, c: seq<Event>, d: seq<Event>)
    ensures t + a + b + c + d == t + (a + b + c + d)
  {
  }

  lemma AppendSteps(t: seq<Event>, a: seq<Event>, b: seq<Event>, c: seq<Event>, d: seq<Event>, e: seq<Event>)
    ensures t + a + b + c + d + e == t + (a + b + c + d + e)
  {
  }
}
