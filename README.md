# screen-flow navigation orchestrator, modelled in Dafny

This project models `ScreenFlow`, the navigation orchestrator of the
screen-flow Unity package, and proves properties of that model. It is one
object that owns:

- the command queue and the drain coroutine that empties it;
- the screen history, whose last entry is the current screen;
- the two parallel popup stacks, one of definitions and one of instances;
- the popup-canvas pool: the canvases held by live popups, and the idle ones.

`SendTrigger`, `MoveBack` and `ClosePopup` only admit a command. The drain
takes commands off the queue one at a time and runs `ScreenTransitTo`,
`PopupTransitTo`, `MoveBackOp` or `ClosePopupOp`.

The model is one Dafny class, `Engine.ScreenFlow`, whose fields are the
source's fields. Its methods update them in place. A constant `legacy`
selects the older copy of the engine at the repository root. That copy:

- defaults `enqueue` to false;
- calls a bare `Hide` instead of `RequestHide`;
- has no load-failure checks, so a missing or unfit asset is a null
  dereference;
- raises no `OnScreenChange`/`OnPopupOpen`;
- initialises from `Start`, building the preload queue before the start
  screen's trigger is sent.

Every `yield return` on a Show, a Hide, a RequestHide or an asset load is an
atomic call to a collaborator, recorded in an event trace:

- awaiting a call at once appends `Started(a)` then `Joined(a)`;
- the Intersection policy appends `Started(a)` and keeps a handle, and
  joining that handle later appends `Joined(a)`.

Activation, destruction, instantiation, unloading, callbacks, change events
and log messages are trace events too. Wait and Intersection orderings are
therefore stated as orderings of trace events (`Trace.Precedes`). A
coroutine that throws or waits forever sets `halted`. The drain is then gone
while `transitionRoutine` still holds its handle.

A typed view (`ScreenBaseT`, and so every `PopupBaseT`) fails on a null
argument, because its type-mismatch message calls `GetType()` on it. A
definition's asset says whether its view is typed (`viewArgs`). The engine
passes null by default: the start trigger, `MoveBack`, `ClosePopup`,
`CloseForegroundPopup`, the back key, and a popup closing itself all send
null. An awaited Show, Hide or RequestHide of a typed view given null
therefore halts the drain (`ShowThrows`, `HideThrows`, `ThrowsExactlyOnNull`,
`SelfCloseWithNullThrows`). Each method says exactly when this happens, and
its other promises hold when it does not. The legacy engine's views derive from the
root `ScreenBase`/`PopupBase`, whose `Show`/`Hide` take any object and have
no typed base, so a legacy flow only meets views whose asset is `Untyped`;
the model does not forbid a `Typed` asset there, which only adds behaviours
the legacy engine cannot reach.

The modules:

- `UIEntities` holds the definitions, enums, defaults, commands and
  history entries.
- `Admission` holds the admission rule and the synchronous first step of the
  drain.
- `Registry` holds the lookup built by `Initialize`.
- `Preloading` holds the preload queue.
- `Stacks` holds `List.FindIndex`/`List.Remove` on the popup stacks.
- `CanvasPool` holds the canvas sort orders.
- `BackKey` holds the back-key decision table.
- `TransitEvents` holds the events of each transition phase and their
  ordering lemmas.
- `Engine` holds the class.
- `ScreenViews` and `PopupViews` hold the typed view bases.

Quirks of the source are modelled as written and stated as lemmas:

- **Handle left by a short first drain step.** The drain may finish inside
  the `StartCoroutine` call that starts it. It does so when every queued
  command is discarded before the first `yield`. `??=` then stores the handle
  of a coroutine that has already finished. Whether that handle is null is a
  property of the engine, so it is a parameter (`finishedCoroutineHandle`),
  and both outcomes are proved:
  - a null handle keeps the drain flag truthful (`AdmitKeepsConsistent`);
  - a non-null handle leaves the flow transiting forever
    (`StuckAfterDiscardedPopupTrigger`, `StuckIsPermanent`).

  The legacy `transitionRoutine = StartCoroutine(...)` behaves the same
  here, since it runs only while the handle is null.
- **Removal by value.** `List.Remove` removes the first equal element. The
  two stacks therefore keep equal lengths but can lose index alignment when
  a definition is open twice (`AlignmentLostWithRepeatedConfig`). Alignment
  is kept when definitions are distinct (`RemovePairKeepsAlignmentDistinct`).
- **Unassigned sort order.** No sort order is assigned when the popup on top
  holds no pool canvas (`SortOrderSkippedForUnpooledTop`).
- **Order written on the prefab's canvas.** For a popup prefab that carries
  its own canvas, the canvas that is sorted is the prefab asset's. The new
  instance is drawn on its own copy of that canvas. The copy keeps the order
  the asset's canvas had when it was copied, which is the order computed the
  previous time the same prefab was opened (`PrefabInstanceShowsStaleOrder`,
  `PlacePopup`).
- **Popups kept by Intersection.** A popup closed under Intersection on a
  screen without stackable popups stays in the stack unless its definition
  destroys it (`PopupOpenDisposesTop`).
- **Hide callback twice.** The hide callback runs twice when a Wait popup
  goes to the background on a screen with stackable popups
  (`PopupHideEvents`).
- **Destroyed current screen.** A failed core screen transit, after a Wait
  or NoAnimation hide destroyed the current screen, leaves the destroyed view
  current. The next screen transit or move back hides it again and halts when
  it reads the destroyed view's `GameObject` (`HideCurrentScreen`,
  `ScreenTransitTo`).
- **Stuck re-trigger.** Re-triggering the current Wait screen, when its
  asset is unloaded by its own hide, waits forever for a load that was never
  started (`ScreenTransitTo`).

## Model

| member | source | states |
|---|---|---|
| Admission.SkipDiscarded | Core/ScreenFlow.cs:290-313 | the first synchronous step of the drain consumes exactly the leading commands that never reach a `yield`; what is left is a suffix of the queue that is empty or starts with a command that yields |
| Admission.Admit | Core/ScreenFlow.cs:96-107 | while a drain handle is held, admission keeps the handle and whether a drain is alive |
| Admission.AdmitKeepsConsistent | Core/ScreenFlow.cs:96-100 | with a null handle for a finished coroutine, admission keeps the drain flag truthful: a handle is held exactly while a drain is alive, and an idle flow has an empty queue |
| Admission.AdmitKeepsYieldingCommand | Core/ScreenFlow.cs:96-107 | a command that yields is never lost: it ends the queue of a live drain unless a busy flow was told not to enqueue |
| Admission.AdmitWhileTransiting | Core/ScreenFlow.cs:101-107 | while transiting, the command is appended exactly when `enqueue` holds, and the queue is unchanged otherwise |
| Admission.StuckAfterDiscardedPopupTrigger | Core/ScreenFlow.cs:96-100 | with a non-null handle for a finished coroutine, one popup trigger sent before any screen is shown leaves the flow transiting with no drain alive |
| Admission.StuckIsPermanent | Core/ScreenFlow.cs:96-107 | once stuck, no admission ever starts a drain again |
| Engine.ScreenFlow.DrainConsistent | Core/ScreenFlow.cs:32-34 | `IsTransiting` is the drain flag alone, because the screen and popup transition handles are only ever assigned null |
| Engine.ScreenFlow.CurrentScreenConfig | Core/ScreenFlow.cs:38-39 | the current screen is the last history entry, and there is none exactly when the history is empty |
| Engine.ScreenFlow.CurrentPopupConfig | Core/ScreenFlow.cs:43-44 | the foreground popup definition is the top of the definitions stack, and there is none exactly when the stack is empty |
| Engine.ScreenFlow.PendingPopupJoin | Core/ScreenFlow.cs:782-791 | a pending popup hide names the popup on top exactly when a hide handle is held and a popup is open |
| Engine.ScreenFlow.CurrentPopupInstance | Core/ScreenFlow.cs:46-47 | the foreground popup is the top of the instances stack, and there is none exactly when the stack is empty |
| Engine.ScreenFlow.SendTrigger | Core/ScreenFlow.cs:92-108 | the drain afterwards is the admission of a Trigger command for the entity, and the class invariant is kept |
| Engine.ScreenFlow.SendTriggerByName | Core/ScreenFlow.cs:83-90 | a registered name admits a Trigger for the entity registered under it; an unknown name changes nothing |
| Engine.ScreenFlow.MoveBack | Core/ScreenFlow.cs:129-144 | the drain afterwards is the admission of a MoveBack command |
| Engine.ScreenFlow.ClosePopup | Core/ScreenFlow.cs:154-169 | the drain afterwards is the admission of a ClosePopup command for the popup |
| Engine.ScreenFlow.CloseForegroundPopup | Core/ScreenFlow.cs:146-152 | with a popup open, a ClosePopup command for the foreground popup is admitted; with none, the drain is unchanged |
| Engine.ScreenFlow.ProcessBackKey | Core/ScreenFlow.cs:1006-1058 | the drain afterwards admits exactly the command `BackKey.Decide` picks, with default arguments; it is unchanged for NoAction |
| BackKey.Decide | Core/ScreenFlow.cs:1006-1058 | no screen means no action, and a popup is closed only when one is open |
| BackKey.DecideIsEffectiveAction | Core/ScreenFlow.cs:1011-1056 | both halves of the switch apply one table to the behaviour in force: the override, unless it is Inherit |
| BackKey.OverrideWins | Core/ScreenFlow.cs:1034-1056 | an override other than Inherit decides alone, whatever the definition says |
| BackKey.CloseFirstPopupFallsBack | Core/ScreenFlow.cs:1019-1031 | CloseFirstPopup closes the foreground popup when one is open and moves back otherwise |
| Engine.ScreenFlow.RecyclePopupCanvas | Core/ScreenFlow.cs:932-940 | a popup's pool canvas moves from the allocated map to the end of the idle list; a popup holding none changes nothing; the pool invariant is kept |
| Engine.ScreenFlow.AllocatePopupCanvas | Core/ScreenFlow.cs:914-930 | the last idle canvas is taken, or a new canvas is created when none is idle; the popup is mapped to it; the pool invariant is kept, so no canvas is lost or held twice |
| Engine.ScreenFlow.CalculatePopupCanvasSortOrder | Core/ScreenFlow.cs:986-1004 | the canvas orders afterwards are those `CanvasPool.AssignSortOrder` gives |
| CanvasPool.AssignSortOrder | Core/ScreenFlow.cs:986-1004 | only the new canvas's order changes; it is one above the main canvas when no popup is open, or one above the pool canvas of the popup on top |
| CanvasPool.PushKeepsStackAscending | Core/ScreenFlow.cs:986-1004 | when every open popup holds a pool canvas, opening one more on a new pool canvas keeps the canvases ascending above the main canvas, in opening order |
| CanvasPool.SortOrderSkippedForUnpooledTop | Core/ScreenFlow.cs:994-999 | when the popup on top holds no pool canvas, no order is assigned and the orders are unchanged |
| CanvasPool.PrefabInstanceShowsStaleOrder | Core/ScreenFlow.cs:738-763 | when the prefab asset's canvas is the one sorted, the instance's copy keeps the order the asset had before; with no popup open, that differs from the new order whenever the asset's old order was not one above the main canvas |
| Stacks.IndexOf | Core/ScreenFlow.cs:347 | the first index holding the popup, or -1 exactly when it is not open |
| Stacks.RemoveFirst | Core/ScreenFlow.cs:855-856 | removing by value shortens the list by one when the value is present, and changes nothing otherwise |
| Stacks.RemoveFirstAt | Core/ScreenFlow.cs:855-856 | removing by value removes the element at the first index holding it |
| Stacks.RemoveFirstMultiset | Core/ScreenFlow.cs:855-856 | removing by value takes exactly one copy out of the multiset of elements |
| Stacks.RemoveConfigOf | Core/ScreenFlow.cs:347-352 | closing a popup removes one definition exactly when the popup is open |
| Stacks.RemovePairKeepsAlignment | Core/ScreenFlow.cs:852-857 | when the pair at index k is each the first occurrence of its value, removing both by value removes index k from both stacks |
| Stacks.RemovePairKeepsAlignmentDistinct | Core/ScreenFlow.cs:852-857 | with distinct definitions and instances, every disposal keeps the stacks index-aligned |
| Stacks.AlignmentLostWithRepeatedConfig | Core/ScreenFlow.cs:855-856 | with one definition open twice, disposing the top pair by value leaves the first instance paired with the other definition |
| Engine.ScreenFlow.DisposePopupFromHide | Core/ScreenFlow.cs:852-877 | both stacks lose the first occurrence of the definition and of the view, each one element shorter; the popup's canvas is recycled; its close-request subscription is dropped; it is deactivated or destroyed, and its asset unloaded unless kept |
| TransitEvents.PopupDisposeEvents | Core/ScreenFlow.cs:859-876 | a disposal first deactivates a scene popup or destroys any other, calls no Show or Hide, and unloads the asset exactly when the popup is not in the scene and neither its definition nor the caller keeps the asset |
| TransitEvents.ScreenDisposeEvents | Core/ScreenFlow.cs:490-503 | a hidden screen is deactivated when it is in the scene and destroyed otherwise, and its asset is unloaded exactly when its definition does not keep it |
| Engine.ScreenFlow.RemoveFromStacks | Core/ScreenFlow.cs:855-856 | the first occurrence of the definition and of the view leave their stacks, which stay aligned in length |
| Engine.ScreenFlow.ReleasePopupView | Core/ScreenFlow.cs:858-876 | the close-request subscription is dropped, the popup deactivated or destroyed, and the asset unloaded exactly when `PopupUnloads` holds |
| Engine.ScreenFlow.DisposeAllPopups | Core/ScreenFlow.cs:841-845 | disposing every popup from the top down empties both stacks, calls no Show or Hide, and keeps the invariants |
| Engine.ScreenFlow.JoinPopupHide | Core/ScreenFlow.cs:782-794 | joining the pending popup hide runs the hide callback on the popup on top, disposes that popup when closing or when its definition destroys it, and clears the handle |
| Engine.ScreenFlow.JoinOrphanedPopupHide | Core/ScreenFlow.cs:782-791 | a pending popup hide joined with no popup open hands the callback a null popup, then reads a null definition: the drain halts |
| Engine.ScreenFlow.HideClosingPopup | Core/ScreenFlow.cs:365-381 | closing under Wait awaits the hide and disposes the popup; under Intersection the hide is started and its handle kept; the drain halts exactly when the awaited hide throws, and then the stacks and the handle are unchanged and the trace ends with the hide's start |
| Engine.ScreenFlow.ReshowBehind | Core/ScreenFlow.cs:383-403 | the popup behind is shown again when its definition hid it: awaited under Wait, started under Intersection with the handle returned; the drain halts exactly when that awaited show throws |
| Engine.ScreenFlow.CloseTopWaiting | Core/ScreenFlow.cs:363-425 | an awaited hide or reshow that throws halts the drain after `CloseTopHaltEvents`; otherwise, with no hide left over, the popup on top leaves both stacks and the trace gains exactly the close events |
| Engine.ScreenFlow.HideAndReshow | Core/ScreenFlow.cs:367-395 | under Wait, the closed popup is hidden and disposed, leaving both stacks, before the popup behind starts showing; it halts exactly when `CloseTopThrows` holds, with the stacks unchanged when the hide itself throws |
| Engine.ScreenFlow.JoinStalePopupHide | Core/ScreenFlow.cs:405-411 | a hide left over from an aborted transition is joined: it halts exactly when no popup is open, and clears the handle otherwise |
| Engine.ScreenFlow.CloseTopPopup | Core/ScreenFlow.cs:363-425 | an awaited hide or reshow that throws halts the drain after `CloseTopHaltEvents`; otherwise, under either policy and with no hide left over, the popup on top leaves both stacks and the trace gains exactly the close events; the invariants are kept |
| Engine.ScreenFlow.CloseTopIntersecting | Core/ScreenFlow.cs:363-425 | the popup on top leaves both stacks, the hide handle is cleared, and the trace gains exactly the close events |
| Engine.ScreenFlow.StartIntersectingClose | Core/ScreenFlow.cs:363-403 | under Intersection the closed popup's hide is started and its handle held, the popup behind starts showing again exactly when its definition hid it, nothing halts, and both stacks are left as they were until the join |
| Engine.ScreenFlow.CloseBelowPopup | Core/ScreenFlow.cs:419-425 | a popup below the top leaves both stacks at once, with only its hide callback, its disposal and the show callback |
| Engine.ScreenFlow.ClosePopupOp | Core/ScreenFlow.cs:344-429 | a null or absent popup changes nothing; closing the top popup halts when `ClosePopupThrows` holds (a typed view given a null argument under Wait); otherwise, with no hide left over, the popup leaves both stacks and the trace gains `ClosePopupEvents`; it halts only in those two cases |
| TransitEvents.ClosePopupOutcome | Core/ScreenFlow.cs:347-425 | closing a popup below the top calls no Show or Hide; closing the top one shows a popup again exactly when it is the one right behind and its definition is JustHide or HideAndDestroy |
| TransitEvents.CloseBelowIsQuiet | Core/ScreenFlow.cs:419-423 | closing a popup below the top calls no Show and no Hide |
| TransitEvents.CloseTopReshowsBehind | Core/ScreenFlow.cs:383-403 | closing the top popup starts a Show exactly for the popup behind it, with the close arguments, and only when that popup's definition hid it |
| TransitEvents.CloseTopDisposesAfterHide | Core/ScreenFlow.cs:363-411 | under either policy, the closed popup is disposed only after its hide is joined |
| TransitEvents.CloseTopWaitOrder | Core/ScreenFlow.cs:367-395 | under Wait, the popup behind starts showing only after the closed popup's hide has completed and the popup has been disposed |
| TransitEvents.CloseTopIntersectionOrder | Core/ScreenFlow.cs:376-417 | under Intersection, the popup behind starts showing before the hide is joined, and its show is joined only after the closed popup is disposed |
| Engine.ScreenFlow.HandlePopupsOnScreenTransit | Core/ScreenFlow.cs:818-850 | with no popup open, or PreserveAllOnHide, nothing changes; HideFirstThenTransit halts when the close of the foreground popup throws (`PopupsCloseThrows`); otherwise both stacks end empty; DestroyAllThenTransit calls no Show or Hide; HideFirstThenTransit closes the foreground popup first and then only disposes |
| Engine.ScreenFlow.StartScreenLoad | Core/ScreenFlow.cs:460-473 | the load starts exactly when the asset is not loaded, and the screen then leaves the preload queue |
| Engine.ScreenFlow.DisposeScreen | Core/ScreenFlow.cs:489-503 | a hidden screen is deactivated or destroyed, and its definition is marked unloaded exactly when it does not keep its asset |
| Engine.ScreenFlow.HideCurrentScreen | Core/ScreenFlow.cs:477-514 | under Wait, the current screen's hide is awaited, the hide callback runs and the screen is disposed, after which `currentScreenDestroyed` says whether its view was destroyed; under Intersection, the hide is started and its handle kept; the drain halts exactly when the awaited hide throws, or when the view was already destroyed, in which case it halts after the hide and its callback and before the disposal |
| TransitEvents.ScreenHideWaitFirst | Core/ScreenFlow.cs:482-506 | under Wait, the current screen's hide is awaited first, and the screen is disposed after it |
| Engine.ScreenFlow.AwaitScreenAsset | Core/ScreenFlow.cs:516-553 | the transit may go on exactly when the asset is usable; the core engine logs the failure and stops; the legacy engine halts; a load that was started never halts the core engine; an asset neither loaded nor being loaded is waited for forever |
| Engine.ScreenFlow.HideAndAwait | Core/ScreenFlow.cs:477-553 | the current screen's hide is awaited or started, then the asset awaited; the pending hide is the one the policy leaves; an awaited hide that throws, or a Wait hide of an already destroyed view, halts before the wait; re-triggering a Wait screen whose own hide unloads its asset halts; otherwise the flag records whether the hide destroyed the view |
| Engine.ScreenFlow.LeaveScreen | Core/ScreenFlow.cs:475-553 | the popup policy, then the screen hide and the asset wait; a close or hide that throws, or the disposal of a destroyed view (`LeaveScreenThrows`), halts; an unusable asset halts the legacy engine and is logged by the core; after it, the flag says whether the hide destroyed the current view |
| Engine.ScreenFlow.MaterializeScreen | Core/ScreenFlow.cs:555-565 | a scene screen is activated and any other is instantiated as a fresh view |
| Engine.ScreenFlow.JoinScreenHide | Core/ScreenFlow.cs:584-604 | the pending screen hide is joined, its hide callback run and the old screen disposed, and the handle cleared |
| Engine.ScreenFlow.ShowScreen | Core/ScreenFlow.cs:555-610 | the next screen's view is activated or instantiated and shown; the pending hide is joined with the hide callback and the disposal; the handle is cleared; the drain halts exactly when the awaited show throws, right after it starts |
| Engine.ScreenFlow.ShowThenJoin | Core/ScreenFlow.cs:567-610 | the show is started or awaited, the pending hide is joined with its callback and disposal (unloading the hidden screen's asset exactly when it does not keep it), the handle is cleared, and an Intersection show is joined last |
| Engine.ScreenFlow.ReparentPopups | Core/ScreenFlow.cs:623-626 | every open popup's parent screen becomes the new screen, and every other popup's parent is unchanged |
| Engine.ScreenFlow.EnterScreen | Core/ScreenFlow.cs:555-631 | the drain halts exactly when the awaited show throws, leaving the history and the current screen; otherwise the current screen becomes the new view (so no longer a destroyed one), the history is pushed or popped on a move back, every open popup is re-parented, and the trace gains the show events |
| Engine.ScreenFlow.CommitScreen | Core/ScreenFlow.cs:612-631 | the new view becomes the current screen and is no longer a destroyed one, the history is popped on a move back and pushed otherwise, every open popup gets the new screen as parent, and the trace gains the show callback, then the screen-change event in the core engine only |
| Engine.ScreenFlow.TransitFrom | Core/ScreenFlow.cs:475-631 | everything after the load has been started: a halt or an unusable asset leaves the history and the current screen; after an unusable asset the current screen is marked destroyed exactly when its Wait hide destroyed it; a throwing close, hide or show, or re-hiding a destroyed current screen, halts; success commits them, clears the mark, re-parents the popups and ends with the show events |
| Engine.ScreenFlow.ScreenTransitTo | Core/ScreenFlow.cs:457-631 | a halt or an unusable asset leaves the history and the current screen unchanged (an unusable asset halts the legacy engine), and the core engine then keeps a destroyed current screen marked as such; a throwing popup close, screen hide or awaited show halts, and so does a Wait hide of a current screen a failed transit destroyed; otherwise, with no hide left over, it does not halt; on success the history and current screen are committed, popups are re-parented, and the trace ends with the show events, including the pending hide's join |
| TransitEvents.ScreenShowOrder | Core/ScreenFlow.cs:567-610 | under Intersection the next screen starts showing before the old hide is joined, and the old screen is disposed before the new show is joined; under Wait the new show is joined before the old hide |
| TransitEvents.ScreenShowCallbackLast | Core/ScreenFlow.cs:606-629 | the show callback comes after the new screen's show and the pending hide have both been joined |
| Engine.ScreenFlow.HideTopWaiting | Core/ScreenFlow.cs:644-675 | the drain halts exactly when `TopHideThrows` holds, with the stacks unchanged and `TopHideHaltEvents` appended; otherwise a Wait popup on top goes to the background, or is hidden and disposed, exactly as `PopupHideEvents` says, and leaves the stacks exactly when `TopDisposed` holds |
| Engine.ScreenFlow.AwaitTopHide | Core/ScreenFlow.cs:644-675 | when the awaited hide completes: the popup on top goes through `PopupHideEvents` and leaves the stacks exactly when `TopDisposed` holds |
| Engine.ScreenFlow.HaltOnTopHide | Core/ScreenFlow.cs:644-675 | a throwing hide of the popup on top ends the drain after the background notifications and the hide's start |
| Engine.ScreenFlow.HideTopIntersecting | Core/ScreenFlow.cs:676-695 | an Intersection popup on top goes to the background and/or starts its hide, and the handle is kept exactly when the hide is deferred |
| TransitEvents.PopupWaitHideThenDispose | Core/ScreenFlow.cs:644-675 | under Wait, the hide phase ends with the disposal of the popup on top exactly when `TopDisposed` holds |
| TransitEvents.PopupHideKeepsReopenedAsset | Core/ScreenFlow.cs:659-671 | reopening the popup that is on top never unloads its asset while hiding it |
| TransitEvents.PopupHideDisposesAtOnce | Core/ScreenFlow.cs:642-697 | the hide phase disposes the popup on top at once exactly when it awaits the hide and the popup cannot stay; it leaves a hide running exactly when the policy defers it |
| TransitEvents.PopupOpenDisposesTop | Core/ScreenFlow.cs:642-794 | opening a popup over another removes the one on top exactly when `TopDisposed` holds, whether at once or when its deferred hide is joined |
| Engine.ScreenFlow.HideForegroundPopup | Core/ScreenFlow.cs:641-697 | the drain halts exactly when the awaited hide of the popup on top throws, with the stacks and the handle unchanged; otherwise the popup on top, if any, goes through `PopupHideEvents`; the stacks keep what `ConfigsKeptOnOpen`/`InstancesKeptOnOpen` say unless the hide is deferred, and the deferred hide's handle is kept |
| Engine.ScreenFlow.HideThenAwait | Core/ScreenFlow.cs:641-724 | it halts exactly when the hide phase throws or the legacy engine meets an unusable asset; unless the hide throws, the asset is loaded, and the pending hide and the stacks it will leave are those of `PendingPopupHide` and the kept stacks |
| Engine.ScreenFlow.HideTopForOpen | Core/ScreenFlow.cs:641-697 | the hide phase halts exactly when the awaited hide of the popup on top throws and never touches the new popup's load; with no hide left over, the hide it leaves is the one `PendingPopupHide` names and joining it leaves the kept stacks |
| TransitEvents.HiddenTopJoinsAsKept | Core/ScreenFlow.cs:785-797 | after the hide phase, the hide held belongs to the popup still on top, and joining it (disposing that popup only when its definition is HideAndDestroy) leaves exactly the stacks `ConfigsKeptOnOpen`/`InstancesKeptOnOpen` describe |
| Engine.ScreenFlow.AwaitPopupAsset | Core/ScreenFlow.cs:699-724 | the popup's load is joined when started; the transit may go on exactly when the asset holds a popup view; the legacy engine halts otherwise |
| Engine.ScreenFlow.MaterializePopup | Core/ScreenFlow.cs:726-758 | a scene popup is activated and the flow's canvas is picked; a prefab without a canvas is instantiated on a pool canvas, taken from the idle list or created; for a prefab with a canvas, the asset's canvas is picked, and the instance's copy takes the asset canvas's current order; it halts exactly when a pool canvas is needed and none can be created; the pool invariant is kept |
| Engine.ScreenFlow.PlacePopup | Core/ScreenFlow.cs:726-763 | the popup is materialised and parented to the current screen, and the canvas picked for it gets the order `AssignSortOrder` gives; for a prefab with a canvas, that canvas is the asset's, and the instance's copy ends with the asset's previous order; it halts exactly when a pool canvas is needed and none can be created |
| Engine.ScreenFlow.JoinPendingPopupHide | Core/ScreenFlow.cs:782-794 | the pending hide of the popup on top is joined; the popup leaves both stacks when its definition destroys it; it halts exactly when the pending hide has no popup left |
| Engine.ScreenFlow.StartPopupShow | Core/ScreenFlow.cs:765-794 | the new popup's show is awaited or started, then the pending hide is joined; it halts exactly when the awaited show throws (before the join, stacks unchanged) or the pending hide has no popup left |
| Engine.ScreenFlow.ShowAndPushPopup | Core/ScreenFlow.cs:765-810 | it halts exactly when the awaited show throws or the pending hide has no popup left; otherwise the show and the pending join, then the push: the new popup ends on top of the stacks the join leaves, subscribed to, with `PopupShowEvents` appended |
| Engine.ScreenFlow.PushPopup | Core/ScreenFlow.cs:796-810 | the Intersection show is joined, the popup is listened to, one element is pushed on each stack, and the show callback and open event follow |
| Engine.ScreenFlow.EnterPopup | Core/ScreenFlow.cs:726-811 | it halts exactly when no pool canvas can be had, the awaited show throws, or the pending hide has no popup left; otherwise the new popup is parented to the current screen and shown, the pending hide is joined, and the popup ends on top of both stacks |
| TransitEvents.PopupShowOrder | Core/ScreenFlow.cs:765-809 | an Intersection popup starts showing before the pending hide is joined and finishes after it; a Wait popup is fully shown first; the show callback comes after the show |
| Engine.ScreenFlow.PopupTransitFrom | Core/ScreenFlow.cs:641-811 | everything after the load has been started, with the same outcome as `PopupTransitTo`, throwing hides and shows included |
| Engine.ScreenFlow.PopupTransitTo | Core/ScreenFlow.cs:633-811 | a throwing awaited hide of the popup on top, or a throwing awaited show of a usable popup, halts; an unusable asset halts the legacy engine and is logged by the core; with no hide left over and neither throwing, it does not halt; on success the popup and its view end on top, parented to the current screen; with no hide left over, the stacks are those the hide phase keeps plus the new popup, and the trace ends with the show events |
| Engine.ScreenFlow.MoveBackOp | Core/ScreenFlow.cs:331-342 | without `CanMoveBack` (two history entries, leaving allowed from the current screen, returning allowed to the one below) nothing at all changes; a halt leaves the history and the current screen; a close, hide or show that throws on `args ?? previous args`, or re-hiding a current screen a failed transit destroyed, halts; on success the last history entry is popped, the screen below becomes current with those arguments, and the trace ends with its show events |
| Engine.ScreenFlow.RunCommand | Core/ScreenFlow.cs:295-325 | a command that does not yield changes nothing; a screen Trigger that succeeds makes that screen current; a popup Trigger that succeeds puts the popup on top and leaves the history alone; MoveBack changes nothing without `CanMoveBack`, halts when a close, hide or show throws or the current screen is already destroyed, and otherwise pops the history to the screen below; ClosePopup of a null or absent popup changes nothing, halts when `ClosePopupThrows` holds, and otherwise removes the popup and appends `ClosePopupEvents` |
| Engine.ScreenFlow.RunTrigger | Core/ScreenFlow.cs:297-312 | a screen Trigger that succeeds makes that screen current; a popup Trigger runs only over a current screen that allows popups and, when it succeeds, puts the popup on top and leaves the history alone; a Trigger that does not yield changes nothing |
| Engine.ScreenFlow.ProcessCommandQueue | Core/ScreenFlow.cs:288-329 | the queue is consumed from its head; a drain that does not halt empties it and releases the flag; a halted one leaves a proper suffix of the queue and the flag set |
| Registry.Registrations | Core/ScreenFlow.cs:229-278 | Initialize offers every configured screen, configured popup, scene screen and scene popup, in that order |
| Registry.RegisterAppend | Core/ScreenFlow.cs:229-278 | registering the four batches one after another is registering their concatenation |
| Registry.RegisterKeepsExisting | Core/ScreenFlow.cs:232-239 | a name already present keeps its entity |
| Registry.RegisterKeys | Core/ScreenFlow.cs:229-278 | exactly the names offered end up registered |
| Registry.RegisterFirstWins | Core/ScreenFlow.cs:232-239 | the first entity offered under a name is the one the lookup holds for it |
| Registry.SceneAssetSetOnlyWhenRegistered | Core/ScreenFlow.cs:254-278 | a scene view is set as the asset only of the entity the lookup ends up holding under that name |
| Registry.DuplicateOnlyForRegisteredName | Core/ScreenFlow.cs:236-239 | a duplicate is reported only under a name the lookup holds |
| Engine.ScreenFlow.RegisterOne | Core/ScreenFlow.cs:232-239 | a name is added only when absent, and the log gains the entry for a registration or a duplicate |
| Engine.ScreenFlow.RegisterAll | Core/ScreenFlow.cs:229-278 | the lookup and the log after the registration loops are `Registry.Register` and `Registry.RegistrationLog` of the registrations |
| Preloading.PreloadScreens | Core/ScreenFlow.cs:435-438 | the queued screens are exactly the configured screens that ask to be preloaded |
| Preloading.PreloadPopups | Core/ScreenFlow.cs:440-443 | the queued popups are exactly the configured popups that ask to be preloaded |
| Preloading.PreloadCandidates | Core/ScreenFlow.cs:431-446 | the preload queue holds exactly the definitions that ask to be preloaded, screens before popups |
| Preloading.PreloadScreensHead | Core/ScreenFlow.cs:435-438 | the first screen asking to be preloaded heads the queue |
| Preloading.PreloadScreensAppend | Core/ScreenFlow.cs:435-438 | the screen filter of a concatenation is the concatenation of the filters, so configuration order is kept |
| Preloading.PreloadScreensSingle | Core/ScreenFlow.cs:435-438 | one screen is queued exactly when it asks to be preloaded |
| Preloading.PreloadPopupsAppend | Core/ScreenFlow.cs:440-443 | the popup filter of a concatenation is the concatenation of the filters |
| Preloading.PreloadPopupsSingle | Core/ScreenFlow.cs:440-443 | one popup is queued exactly when it asks to be preloaded |
| Preloading.PreloadScreensCount | Core/ScreenFlow.cs:435-438 | a screen asking to be preloaded is queued once per configured occurrence, and others never |
| Preloading.PreloadPopupsCount | Core/ScreenFlow.cs:440-443 | a popup asking to be preloaded is queued once per configured occurrence, and others never |
| Preloading.PreloadScreensOrder | Core/ScreenFlow.cs:435-438 | two screens asking to be preloaded are queued in their configuration order |
| Preloading.PreloadCandidatesKeepsConfiguration | Core/ScreenFlow.cs:431-446 | the full preload queue keeps each definition's configured multiplicity and the configuration order of the screens |
| Engine.ScreenFlow.Preload | ScreenFlow.cs:402-409 | the preload queue is rebuilt from the configuration and preloading is under way |
| Engine.ScreenFlow.TriggerStartThenPreload | Core/ScreenFlow.cs:280-285 | the start screen's trigger is admitted when there is one, then preloading starts |
| Engine.ScreenFlow.Initialize | Core/ScreenFlow.cs:221-286 | without a configuration only the error is logged; otherwise the lookup is rebuilt from the registrations, the start trigger admitted and preloading started |
| Engine.ScreenFlow.InitializeLegacy | ScreenFlow.cs:188-194 | the legacy order: registration, then the preload queue is rebuilt, then the start trigger is admitted; the lookup, the log, the rebuilt queue and the admitted trigger are stated |
| Engine.ScreenFlow.PreloadThenTriggerStart | ScreenFlow.cs:189-194 | the preload queue is rebuilt and preloading started, then the start trigger is admitted |
| Engine.ScreenFlow.SendStartTrigger | Core/ScreenFlow.cs:280-283 | the start screen's trigger is admitted when there is a start screen, and the drain is unchanged otherwise |
| Engine.ScreenFlow.RegisterEntities | Core/ScreenFlow.cs:229-278 | the lookup and the log are those of registering the configured and in-scene entities in order, starting from an empty lookup |
| Engine.ScreenFlow.InitializeConfigured | Core/ScreenFlow.cs:229-285 | with a configuration: the entities are registered, the start trigger admitted and the preload queue built |
| Engine.ScreenFlow.Start | ScreenFlow.cs:178-195 | the legacy engine always initialises, logging a missing configuration; the core engine initialises only when asked to on start |
| PopupViews.PopupView.SetParentScreen | Popup/PopupBaseT.cs:14-19 | the `ParentScreen` getter returns the value assigned last |
| PopupViews.PopupView.AddCloseRequestHandler | Popup/PopupBaseT.cs:21-26 | subscribing appends the handler to the delegate's invocation list |
| PopupViews.PopupView.RemoveCloseRequestHandler | Popup/PopupBaseT.cs:21-26 | unsubscribing removes exactly one subscription of the handler, the last one, and changes nothing for a handler not subscribed |
| PopupViews.RemoveLastMultiset | Popup/PopupBaseT.cs:25 | removing a handler takes exactly one subscription of it away |
| PopupViews.AddThenRemoveRestores | Popup/PopupBaseT.cs:21-26 | subscribing then unsubscribing the same handler restores the delegate |
| PopupViews.PopupView.GoToBackground | Popup/PopupBaseT.cs:33-54 | the view records what `GoToBackgroundSignals` says for the argument |
| PopupViews.GoToBackgroundDispatch | Popup/PopupBaseT.cs:33-57 | the typed callback runs exactly for an argument of the hide type; the gone-to-background notifications are raised exactly for such an argument or null, after the callback, untyped first; a wrong type only logs |
| PopupViews.PopupView.ClosePopup | Popup/PopupBaseT.cs:59-63 | every close-request subscription is invoked in order, then the typed notification is raised |
| PopupViews.CloseRequestSignals | Popup/PopupBaseT.cs:61 | invoking the delegate calls each handler once, in subscription order |
| PopupViews.ClosePopupOrder | Popup/PopupBaseT.cs:59-63 | the typed notification comes last, and a handler is called exactly when it is subscribed |
| ScreenViews.DispatchOf | Screen/ScreenBaseT.cs:14-36 | the typed call runs exactly for an argument of the declared type; a null argument reaches the log message, whose `GetType()` call fails |
| ScreenViews.ScreenView.Show | Screen/ScreenBaseT.cs:14-24 | the typed Show runs, the mismatch is logged, or a null argument fails, as `DispatchOf` says |
| ScreenViews.ScreenView.Hide | Screen/ScreenBaseT.cs:26-36 | the typed Hide runs, the mismatch is logged, or a null argument fails, as `DispatchOf` says |
| ScreenViews.ScreenView.RequestHide | Screen/ScreenBaseT.cs:38-45 | the request notifications, the hide, then the completed notifications, base first each time; it stops after the hide when the hide fails |
| ScreenViews.RequestHideOrder | Screen/ScreenBaseT.cs:38-45 | a typed hide runs exactly for an argument of the hide type, between the request and the completed notifications |
| ScreenViews.RequestHideNullArgs | Screen/ScreenBaseT.cs:28-45 | a null argument never reaches the typed hide, and the completed notifications are never raised |
| ScreenViews.RequestHideMismatch | Screen/ScreenBaseT.cs:28-45 | an argument of the wrong type still completes the request, without the typed hide |
| ScreenViews.ScreenView.OnDestroy | Screen/ScreenBaseT.cs:47-51 | the base destroyed notification comes before the typed one |
| TransitEvents.ThrowsExactlyOnNull | Screen/ScreenBaseT.cs:14-36 | a typed view's Show and Hide fail exactly on a null argument; a view taking any argument never fails |
| TransitEvents.SelfCloseWithNullThrows | Popup/PopupBaseT.cs:59-63 | a typed Wait popup on top that closes itself, which reaches `ClosePopup` with a null argument, makes the close throw; an object argument never does when the popup behind is a view |

## Left out

- Unity plumbing has no logic of its own and appears only as trace events, so it is not modelled. This covers instantiation, reparenting and `RectTransform` copying, activation, `Destroy`, `DontDestroyOnLoad`, canvas creation and its settings copy, and canvas naming.
- The asset loader library is not part of this model. A definition's loader is a value saying whether the asset is in the scene, kept after load, preloaded, and what it holds. A load is a trace event. A started load is marked loaded when joined, even when it produced nothing.
- The preload coroutine's loads, `IsLoading`, and the core engine clearing `preloadRoutine` when preloading ends are left out. Only the queue, its removal in `ScreenTransitTo`, and "preloading started" are modelled.
- Coroutines run atomically. The drain runs to completion right after admission (`ProcessCommandQueue`). Interleavings are left out: a command admitted while a transit waits, the preload coroutine running beside a transit, and callbacks that call back into the flow.
- Input polling (`Update`, `Input.GetKeyDown`) is left out, and `ProcessBackKey` is the entry point. The back-key override is the one the current screen's asset carries.
- The `SetAsSceneAsset` call is an event. The scene definitions' loader values are not rewritten.
- The typed `SendTriggerT` wrapper and the `as T` casts of the callbacks are left out.
- The four registration loops of `Initialize` are one loop over the concatenation of their inputs, and `Registry.RegisterAppend` connects the two.
- Admission does not run the synchronous part of a drain's first command. The model runs a command only when `ProcessCommandQueue` takes it. In the source, `StartCoroutine` runs the first command up to its first `yield` inside `SendTrigger`. For a screen trigger, that part takes the screen off the preload queue and starts its load.
  - The two engines' start orders therefore differ in the source. The core engine sends the start trigger before `Preload` rebuilds the queue, so the start screen stays queued. The legacy engine rebuilds the queue first, and the trigger then takes the start screen off it.
  - In the model both engines remove the start screen when the drain runs its transit. That matches the legacy engine, not the core one.
- Definitions are values compared by value, while the source compares ScriptableObject references. Two distinct definitions with equal fields are therefore one definition in the model. They share loaded state (`loadedScreens`, `loadedPopups`). `List.Remove` on the definitions stack cannot tell them apart. They count as "the popup being reopened", which keeps the popup on top from unloading its asset.
- Engine.ScreenFlow.ScreenTransitTo: the popup policy applied on the way is stated by `HandlePopupsOnScreenTransit`, not repeated here. The trace is stated only as ending with the show events.
- Engine.ScreenFlow.PopupTransitTo: with a hide left over from an aborted transition, only the invariants, the top of the stacks and the halting condition are stated. It does not promise the popup's asset stays loaded: the join of the deferred hide can unload it when the popup on top shares the definition.
- Engine.ScreenFlow.ClosePopupOp: with a hide left over from an aborted transition, only the invariants and "halts only then" are stated.
- Engine.ScreenFlow.HandlePopupsOnScreenTransit: the disposals after the first close are stated as calling no Show or Hide, not event by event.
- Engine.ScreenFlow.DisposeAllPopups: the trace is stated as calling no Show or Hide, not event by event.
- Engine.ScreenFlow.AllocatePopupCanvas: requires a popup that holds no canvas yet. The `Dictionary.Add` exception for one that does cannot arise, because only freshly instantiated popups are passed.
- Engine.ScreenFlow.ProcessCommandQueue: states the queue, the drain flag and the invariants. What each command does is stated by `RunCommand`, whose MoveBack and ClosePopup clauses state the outcome, the halting cases and the no-op cases; the full show trace of a move back is stated by `MoveBackOp`.
- A failed transit keeps what it did before giving up. A failed screen transit leaves any Intersection hide handle it started, which a later transit joins. A Wait or NoAnimation hide that destroyed the current screen leaves that destroyed view current; the model marks it (`currentScreenDestroyed`) and the next screen transit or move back halts when it disposes the view again. The popup transit and the back key only assign or read plain properties of that view, which Unity allows, so they go on.
- Logging is a trace event carrying the reason. Message texts are left out.
- A Show or Hide started under Intersection that throws is taken to end only the coroutine it runs in; joining its handle later returns. Only awaited calls that throw halt the drain. `CloseTopIntersecting` and `HideTopIntersecting` therefore never halt.
