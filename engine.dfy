/**
 * The ScreenFlow orchestrator: one object that owns the screen history,
 * the popup stacks, the popup canvas pool and the command queue, and that
 * serialises every navigation request through one drain coroutine.
 *
 * `legacy` selects the older engine (the root ScreenFlow): it calls a bare
 * Hide instead of RequestHide, enqueues by default only when asked, does
 * not check the loaded asset before using it (a missing or unfit view is a
 * null dereference there) and raises no change events.
 *
 * The coroutines run atomically (see the Trace module). A coroutine that
 * would throw or wait forever sets `halted`: the drain coroutine is gone
 * while `transitionRoutine` still holds its handle, so the flow keeps
 * reporting that it is transiting and nothing drains the queue again.
 */
module Engine {
  import opened Wrappers
  import opened UIEntities
  import opened Trace
  import opened Stacks
  import opened TransitEvents
  import Admission
  import Registry
  import CanvasPool
  import BackKey
  import Preloading

  /** The override a screen's view carries; Inherit when it has none. */
  function ViewOverride(cfg: ScreenConfig): BackKeyBehaviourOverride {
    if cfg.loader.asset.ViewAsset? then cfg.loader.asset.backKeyOverride else Inherit
  }

  function TriggerCommand(entity: Option<Entity>, args: Arg, onShow: Option<Callback>, onHide: Option<Callback>): ScreenFlowCommand {
    ScreenFlowCommand(Trigger, if entity.Some? then EntityTarget(entity.value) else NoTarget, args, onShow, onHide)
  }

  function MoveBackCommand(args: Arg, onShow: Option<Callback>, onHide: Option<Callback>): ScreenFlowCommand {
    ScreenFlowCommand(MoveBack, NoTarget, args, onShow, onHide)
  }

  function ClosePopupCommand(popup: Option<ViewId>, args: Arg, onShow: Option<Callback>, onHide: Option<Callback>): ScreenFlowCommand {
    ScreenFlowCommand(ClosePopup, if popup.Some? then PopupTarget(popup.value) else NoTarget, args, onShow, onHide)
  }

  /** The popup view a ClosePopup command names, if it names one. */
  function ClosedView(target: Target): (v: Option<ViewId>)
    ensures v.Some? <==> target.PopupTarget?
    ensures v.Some? ==> v.value == target.view
  {
    if target.PopupTarget? then Some(target.view) else None
  }

  /** MoveBackOp moves back only when there is a screen below the current
      one, the current screen allows leaving it that way and the screen
      below allows being returned to. */
  predicate CanMoveBack(history: seq<EntityArgPair>) {
    |history| > 1 && history[|history| - 1].entity.canMoveBackFromHere && history[|history| - 2].entity.canMoveBackToHere
  }

  /** The arguments of a move back: the ones given, or else the ones the
      screen below was shown with. */
  function MoveBackArgs(history: seq<EntityArgPair>, args: Arg): Arg
    requires |history| > 1
  {
    if args.Null? then history[|history| - 2].args else args
  }

  /** The canvas pool: a canvas is either held by one live popup or
      waiting in the pool, never both, no canvas is held twice, and every
      canvas of the pool was created by it. */
  ghost predicate PoolInvariant(held: map<ViewId, CanvasId>, available: seq<CanvasId>, nextCanvas: nat, nextSpawn: nat) {
    && Distinct(available)
    && (forall v :: v in held ==> held[v] !in available)
    && (forall v, w :: v in held && w in held && v != w ==> held[v] != held[w])
    && (forall v :: v in held ==> held[v].PoolCanvas? && held[v].c < nextCanvas)
    && (forall i :: 0 <= i < |available| ==> available[i].PoolCanvas? && available[i].c < nextCanvas)
    && (forall v :: v in held ==> v.Spawned? && v.k < nextSpawn)
  }

  /** The two popup stacks stay aligned in length, popups only sit above a
      screen, and a shown screen has a view. */
  ghost predicate StacksInvariant(configs: seq<PopupConfig>, instances: seq<ViewId>, history: seq<EntityArgPair>,
                                  screen: Option<ViewId>, hideScreenHandle: Option<Anim>) {
    && |configs| == |instances|
    && (|instances| > 0 ==> |history| > 0)
    && (|history| > 0 ==> screen.Some?)
    && (hideScreenHandle.Some? ==> |history| > 0)
  }

  class ScreenFlow {
    const legacy: bool
    /** Whether StartCoroutine hands back a handle for a coroutine that
        finished within the call (an engine property, kept open). */
    const finishedCoroutineHandle: bool
    const config: Option<FlowConfig>
    const startScreen: Option<ScreenConfig>
    const screensInScene: seq<(ScreenConfig, ViewId)>
    const popupsInScene: seq<(PopupConfig, ViewId)>
    const autoInitializeOnStart: bool

    var commandQueue: seq<ScreenFlowCommand>
    var transitionRoutine: bool
    var screenTransitionRoutine: bool
    var popupTransitionRoutine: bool
    var preloadRoutine: bool
    var preloadQueue: seq<Entity>
    var lookup: map<Name, Entity>
    var history: seq<EntityArgPair>
    var currentScreenInstance: Option<ViewId>
    var popupConfigs: seq<PopupConfig>
    var popupInstances: seq<ViewId>
    var allocatedCanvas: map<ViewId, CanvasId>
    var availableCanvas: seq<CanvasId>
    var canvasOrder: map<CanvasId, int>
    var parentScreen: map<ViewId, Option<ViewId>>
    /** The popups whose close request the flow listens to, with multiplicity. */
    var closeSubscriptions: multiset<ViewId>
    /** The screen and popup definitions whose asset is loaded. */
    var loadedScreens: set<ScreenConfig>
    var loadedPopups: set<PopupConfig>
    /** The hide started for the current screen or for the popup on top
        under the Intersection policy, until it is joined. */
    var hideScreenHandle: Option<Anim>
    var hidePopupHandle: Option<Anim>
    var halted: bool
    /** The current screen's view has been destroyed: a Wait or NoAnimation
        hide disposed it and the transition then gave up on the next
        screen's asset, so the history and `currentScreenInstance` still
        name it. */
    var currentScreenDestroyed: bool
    var nextSpawn: nat
    var nextCanvas: nat
    var trace: seq<Event>

    ghost predicate PoolValid()
      reads this`allocatedCanvas, this`availableCanvas, this`nextCanvas, this`nextSpawn
    {
      PoolInvariant(allocatedCanvas, availableCanvas, nextCanvas, nextSpawn)
    }

    ghost predicate StacksValid()
      reads this`popupConfigs, this`popupInstances, this`history, this`currentScreenInstance, this`hideScreenHandle
    {
      StacksInvariant(popupConfigs, popupInstances, history, currentScreenInstance, hideScreenHandle)
    }

    /** Between two steps of the flow no screen or popup coroutine is
        alive, and while no drain handle is held the queue is empty and the
        flow has not halted. */
    ghost predicate DrainValid()
      reads this`commandQueue, this`transitionRoutine, this`halted,
            this`screenTransitionRoutine, this`popupTransitionRoutine
    {
      && !screenTransitionRoutine && !popupTransitionRoutine
      && (!transitionRoutine ==> commandQueue == [] && !halted)
    }

    /** Only a Wait or NoAnimation hide destroys the current screen, and
        only one that is not in the scene; the definition stays current
        until a transition succeeds. */
    ghost predicate ScreenValid()
      reads this`history, this`currentScreenDestroyed
    {
      currentScreenDestroyed ==> DestroyedByHide(if |history| > 0 then Some(history[|history| - 1].entity) else None)
    }

    ghost predicate Valid()
      reads this`allocatedCanvas, this`availableCanvas, this`nextCanvas, this`nextSpawn,
            this`popupConfigs, this`popupInstances, this`history, this`currentScreenInstance, this`hideScreenHandle,
            this`commandQueue, this`transitionRoutine, this`halted,
            this`screenTransitionRoutine, this`popupTransitionRoutine, this`currentScreenDestroyed
    {
      StacksValid() && DrainValid() && PoolValid() && ScreenValid()
    }

    constructor(legacy: bool, finishedCoroutineHandle: bool, config: Option<FlowConfig>, startScreen: Option<ScreenConfig>,
                screensInScene: seq<(ScreenConfig, ViewId)>, popupsInScene: seq<(PopupConfig, ViewId)>,
                autoInitializeOnStart: bool, mainCanvasOrder: int)
      ensures Valid()
      ensures this.legacy == legacy && this.finishedCoroutineHandle == finishedCoroutineHandle
      ensures this.config == config && this.startScreen == startScreen
      ensures this.screensInScene == screensInScene && this.popupsInScene == popupsInScene
      ensures this.autoInitializeOnStart == autoInitializeOnStart
      ensures !IsTransiting() && !IsPreloading() && history == [] && popupInstances == [] && lookup == map[]
      ensures canvasOrder == map[MainCanvas := mainCanvasOrder] && trace == []
    {
      this.legacy := legacy;
      this.finishedCoroutineHandle := finishedCoroutineHandle;
      this.config := config;
      this.startScreen := startScreen;
      this.screensInScene := screensInScene;
      this.popupsInScene := popupsInScene;
      this.autoInitializeOnStart := autoInitializeOnStart;
      commandQueue := [];
      transitionRoutine := false;
      screenTransitionRoutine := false;
      popupTransitionRoutine := false;
      preloadRoutine := false;
      preloadQueue := [];
      lookup := map[];
      history := [];
      currentScreenInstance := None;
      popupConfigs := [];
      popupInstances := [];
      allocatedCanvas := map[];
      availableCanvas := [];
      canvasOrder := map[MainCanvas := mainCanvasOrder];
      parentScreen := map[];
      closeSubscriptions := multiset{};
      loadedScreens := {};
      loadedPopups := {};
      hideScreenHandle := None;
      hidePopupHandle := None;
      halted := false;
      currentScreenDestroyed := false;
      nextSpawn := 0;
      nextCanvas := 0;
      trace := [];
    }

    function IsTransiting(): bool
      reads this`screenTransitionRoutine, this`popupTransitionRoutine, this`transitionRoutine
    {
      screenTransitionRoutine || popupTransitionRoutine || transitionRoutine
    }

    function IsPreloading(): bool
      reads this`preloadRoutine
    {
      preloadRoutine
    }

    /** The definition of the screen on top of the history. */
    function CurrentScreenConfig(): (r: Option<ScreenConfig>)
      reads this`history
      ensures r.Some? <==> |history| > 0
      ensures r.Some? ==> r.value == history[|history| - 1].entity
    {
      if |history| > 0 then Some(history[|history| - 1].entity) else None
    }

    /** The definition of the popup in the foreground. */
    function CurrentPopupConfig(): (r: Option<PopupConfig>)
      reads this`popupConfigs
      ensures r.Some? <==> |popupConfigs| > 0
      ensures r.Some? ==> r.value == popupConfigs[|popupConfigs| - 1]
    {
      if |popupConfigs| > 0 then Some(popupConfigs[|popupConfigs| - 1]) else None
    }

    /** The popup in the foreground. */
    function CurrentPopupInstance(): (r: Option<ViewId>)
      reads this`popupInstances
      ensures r.Some? <==> |popupInstances| > 0
      ensures r.Some? ==> r.value == popupInstances[|popupInstances| - 1]
    {
      if |popupInstances| > 0 then Some(popupInstances[|popupInstances| - 1]) else None
    }

    function PopupStackCount(): nat
      reads this`popupInstances
    {
      |popupInstances|
    }

    /** The popup hide a popup transit joins after the new popup's show:
        the hide handle held, with the popup then on top. */
    function PendingPopupJoin(): (r: Option<(Anim, PopupConfig, ViewId)>)
      reads this`hidePopupHandle, this`popupConfigs, this`popupInstances
      requires |popupConfigs| == |popupInstances|
      ensures r.Some? <==> hidePopupHandle.Some? && popupInstances != []
      ensures r.Some? ==> r.value == (hidePopupHandle.value, popupConfigs[|popupConfigs| - 1], popupInstances[|popupInstances| - 1])
    {
      if hidePopupHandle.Some? && popupInstances != [] then
        Some((hidePopupHandle.value, popupConfigs[|popupConfigs| - 1], popupInstances[|popupInstances| - 1]))
      else None
    }

    /** The drain as admission sees it. */
    function DrainState(): Admission.Drain
      reads this`commandQueue, this`transitionRoutine, this`halted
    {
      Admission.Drain(commandQueue, transitionRoutine, transitionRoutine && !halted)
    }

    /** The drain flag tells the truth as long as the flow has not halted. */
    lemma DrainConsistent()
      requires Valid() && !halted
      ensures Admission.Consistent(DrainState())
      ensures IsTransiting() == transitionRoutine
    {
    }

    /** The shape every admission shares: append and start the drain when
        not transiting; append only when `enqueue` otherwise. */
    method Admit(cmd: ScreenFlowCommand, enqueue: bool)
      requires Valid()
      modifies this`commandQueue, this`transitionRoutine, this`halted
      ensures Valid()
      ensures DrainState() == Admission.Admit(old(DrainState()), cmd, enqueue, old(CurrentScreenConfig()), finishedCoroutineHandle)
    {
      if !transitionRoutine {
        var rest := Admission.SkipDiscarded(commandQueue + [cmd], CurrentScreenConfig());
        commandQueue := rest;
        if rest == [] {
          transitionRoutine := finishedCoroutineHandle;
          halted := finishedCoroutineHandle;
        } else {
          transitionRoutine := true;
        }
      } else if enqueue {
        commandQueue := commandQueue + [cmd];
      }
    }

    /** `SendTrigger(uiEntity, …)`; `None` is a null object, which the
        drain discards. */
    method SendTrigger(uiEntity: Option<Entity>, args: Arg := Null, enqueue: bool := !legacy,
                       onShow: Option<Callback> := None, onHide: Option<Callback> := None)
      requires Valid()
      modifies this`commandQueue, this`transitionRoutine, this`halted
      ensures Valid()
      ensures DrainState() == Admission.Admit(old(DrainState()), TriggerCommand(uiEntity, args, onShow, onHide), enqueue,
                                              old(CurrentScreenConfig()), finishedCoroutineHandle)
    {
      Admit(TriggerCommand(uiEntity, args, onShow, onHide), enqueue);
    }

    /** `SendTrigger(name, …)`: an unknown name is ignored. */
    method SendTriggerByName(name: Name, args: Arg := Null, enqueue: bool := !legacy,
                             onShow: Option<Callback> := None, onHide: Option<Callback> := None)
      requires Valid()
      modifies this`commandQueue, this`transitionRoutine, this`halted
      ensures Valid()
      ensures name in lookup ==>
        DrainState() == Admission.Admit(old(DrainState()), TriggerCommand(Some(lookup[name]), args, onShow, onHide), enqueue,
                                        old(CurrentScreenConfig()), finishedCoroutineHandle)
      ensures name !in lookup ==> unchanged(this)
    {
      if name in lookup {
        SendTrigger(Some(lookup[name]), args, enqueue, onShow, onHide);
      }
    }

    method MoveBack(args: Arg := Null, enqueue: bool := !legacy,
                    onShow: Option<Callback> := None, onHide: Option<Callback> := None)
      requires Valid()
      modifies this`commandQueue, this`transitionRoutine, this`halted
      ensures Valid()
      ensures DrainState() == Admission.Admit(old(DrainState()), MoveBackCommand(args, onShow, onHide), enqueue,
                                              old(CurrentScreenConfig()), finishedCoroutineHandle)
    {
      Admit(MoveBackCommand(args, onShow, onHide), enqueue);
    }

    method ClosePopup(popup: Option<ViewId>, args: Arg := Null, enqueue: bool := !legacy,
                      onShow: Option<Callback> := None, onHide: Option<Callback> := None)
      requires Valid()
      modifies this`commandQueue, this`transitionRoutine, this`halted
      ensures Valid()
      ensures DrainState() == Admission.Admit(old(DrainState()), ClosePopupCommand(popup, args, onShow, onHide), enqueue,
                                              old(CurrentScreenConfig()), finishedCoroutineHandle)
    {
      Admit(ClosePopupCommand(popup, args, onShow, onHide), enqueue);
    }

    /** Closes the popup in the foreground; nothing when no popup is open. */
    method CloseForegroundPopup(args: Arg := Null, enqueue: bool := !legacy,
                                onShow: Option<Callback> := None, onHide: Option<Callback> := None)
      requires Valid()
      modifies this`commandQueue, this`transitionRoutine, this`halted
      ensures Valid()
      ensures if old(popupInstances) != [] then
          DrainState() == Admission.Admit(old(DrainState()), ClosePopupCommand(old(CurrentPopupInstance()), args, onShow, onHide),
                                          enqueue, old(CurrentScreenConfig()), finishedCoroutineHandle)
        else
          commandQueue == old(commandQueue) && transitionRoutine == old(transitionRoutine) && halted == old(halted)
    {
      if popupInstances != [] {
        ClosePopup(CurrentPopupInstance(), args, enqueue, onShow, onHide);
      }
    }

    /** A press of the back key: the action BackKey.Decide picks from the
        current screen's definition and its view's override, issued with
        default arguments. */
    method ProcessBackKey()
      requires Valid()
      modifies this`commandQueue, this`transitionRoutine, this`halted
      ensures Valid()
      ensures var current := old(CurrentScreenConfig());
        var action := BackKey.Decide(current, if current.Some? then ViewOverride(current.value) else Inherit, old(popupInstances) != []);
        if action == BackKey.NoAction then
          commandQueue == old(commandQueue) && transitionRoutine == old(transitionRoutine) && halted == old(halted)
        else
          DrainState() == Admission.Admit(old(DrainState()),
                                          if action == BackKey.MoveBackAction then MoveBackCommand(Null, None, None)
                                          else ClosePopupCommand(old(CurrentPopupInstance()), Null, None, None),
                                          !legacy, current, finishedCoroutineHandle)
    {
      var current := CurrentScreenConfig();
      if current.Some? {
        var action := BackKey.Decide(current, ViewOverride(current.value), popupInstances != []);
        match action
        case NoAction =>
        case MoveBackAction => MoveBack();
        case CloseForegroundPopupAction => CloseForegroundPopup();
      }
    }

    /** Returns a popup's pool canvas to the pool; nothing for a popup
        holding none. */
    method RecyclePopupCanvas(v: ViewId)
      requires PoolValid()
      modifies this`allocatedCanvas, this`availableCanvas
      ensures PoolValid()
      ensures allocatedCanvas == old(allocatedCanvas) - {v}
      ensures availableCanvas == old(availableCanvas) + (if v in old(allocatedCanvas) then [old(allocatedCanvas)[v]] else [])
    {
      if v in allocatedCanvas {
        var c := allocatedCanvas[v];
        ghost var before := allocatedCanvas;
        allocatedCanvas := allocatedCanvas - {v};
        availableCanvas := availableCanvas + [c];
      }
    }

    /** The sorting order a newly created pool canvas starts with: the
        override prefab's, or a copy of the flow canvas's. */
    function NewCanvasOrder(): int
      requires config.Some?
      reads this`canvasOrder
    {
      match config.value.overridePopupCanvasOrder
      case Some(o) => o
      case None => CanvasPool.Order(canvasOrder, MainCanvas)
    }

    /** Hands a pool canvas to a newly instantiated popup: the one returned
        last, or a new one when the pool is empty. */
    method AllocatePopupCanvas(v: ViewId) returns (c: CanvasId)
      requires PoolValid() && v.Spawned? && v.k < nextSpawn && v !in allocatedCanvas
      requires availableCanvas == [] ==> config.Some?
      modifies this`allocatedCanvas, this`availableCanvas, this`nextCanvas, this`canvasOrder, this`trace
      ensures PoolValid()
      ensures allocatedCanvas == old(allocatedCanvas)[v := c] && c.PoolCanvas?
      ensures old(availableCanvas) != [] ==>
        && c == old(availableCanvas)[|old(availableCanvas)| - 1]
        && availableCanvas == old(availableCanvas)[..|old(availableCanvas)| - 1]
        && nextCanvas == old(nextCanvas) && canvasOrder == old(canvasOrder) && trace == old(trace)
      ensures old(availableCanvas) == [] ==>
        && c == PoolCanvas(old(nextCanvas)) && nextCanvas == old(nextCanvas) + 1 && availableCanvas == []
        && (forall w :: w in old(allocatedCanvas) ==> old(allocatedCanvas)[w] != c)
        && canvasOrder == old(canvasOrder)[c := old(NewCanvasOrder())] && trace == old(trace) + [CanvasCreated(c)]
    {
      if availableCanvas != [] {
        c := availableCanvas[|availableCanvas| - 1];
        ghost var before := availableCanvas;
        availableCanvas := availableCanvas[..|availableCanvas| - 1];
        assert before == availableCanvas + [c];
        assert c !in availableCanvas;
        allocatedCanvas := allocatedCanvas[v := c];
      } else {
        c := PoolCanvas(nextCanvas);
        canvasOrder := canvasOrder[c := NewCanvasOrder()];
        nextCanvas := nextCanvas + 1;
        trace := trace + [CanvasCreated(c)];
        allocatedCanvas := allocatedCanvas[v := c];
      }
    }

    /** CalculatePopupCanvasSortOrder: a popup's canvas is sorted one above
        the canvas of the popup below it (see CanvasPool). */
    method CalculatePopupCanvasSortOrder(c: CanvasId, top: Option<ViewId>)
      modifies this`canvasOrder
      ensures canvasOrder == CanvasPool.AssignSortOrder(old(canvasOrder), allocatedCanvas, c, top)
    {
      canvasOrder := CanvasPool.AssignSortOrder(canvasOrder, allocatedCanvas, c, top);
    }

    /** `PopupConfigsStack.Remove(cfg)` and `PopupInstancesStack.Remove(v)`. */
    method RemoveFromStacks(cfg: PopupConfig, v: ViewId)
      requires StacksValid() && cfg in popupConfigs && v in popupInstances
      modifies this`popupConfigs, this`popupInstances
      ensures StacksValid()
      ensures popupConfigs == RemoveFirst(old(popupConfigs), cfg) && popupInstances == RemoveFirst(old(popupInstances), v)
      ensures |popupInstances| == |old(popupInstances)| - 1
    {
      popupConfigs := RemoveFirst(popupConfigs, cfg);
      popupInstances := RemoveFirst(popupInstances, v);
    }

    /** Stops listening to a popup and deactivates or destroys it, unloading
        its asset unless told not to. */
    method ReleasePopupView(cfg: PopupConfig, v: ViewId, forceDontUnload: bool)
      modifies this`closeSubscriptions, this`trace, this`loadedPopups
      ensures closeSubscriptions == old(closeSubscriptions) - multiset{v}
      ensures trace == old(trace) + PopupDisposeEvents(cfg, v, forceDontUnload)
      ensures loadedPopups == if PopupUnloads(cfg, forceDontUnload) then old(loadedPopups) - {cfg} else old(loadedPopups)
    {
      closeSubscriptions := closeSubscriptions - multiset{v};
      if cfg.loader.isInScene {
        trace := trace + [Deactivated(v)];
      } else {
        trace := trace + [Destroyed(v)];
        if PopupUnloads(cfg, forceDontUnload) {
          trace := trace + [Unloaded(PopupEntity(cfg))];
          loadedPopups := loadedPopups - {cfg};
        }
      }
    }

    /** DisposePopupFromHide: drops the popup from both stacks (the first
        occurrence of its definition and of its view), returns its canvas to
        the pool, stops listening to it, and deactivates or destroys it. */
    method DisposePopupFromHide(cfg: PopupConfig, v: ViewId, forceDontUnload: bool)
      requires StacksValid() && PoolValid() && cfg in popupConfigs && v in popupInstances
      modifies this`popupConfigs, this`popupInstances, this`allocatedCanvas, this`availableCanvas,
               this`closeSubscriptions, this`trace, this`loadedPopups
      ensures StacksValid() && PoolValid()
      ensures popupConfigs == RemoveFirst(old(popupConfigs), cfg) && popupInstances == RemoveFirst(old(popupInstances), v)
      ensures |popupInstances| == |old(popupInstances)| - 1
      ensures allocatedCanvas == old(allocatedCanvas) - {v}
      ensures availableCanvas == old(availableCanvas) + (if v in old(allocatedCanvas) then [old(allocatedCanvas)[v]] else [])
      ensures closeSubscriptions == old(closeSubscriptions) - multiset{v}
      ensures trace == old(trace) + PopupDisposeEvents(cfg, v, forceDontUnload)
      ensures loadedPopups == if PopupUnloads(cfg, forceDontUnload) then old(loadedPopups) - {cfg} else old(loadedPopups)
    {
      RemoveFromStacks(cfg, v);
      RecyclePopupCanvas(v);
      ReleasePopupView(cfg, v, forceDontUnload);
    }

    /** Disposes every open popup, from the top of the stack down. */
    method DisposeAllPopups()
      requires StacksValid() && PoolValid()
      modifies this`popupConfigs, this`popupInstances, this`allocatedCanvas, this`availableCanvas,
               this`closeSubscriptions, this`trace, this`loadedPopups
      ensures StacksValid() && PoolValid() && popupConfigs == [] && popupInstances == []
      ensures exists added :: trace == old(trace) + added && Trace.Quiet(added)
    {
      var i := |popupConfigs| - 1;
      ghost var added := [];
      while i >= 0
        invariant -1 <= i && |popupConfigs| == |popupInstances| == i + 1
        invariant StacksValid() && PoolValid()
        invariant trace == old(trace) + added && Trace.Quiet(added)
        decreases i
      {
        var cfg, v := popupConfigs[i], popupInstances[i];
        DisposePopupFromHide(cfg, v, false);
        added := added + PopupDisposeEvents(cfg, v, false);
        i := i - 1;
      }
    }

    /** Joins the pending popup hide `h` while a popup is open: the hide
        callback on the popup on top (`top`, `tv`), then its disposal when
        `always` (closing) or when its definition destroys it on going to
        the background (opening). */
    method JoinPopupHide(h: Anim, top: PopupConfig, tv: ViewId, onHide: Option<Callback>, always: bool)
      requires StacksValid() && PoolValid() && hidePopupHandle == Some(h)
      requires popupInstances != [] && top == popupConfigs[|popupConfigs| - 1] && tv == popupInstances[|popupInstances| - 1]
      modifies this`popupConfigs, this`popupInstances, this`allocatedCanvas, this`availableCanvas,
               this`closeSubscriptions, this`trace, this`loadedPopups, this`hidePopupHandle
      ensures StacksValid() && PoolValid() && hidePopupHandle.None?
      ensures trace == old(trace) + PopupHideJoinEvents(h, top, tv, onHide, always)
      ensures if always || top.goingBackgroundBehaviour == HideAndDestroy then
          popupConfigs == RemoveFirst(old(popupConfigs), top) && popupInstances == RemoveFirst(old(popupInstances), tv)
        else
          popupConfigs == old(popupConfigs) && popupInstances == old(popupInstances)
    {
      trace := trace + [Joined(h)] + CallbackEvents(onHide, Some(tv));
      if always || top.goingBackgroundBehaviour == HideAndDestroy {
        DisposePopupFromHide(top, tv, false);
      }
      hidePopupHandle := None;
    }

    /** Joins a pending popup hide when no popup is open (a handle left over
        from an aborted transition): the hide callback gets null, and the
        disposal that follows has no popup to dispose, so the drain halts. */
    method JoinOrphanedPopupHide(h: Anim, onHide: Option<Callback>)
      requires popupInstances == [] && hidePopupHandle == Some(h)
      modifies this`trace, this`halted
      ensures halted && trace == old(trace) + [Joined(h)] + CallbackEvents(onHide, None)
    {
      trace := trace + [Joined(h)] + CallbackEvents(onHide, CurrentPopupInstance());
      halted := true;
    }

    /** The first step of closing the popup on top: Wait awaits its hide
        and disposes it; Intersection starts the hide and keeps its handle.
        An awaited hide that throws ends the drain before the disposal. */
    method HideClosingPopup(cfg: PopupConfig, v: ViewId, args: Arg, onHide: Option<Callback>)
      requires StacksValid() && PoolValid() && !halted && cfg in popupConfigs && v in popupInstances
      modifies this`popupConfigs, this`popupInstances, this`allocatedCanvas, this`availableCanvas,
               this`closeSubscriptions, this`trace, this`loadedPopups, this`hidePopupHandle, this`halted
      ensures StacksValid() && PoolValid()
      ensures halted <==> AwaitedHideThrows(cfg.animationType, cfg.loader.asset, args)
      ensures halted ==>
        && trace == old(trace) + [Started(HideAnim(legacy, v, args))] && hidePopupHandle == old(hidePopupHandle)
        && popupConfigs == old(popupConfigs) && popupInstances == old(popupInstances)
      ensures !halted ==> trace == old(trace) + CloseTopHide(legacy, cfg, v, args, onHide)
      ensures !halted ==> if cfg.animationType != Intersection then
          && popupConfigs == RemoveFirst(old(popupConfigs), cfg) && popupInstances == RemoveFirst(old(popupInstances), v)
          && hidePopupHandle == old(hidePopupHandle)
        else
          && popupConfigs == old(popupConfigs) && popupInstances == old(popupInstances)
          && hidePopupHandle == Some(HideAnim(legacy, v, args))
    {
      var hideAnim := HideAnim(legacy, v, args);
      if cfg.animationType != Intersection {
        if HideThrows(cfg.loader.asset, args) {
          trace := trace + [Started(hideAnim)];
          halted := true;
          return;
        }
        trace := trace + Awaited(hideAnim) + CallbackEvents(onHide, Some(v));
        DisposePopupFromHide(cfg, v, false);
      } else {
        trace := trace + [Started(hideAnim)];
        hidePopupHandle := Some(hideAnim);
      }
    }

    /** Shows the popup behind a closed one again when its definition hid
        it: awaited under Wait, started under Intersection (the handle is
        returned). An awaited show that throws ends the drain. */
    method ReshowBehind(cfg: PopupConfig, behind: Option<(PopupConfig, ViewId)>, args: Arg) returns (showHandle: Option<Anim>)
      requires !halted
      modifies this`trace, this`halted
      ensures halted <==> Reshows(behind) && AwaitedShowThrows(cfg.animationType, behind.value.0.loader.asset, args)
      ensures halted ==> trace == old(trace) + [Started(Show(behind.value.1, args))]
      ensures !halted ==> trace == old(trace) + ReshowStart(cfg, behind, args)
      ensures showHandle.Some? <==> Reshows(behind) && cfg.animationType == Intersection
      ensures showHandle.Some? ==> showHandle.value == Show(behind.value.1, args)
    {
      showHandle := None;
      if Reshows(behind) {
        var showAnim := Show(behind.value.1, args);
        if cfg.animationType != Intersection {
          if ShowThrows(behind.value.0.loader.asset, args) {
            trace := trace + [Started(showAnim)];
            halted := true;
            return;
          }
          trace := trace + Awaited(showAnim);
        } else {
          trace := trace + [Started(showAnim)];
          showHandle := Some(showAnim);
        }
      }
    }

    /** Joins a hide handle left over from an aborted transition while
        closing with Wait: it disposes the popup then on top, and halts the
        drain when none is left. */
    method JoinStalePopupHide(onHide: Option<Callback>)
      requires StacksValid() && PoolValid() && hidePopupHandle.Some?
      modifies this`popupConfigs, this`popupInstances, this`allocatedCanvas, this`availableCanvas,
               this`closeSubscriptions, this`trace, this`loadedPopups, this`hidePopupHandle, this`halted
      ensures StacksValid() && PoolValid()
      ensures halted <==> old(popupInstances) == [] || old(halted)
      ensures !halted ==> hidePopupHandle.None?
    {
      if popupInstances == [] {
        JoinOrphanedPopupHide(hidePopupHandle.value, onHide);
      } else {
        JoinPopupHide(hidePopupHandle.value, popupConfigs[|popupConfigs| - 1], popupInstances[|popupInstances| - 1], onHide, true);
      }
    }

    /** Closing the popup on top with Wait: its hide is awaited and it is
        disposed, the popup behind is shown again and awaited, then the show
        callback runs on the popup behind. */
    method CloseTopWaiting(cfg: PopupConfig, v: ViewId, behind: Option<(PopupConfig, ViewId)>, args: Arg,
                           onShow: Option<Callback>, onHide: Option<Callback>)
      requires StacksValid() && PoolValid() && !halted && cfg.animationType != Intersection
      requires popupInstances != [] && v == popupInstances[|popupInstances| - 1] && cfg == popupConfigs[|popupConfigs| - 1]
      modifies this`popupConfigs, this`popupInstances, this`allocatedCanvas, this`availableCanvas,
               this`closeSubscriptions, this`trace, this`loadedPopups, this`hidePopupHandle, this`halted
      ensures StacksInvariant(popupConfigs, popupInstances, history, currentScreenInstance, hideScreenHandle)
      ensures PoolInvariant(allocatedCanvas, availableCanvas, nextCanvas, nextSpawn)
      ensures !halted ==> hidePopupHandle.None?
      ensures CloseTopThrows(cfg, behind, args) ==>
        halted && trace == old(trace) + CloseTopHaltEvents(legacy, cfg, v, behind, args, onHide)
      ensures old(hidePopupHandle).None? && !CloseTopThrows(cfg, behind, args) ==>
        && !halted && hidePopupHandle.None?
        && popupConfigs == RemoveFirst(old(popupConfigs), cfg) && popupInstances == RemoveFirst(old(popupInstances), v)
        && trace == old(trace) + CloseTopEvents(legacy, cfg, v, behind, args, onHide, onShow)
    {
      ghost var t0 := trace;
      HideAndReshow(cfg, v, behind, args, onHide);
      if halted {
        return;
      }
      if hidePopupHandle.Some? {
        JoinStalePopupHide(onHide);
        if halted {
          return;
        }
      }
      ghost var shown := CloseTopHide(legacy, cfg, v, args, onHide) + ReshowStart(cfg, behind, args);
      trace := trace + CallbackEvents(onShow, BehindView(behind));
      if old(hidePopupHandle).None? {
        CloseTopWaitEvents(legacy, cfg, v, behind, args, onHide, onShow);
        AppendTwo(t0, shown, CallbackEvents(onShow, BehindView(behind)));
      }
    }

    /** The awaited part of closing the popup on top with Wait: its hide
        and disposal, then the show of the popup behind. Either awaited call
        may throw and end the drain. */
    method HideAndReshow(cfg: PopupConfig, v: ViewId, behind: Option<(PopupConfig, ViewId)>, args: Arg, onHide: Option<Callback>)
      requires StacksValid() && PoolValid() && !halted && cfg.animationType != Intersection
      requires popupInstances != [] && v == popupInstances[|popupInstances| - 1] && cfg == popupConfigs[|popupConfigs| - 1]
      modifies this`popupConfigs, this`popupInstances, this`allocatedCanvas, this`availableCanvas,
               this`closeSubscriptions, this`trace, this`loadedPopups, this`hidePopupHandle, this`halted
      ensures StacksValid() && PoolValid() && hidePopupHandle == old(hidePopupHandle)
      ensures halted <==> CloseTopThrows(cfg, behind, args)
      ensures if AwaitedHideThrows(cfg.animationType, cfg.loader.asset, args) then
          popupConfigs == old(popupConfigs) && popupInstances == old(popupInstances)
        else
          popupConfigs == RemoveFirst(old(popupConfigs), cfg) && popupInstances == RemoveFirst(old(popupInstances), v)
      ensures halted ==> trace == old(trace) + CloseTopHaltEvents(legacy, cfg, v, behind, args, onHide)
      ensures !halted ==> trace == old(trace) + (CloseTopHide(legacy, cfg, v, args, onHide) + ReshowStart(cfg, behind, args))
    {
      HideClosingPopup(cfg, v, args, onHide);
      if halted {
        return;
      }
      var _ := ReshowBehind(cfg, behind, args);
    }

    /** Closing the popup on top with Intersection: its hide starts, the
        popup behind starts showing again, the hide is joined and the popup
        disposed, the show is joined, then the show callback runs. */
    method CloseTopIntersecting(cfg: PopupConfig, v: ViewId, behind: Option<(PopupConfig, ViewId)>, args: Arg,
                                onShow: Option<Callback>, onHide: Option<Callback>)
      requires StacksValid() && PoolValid() && !halted && cfg.animationType == Intersection
      requires popupInstances != [] && v == popupInstances[|popupInstances| - 1] && cfg == popupConfigs[|popupConfigs| - 1]
      modifies this`popupConfigs, this`popupInstances, this`allocatedCanvas, this`availableCanvas,
               this`closeSubscriptions, this`trace, this`loadedPopups, this`hidePopupHandle, this`halted
      ensures !halted
      ensures StacksInvariant(popupConfigs, popupInstances, history, currentScreenInstance, hideScreenHandle)
      ensures PoolInvariant(allocatedCanvas, availableCanvas, nextCanvas, nextSpawn) && hidePopupHandle.None?
      ensures popupConfigs == RemoveFirst(old(popupConfigs), cfg) && popupInstances == RemoveFirst(old(popupInstances), v)
      ensures trace == old(trace) + CloseTopEvents(legacy, cfg, v, behind, args, onHide, onShow)
    {
      ghost var t0 := trace;
      var showHandle := StartIntersectingClose(cfg, v, behind, args, onHide);
      ghost var t2 := trace;
      JoinPopupHide(HideAnim(legacy, v, args), cfg, v, onHide, true);
      ghost var t3 := trace;
      if showHandle.Some? {
        trace := trace + [Joined(showHandle.value)];
      }
      assert trace == t3 + ReshowJoin(cfg, behind, args);
      trace := trace + CallbackEvents(onShow, BehindView(behind));
      AppendSteps(t0, CloseTopHide(legacy, cfg, v, args, onHide), ReshowStart(cfg, behind, args),
                  CloseTopJoin(legacy, cfg, v, args, onHide), ReshowJoin(cfg, behind, args), CallbackEvents(onShow, BehindView(behind)));
    }

    /** The started part of closing the popup on top with Intersection: its
        hide starts, then the popup behind starts showing again. Neither
        started call is awaited here, so neither ends the drain. */
    method StartIntersectingClose(cfg: PopupConfig, v: ViewId, behind: Option<(PopupConfig, ViewId)>, args: Arg,
                                  onHide: Option<Callback>) returns (showHandle: Option<Anim>)
      requires StacksValid() && PoolValid() && !halted && cfg.animationType == Intersection
      requires popupInstances != [] && v == popupInstances[|popupInstances| - 1] && cfg == popupConfigs[|popupConfigs| - 1]
      modifies this`popupConfigs, this`popupInstances, this`allocatedCanvas, this`availableCanvas,
               this`closeSubscriptions, this`trace, this`loadedPopups, this`hidePopupHandle, this`halted
      ensures StacksValid() && PoolValid() && !halted
      ensures popupConfigs == old(popupConfigs) && popupInstances == old(popupInstances)
      ensures hidePopupHandle == Some(HideAnim(legacy, v, args))
      ensures trace == old(trace) + CloseTopHide(legacy, cfg, v, args, onHide) + ReshowStart(cfg, behind, args)
      ensures showHandle.Some? <==> Reshows(behind)
      ensures showHandle.Some? ==> showHandle.value == Show(behind.value.1, args)
    {
      HideClosingPopup(cfg, v, args, onHide);
      assert !halted;
      showHandle := ReshowBehind(cfg, behind, args);
      assert !halted;
    }

    /** ClosePopupOp for the popup on top, by the closed popup's policy. */
    method CloseTopPopup(cfg: PopupConfig, v: ViewId, behind: Option<(PopupConfig, ViewId)>, args: Arg,
                         onShow: Option<Callback>, onHide: Option<Callback>)
      requires StacksValid() && PoolValid() && !halted
      requires popupInstances != [] && v == popupInstances[|popupInstances| - 1] && cfg == popupConfigs[|popupConfigs| - 1]
      modifies this`popupConfigs, this`popupInstances, this`allocatedCanvas, this`availableCanvas,
               this`closeSubscriptions, this`trace, this`loadedPopups, this`hidePopupHandle, this`halted
      ensures StacksValid() && PoolValid()
      ensures !halted ==> hidePopupHandle.None?
      ensures CloseTopThrows(cfg, behind, args) ==>
        halted && trace == old(trace) + CloseTopHaltEvents(legacy, cfg, v, behind, args, onHide)
      ensures (old(hidePopupHandle).None? || cfg.animationType == Intersection) && !CloseTopThrows(cfg, behind, args) ==>
        && !halted
        && popupConfigs == RemoveFirst(old(popupConfigs), cfg) && popupInstances == RemoveFirst(old(popupInstances), v)
        && trace == old(trace) + CloseTopEvents(legacy, cfg, v, behind, args, onHide, onShow)
    {
      if cfg.animationType == Intersection {
        CloseTopIntersecting(cfg, v, behind, args, onShow, onHide);
      } else {
        CloseTopWaiting(cfg, v, behind, args, onShow, onHide);
      }
    }

    /** ClosePopupOp for a popup below the top: the hide callback on it,
        its disposal, and the show callback on the popup behind it. */
    method CloseBelowPopup(cfg: PopupConfig, v: ViewId, behind: Option<(PopupConfig, ViewId)>,
                           onShow: Option<Callback>, onHide: Option<Callback>)
      requires StacksValid() && PoolValid() && cfg in popupConfigs && v in popupInstances
      modifies this`popupConfigs, this`popupInstances, this`allocatedCanvas, this`availableCanvas,
               this`closeSubscriptions, this`trace, this`loadedPopups
      ensures StacksInvariant(popupConfigs, popupInstances, history, currentScreenInstance, hideScreenHandle)
      ensures PoolInvariant(allocatedCanvas, availableCanvas, nextCanvas, nextSpawn)
      ensures popupConfigs == RemoveFirst(old(popupConfigs), cfg) && popupInstances == RemoveFirst(old(popupInstances), v)
      ensures trace == old(trace) + CloseBelowEvents(cfg, v, behind, onHide, onShow)
    {
      trace := trace + CallbackEvents(onHide, Some(v));
      DisposePopupFromHide(cfg, v, false);
      trace := trace + CallbackEvents(onShow, BehindView(behind));
    }

    /** ClosePopupOp: nothing for a popup that is not open; a popup below
        the top is disposed at once; the popup on top is closed with its
        animations. It halts when an awaited hide or show of that close
        throws, and otherwise only on a hide left over from an aborted
        transition. */
    method ClosePopupOp(target: Option<ViewId>, args: Arg, onShow: Option<Callback>, onHide: Option<Callback>)
      requires StacksValid() && PoolValid() && !halted
      modifies this`popupConfigs, this`popupInstances, this`allocatedCanvas, this`availableCanvas,
               this`closeSubscriptions, this`trace, this`loadedPopups, this`hidePopupHandle, this`halted
      ensures StacksInvariant(popupConfigs, popupInstances, history, currentScreenInstance, hideScreenHandle)
      ensures PoolInvariant(allocatedCanvas, availableCanvas, nextCanvas, nextSpawn)
      ensures halted ==> old(hidePopupHandle).Some? || ClosePopupThrows(old(popupConfigs), old(popupInstances), target, args)
      ensures target.None? || target.value !in old(popupInstances) ==> unchanged(this)
      ensures ClosePopupThrows(old(popupConfigs), old(popupInstances), target, args) ==>
        var top := |old(popupInstances)| - 1;
        && halted
        && trace == old(trace) + CloseTopHaltEvents(legacy, old(popupConfigs)[top], target.value,
                                                    BehindOf(old(popupConfigs), old(popupInstances), top), args, onHide)
      ensures old(hidePopupHandle).None? && !ClosePopupThrows(old(popupConfigs), old(popupInstances), target, args) ==>
        && !halted && hidePopupHandle.None?
        && popupInstances == (if target.Some? then RemoveFirst(old(popupInstances), target.value) else old(popupInstances))
        && popupConfigs == (if target.Some? then RemoveConfigOf(old(popupConfigs), old(popupInstances), target.value) else old(popupConfigs))
        && trace == old(trace) + ClosePopupEvents(legacy, old(popupConfigs), old(popupInstances), target, args, onShow, onHide)
    {
      if target.Some? {
        var k := IndexOf(popupInstances, target.value);
        if k >= 0 {
          var behind := BehindOf(popupConfigs, popupInstances, k);
          if k == |popupInstances| - 1 {
            CloseTopPopup(popupConfigs[k], target.value, behind, args, onShow, onHide);
          } else {
            CloseBelowPopup(popupConfigs[k], target.value, behind, onShow, onHide);
          }
        }
      }
    }

    /** HandlePopupsOnScreenTransit: with a popup open, the current
        screen's policy keeps every popup, closes the foreground popup and
        then disposes the rest, or disposes them all at once. */
    method HandlePopupsOnScreenTransit(args: Arg)
      requires StacksValid() && PoolValid() && !halted
      modifies this`popupConfigs, this`popupInstances, this`allocatedCanvas, this`availableCanvas,
               this`closeSubscriptions, this`trace, this`loadedPopups, this`hidePopupHandle, this`halted
      ensures StacksInvariant(popupConfigs, popupInstances, history, currentScreenInstance, hideScreenHandle)
      ensures PoolInvariant(allocatedCanvas, availableCanvas, nextCanvas, nextSpawn)
      ensures halted ==> old(hidePopupHandle).Some? || PopupsCloseThrows(old(CurrentScreenConfig()), old(popupConfigs), old(popupInstances), args)
      ensures PopupsCloseThrows(old(CurrentScreenConfig()), old(popupConfigs), old(popupInstances), args) ==> halted
      ensures old(popupInstances) == [] || old(CurrentScreenConfig()).value.popupBehaviourOnScreenTransition == PreserveAllOnHide ==>
        && !halted && trace == old(trace) && hidePopupHandle == old(hidePopupHandle)
        && popupConfigs == old(popupConfigs) && popupInstances == old(popupInstances)
      ensures old(popupInstances) != [] && old(CurrentScreenConfig()).value.popupBehaviourOnScreenTransition != PreserveAllOnHide && !halted ==>
        popupConfigs == [] && popupInstances == []
      ensures old(popupInstances) != [] && old(CurrentScreenConfig()).value.popupBehaviourOnScreenTransition == DestroyAllThenTransit ==>
        !halted && hidePopupHandle == old(hidePopupHandle) && exists added :: trace == old(trace) + added && Quiet(added)
      ensures old(popupInstances) != [] && old(CurrentScreenConfig()).value.popupBehaviourOnScreenTransition == HideFirstThenTransit
              && old(hidePopupHandle).None? && !PopupsCloseThrows(old(CurrentScreenConfig()), old(popupConfigs), old(popupInstances), args) ==>
        && !halted && hidePopupHandle.None?
        && exists added :: trace == old(trace) + ClosePopupEvents(legacy, old(popupConfigs), old(popupInstances), old(CurrentPopupInstance()),
                                                                 args, None, None) + added && Quiet(added)
    {
      if popupInstances != [] {
        match CurrentScreenConfig().value.popupBehaviourOnScreenTransition
        case PreserveAllOnHide =>
        case HideFirstThenTransit =>
          ClosePopupOp(CurrentPopupInstance(), args, None, None);
          if !halted {
            ghost var t1 := trace;
            DisposeAllPopups();
            ghost var added :| trace == t1 + added && Quiet(added);
          }
        case DestroyAllThenTransit =>
          DisposeAllPopups();
      }
    }

    // ------------------------------------------------------- screen transit

    /** Starts loading the next screen's asset unless it is loaded, taking
        it out of the preload queue. */
    method StartScreenLoad(next: ScreenConfig) returns (loading: bool)
      modifies this`preloadQueue, this`trace
      ensures loading <==> next !in loadedScreens
      ensures preloadQueue == if loading then RemoveFirst(old(preloadQueue), ScreenEntity(next)) else old(preloadQueue)
      ensures trace == old(trace) + (if loading then [Started(Load(ScreenEntity(next)))] else [])
    {
      loading := next !in loadedScreens;
      if loading {
        preloadQueue := RemoveFirst(preloadQueue, ScreenEntity(next));
        trace := trace + [Started(Load(ScreenEntity(next)))];
      }
    }

    /** Deactivates a hidden screen that lives in the scene; destroys any
        other and unloads its asset unless its definition says not to. */
    method DisposeScreen(cfg: ScreenConfig, v: ViewId)
      modifies this`trace, this`loadedScreens
      ensures trace == old(trace) + ScreenDisposeEvents(cfg, v)
      ensures loadedScreens == if ScreenUnloads(cfg) then old(loadedScreens) - {cfg} else old(loadedScreens)
    {
      if cfg.loader.isInScene {
        trace := trace + [Deactivated(v)];
      } else {
        trace := trace + [Destroyed(v)];
        if ScreenUnloads(cfg) {
          trace := trace + [Unloaded(ScreenEntity(cfg))];
          loadedScreens := loadedScreens - {cfg};
        }
      }
    }

    /** The hide of the current screen `cur` (view `view`): Wait awaits it,
        runs the hide callback and disposes the screen; Intersection starts
        it and keeps its handle. An awaited hide that throws ends the drain,
        and so does the disposal of a view that is already destroyed. */
    method HideCurrentScreen(cur: ScreenConfig, view: ViewId, args: Arg, onHide: Option<Callback>)
      requires |history| > 0 && !halted && ScreenValid() && cur == history[|history| - 1].entity
      modifies this`trace, this`loadedScreens, this`hideScreenHandle, this`halted, this`currentScreenDestroyed
      ensures hideScreenHandle.Some? ==> |history| > 0
      ensures ScreenValid()
      ensures halted <==> AwaitedHideThrows(cur.animationType, cur.loader.asset, args)
                          || DestroyedScreenRehideThrows(Some(cur), old(currentScreenDestroyed))
      ensures AwaitedHideThrows(cur.animationType, cur.loader.asset, args) ==>
        && trace == old(trace) + [Started(HideAnim(legacy, view, args))]
        && hideScreenHandle == old(hideScreenHandle) && loadedScreens == old(loadedScreens)
      ensures halted && !AwaitedHideThrows(cur.animationType, cur.loader.asset, args) ==>
        && trace == old(trace) + Awaited(HideAnim(legacy, view, args)) + CallbackEvents(onHide, Some(view))
        && hideScreenHandle == old(hideScreenHandle) && loadedScreens == old(loadedScreens)
      ensures !halted ==> (currentScreenDestroyed <==> DestroyedByHide(Some(cur)))
      ensures !halted ==> trace == old(trace) + ScreenHideEvents(legacy, cur, view, args, onHide)
      ensures cur.animationType != Intersection && !halted ==>
        && hideScreenHandle == old(hideScreenHandle)
        && loadedScreens == if ScreenUnloads(cur) then old(loadedScreens) - {cur} else old(loadedScreens)
      ensures cur.animationType == Intersection ==>
        hideScreenHandle == Some(HideAnim(legacy, view, args)) && loadedScreens == old(loadedScreens)
    {
      var hideAnim := HideAnim(legacy, view, args);
      if cur.animationType != Intersection {
        if HideThrows(cur.loader.asset, args) {
          trace := trace + [Started(hideAnim)];
          halted := true;
          return;
        }
        trace := trace + Awaited(hideAnim) + CallbackEvents(onHide, Some(view));
        if currentScreenDestroyed {
          // the disposal reads the destroyed view's GameObject
          halted := true;
          return;
        }
        DisposeScreen(cur, view);
        currentScreenDestroyed := !cur.loader.isInScene;
      } else {
        trace := trace + [Started(hideAnim)];
        hideScreenHandle := Some(hideAnim);
      }
    }

    /** Awaits the load of the next screen and checks its asset. A screen
        that was loaded when the transition began but was unloaded by the
        hide of the current screen is waited for forever. */
    method AwaitScreenAsset(next: ScreenConfig, loading: bool) returns (ok: bool)
      requires !halted
      modifies this`trace, this`loadedScreens, this`halted
      ensures old(trace) <= trace
      ensures ok <==> !halted && ScreenUsable(next)
      ensures legacy && !ScreenUsable(next) ==> halted
      ensures !halted && !ScreenUsable(next) ==> EndsWith(trace, [Logged(AssetFailure(ScreenEntity(next)))])
      ensures loading ==> (halted <==> legacy && !ScreenUsable(next))
      ensures !loading && next !in old(loadedScreens) ==> halted
    {
      if loading {
        trace := trace + [Joined(Load(ScreenEntity(next)))];
        loadedScreens := loadedScreens + {next};
      } else if next !in loadedScreens {
        // waits forever for a load nobody started
        halted := true;
        return false;
      }
      if !ScreenUsable(next) {
        if legacy {
          halted := true;
        } else {
          trace := trace + [Logged(AssetFailure(ScreenEntity(next)))];
        }
        return false;
      }
      ok := true;
    }

    /** The current screen is hidden, then the next screen's asset is
        awaited and checked; a hide that throws ends the drain first. */
    method HideAndAwait(next: ScreenConfig, loading: bool, args: Arg, onHide: Option<Callback>) returns (ok: bool)
      requires StacksValid() && ScreenValid() && !halted && (loading <==> next !in loadedScreens)
      modifies this`trace, this`loadedScreens, this`hideScreenHandle, this`halted, this`currentScreenDestroyed
      ensures StacksInvariant(popupConfigs, popupInstances, history, currentScreenInstance, hideScreenHandle)
      ensures ScreenValid()
      ensures DestroyedScreenRehideThrows(CurrentScreenConfig(), old(currentScreenDestroyed)) ==> halted
      ensures !halted ==> (currentScreenDestroyed <==> DestroyedByHide(CurrentScreenConfig()))
      ensures ok <==> !halted && ScreenUsable(next)
      ensures legacy && !ScreenUsable(next) ==> halted
      ensures !halted && !ScreenUsable(next) ==> EndsWith(trace, [Logged(AssetFailure(ScreenEntity(next)))])
      ensures ok ==> var p := PendingScreenHide(legacy, CurrentScreenConfig(), currentScreenInstance, old(hideScreenHandle), args);
        hideScreenHandle == if p.Some? then Some(p.value.0) else None
      ensures ScreenHideThrows(CurrentScreenConfig(), args) ==> halted && loadedScreens == old(loadedScreens)
      ensures (next !in old(loadedScreens) && (!legacy || ScreenUsable(next)) && !ScreenHideThrows(CurrentScreenConfig(), args)
               && !DestroyedScreenRehideThrows(CurrentScreenConfig(), old(currentScreenDestroyed))) ==> !halted
      ensures (CurrentScreenConfig() == Some(next) && next in old(loadedScreens)
               && next.animationType != Intersection && ScreenUnloads(next)) ==> halted
    {
      if |history| > 0 {
        HideCurrentScreen(CurrentScreenConfig().value, currentScreenInstance.value, args, onHide);
        if halted {
          return false;
        }
      }
      ok := AwaitScreenAsset(next, loading);
    }

    /** The first half of ScreenTransitTo, once the load of the next
        screen has been started: the open popups are dealt with, the current screen is
        hidden, the load is awaited and the asset is checked. `ok` when the
        next screen can be shown. */
    method LeaveScreen(next: ScreenConfig, loading: bool, args: Arg, onHide: Option<Callback>) returns (ok: bool)
      requires StacksValid() && PoolValid() && ScreenValid() && !halted && (loading <==> next !in loadedScreens)
      modifies this`trace, this`loadedScreens, this`hideScreenHandle, this`halted, this`currentScreenDestroyed,
               this`popupConfigs, this`popupInstances, this`allocatedCanvas, this`availableCanvas,
               this`closeSubscriptions, this`loadedPopups, this`hidePopupHandle
      ensures StacksInvariant(popupConfigs, popupInstances, history, currentScreenInstance, hideScreenHandle)
      ensures PoolInvariant(allocatedCanvas, availableCanvas, nextCanvas, nextSpawn)
      ensures ScreenValid()
      ensures !halted ==> (currentScreenDestroyed <==> DestroyedByHide(CurrentScreenConfig()))
      ensures ok <==> !halted && ScreenUsable(next)
      ensures legacy && !ScreenUsable(next) ==> halted
      ensures !halted && !ScreenUsable(next) ==> EndsWith(trace, [Logged(AssetFailure(ScreenEntity(next)))])
      ensures ok ==> var p := PendingScreenHide(legacy, old(CurrentScreenConfig()), old(currentScreenInstance), old(hideScreenHandle), args);
        hideScreenHandle == if p.Some? then Some(p.value.0) else None
      ensures LeaveScreenThrows(old(CurrentScreenConfig()), old(currentScreenDestroyed), old(popupConfigs), old(popupInstances), args) ==> halted
      ensures (old(hidePopupHandle).None? && next !in old(loadedScreens) && (!legacy || ScreenUsable(next))
               && !LeaveScreenThrows(old(CurrentScreenConfig()), old(currentScreenDestroyed), old(popupConfigs), old(popupInstances), args)) ==> !halted
      ensures (old(hidePopupHandle).None? && old(CurrentScreenConfig()) == Some(next) && next in old(loadedScreens)
               && next.animationType != Intersection && ScreenUnloads(next)) ==> halted
    {
      ghost var current, destroyed := CurrentScreenConfig(), currentScreenDestroyed;
      HandlePopupsOnScreenTransit(args);
      assert CurrentScreenConfig() == current && currentScreenDestroyed == destroyed && ScreenValid();
      if halted {
        return false;
      }
      ok := HideAndAwait(next, loading, args, onHide);
    }

    /** Activates the next screen's view in the scene, or instantiates its
        prefab as a new view. */
    method MaterializeScreen(next: ScreenConfig) returns (view: ViewId)
      requires PoolValid() && ScreenUsable(next)
      modifies this`trace, this`nextSpawn
      ensures PoolInvariant(allocatedCanvas, availableCanvas, nextCanvas, nextSpawn)
      ensures view == MaterializedView(next.loader, old(nextSpawn))
      ensures nextSpawn == if next.loader.isInScene then old(nextSpawn) else old(nextSpawn) + 1
      ensures trace == old(trace) + [MaterializeEvent(next.loader, old(nextSpawn))]
    {
      view := MaterializedView(next.loader, nextSpawn);
      trace := trace + [MaterializeEvent(next.loader, nextSpawn)];
      if !next.loader.isInScene {
        nextSpawn := nextSpawn + 1;
      }
    }

    /** Joins the pending screen hide, if any: the hide callback and the
        disposal of the hidden screen. */
    method JoinScreenHide(pending: Option<(Anim, ScreenConfig, ViewId)>, onHide: Option<Callback>)
      requires hideScreenHandle == if pending.Some? then Some(pending.value.0) else None
      modifies this`trace, this`loadedScreens, this`hideScreenHandle
      ensures hideScreenHandle.None?
      ensures trace == old(trace) + ScreenHideJoinEvents(pending, onHide)
      ensures loadedScreens == if pending.Some? && ScreenUnloads(pending.value.1) then old(loadedScreens) - {pending.value.1} else old(loadedScreens)
    {
      if pending.Some? {
        trace := trace + [Joined(pending.value.0)] + CallbackEvents(onHide, Some(pending.value.2));
        DisposeScreen(pending.value.1, pending.value.2);
        hideScreenHandle := None;
      }
    }

    /** Brings the next screen in: its view is materialised and shown, the
        pending hide is joined, and an Intersection show is joined. An
        awaited show that throws ends the drain before the join. */
    method ShowScreen(next: ScreenConfig, pending: Option<(Anim, ScreenConfig, ViewId)>, args: Arg, onHide: Option<Callback>)
      returns (view: ViewId)
      requires StacksValid() && PoolValid() && ScreenUsable(next) && !halted
      requires hideScreenHandle == if pending.Some? then Some(pending.value.0) else None
      modifies this`trace, this`nextSpawn, this`loadedScreens, this`hideScreenHandle, this`halted
      ensures StacksInvariant(popupConfigs, popupInstances, history, currentScreenInstance, hideScreenHandle)
      ensures PoolInvariant(allocatedCanvas, availableCanvas, nextCanvas, nextSpawn)
      ensures view == MaterializedView(next.loader, old(nextSpawn))
      ensures nextSpawn == if next.loader.isInScene then old(nextSpawn) else old(nextSpawn) + 1
      ensures halted <==> AwaitedShowThrows(next.animationType, next.loader.asset, args)
      ensures halted ==>
        && trace == old(trace) + [MaterializeEvent(next.loader, old(nextSpawn)), Started(Show(view, args))]
        && hideScreenHandle == old(hideScreenHandle) && loadedScreens == old(loadedScreens)
      ensures !halted ==>
        && hideScreenHandle.None?
        && trace == old(trace) + ScreenShowPhase(next, view, MaterializeEvent(next.loader, old(nextSpawn)), pending, args, onHide)
        && loadedScreens == if pending.Some? && ScreenUnloads(pending.value.1) then old(loadedScreens) - {pending.value.1} else old(loadedScreens)
    {
      ghost var t0, m := trace, MaterializeEvent(next.loader, nextSpawn);
      view := MaterializeScreen(next);
      if AwaitedShowThrows(next.animationType, next.loader.asset, args) {
        trace := trace + [Started(Show(view, args))];
        halted := true;
        assert trace == t0 + [m, Started(Show(view, args))];
        return;
      }
      ShowThenJoin(next, view, pending, args, onHide);
      AppendTwo(t0, [m], ShowAndJoinEvents(next, view, pending, args, onHide));
    }

    /** ShowScreen once the view is materialised and its show does not
        throw: the show is started or awaited, the pending hide joined, and
        an Intersection show joined last. */
    method ShowThenJoin(next: ScreenConfig, view: ViewId, pending: Option<(Anim, ScreenConfig, ViewId)>, args: Arg, onHide: Option<Callback>)
      requires hideScreenHandle == if pending.Some? then Some(pending.value.0) else None
      modifies this`trace, this`loadedScreens, this`hideScreenHandle
      ensures hideScreenHandle.None?
      ensures trace == old(trace) + ShowAndJoinEvents(next, view, pending, args, onHide)
      ensures loadedScreens == if pending.Some? && ScreenUnloads(pending.value.1) then old(loadedScreens) - {pending.value.1} else old(loadedScreens)
    {
      ghost var t0 := trace;
      trace := trace + ShowStart(next.animationType, view, args);
      JoinScreenHide(pending, onHide);
      trace := trace + ShowJoin(next.animationType, view, args);
      AppendThree(t0, ShowStart(next.animationType, view, args), ScreenHideJoinEvents(pending, onHide),
                  ShowJoin(next.animationType, view, args));
    }

    /** Sets the screen every open popup belongs to. */
    method ReparentPopups(view: ViewId)
      modifies this`parentScreen
      ensures forall w :: w in popupInstances ==> w in parentScreen && parentScreen[w] == Some(view)
      ensures forall w :: w !in popupInstances ==>
        (w in parentScreen <==> w in old(parentScreen)) && (w in parentScreen ==> parentScreen[w] == old(parentScreen)[w])
    {
      var i := 0;
      while i < |popupInstances|
        invariant 0 <= i <= |popupInstances|
        invariant forall j :: 0 <= j < i ==> popupInstances[j] in parentScreen && parentScreen[popupInstances[j]] == Some(view)
        invariant forall w :: w !in popupInstances[..i] ==>
          (w in parentScreen <==> w in old(parentScreen)) && (w in parentScreen ==> parentScreen[w] == old(parentScreen)[w])
      {
        parentScreen := parentScreen[popupInstances[i] := Some(view)];
        i := i + 1;
      }
      assert popupInstances[..i] == popupInstances;
    }

    /** The second half of ScreenTransitTo: the next screen is shown, the
        pending hide joined, then the history is updated (the top entry
        popped when moving back, a new entry pushed otherwise), the popups
        re-parented, the show callback run and the change announced. A show
        that throws ends the drain with the history and the current screen
        as they were. */
    method EnterScreen(next: ScreenConfig, isMoveBack: bool, pending: Option<(Anim, ScreenConfig, ViewId)>, args: Arg,
                       onShow: Option<Callback>, onHide: Option<Callback>)
      requires StacksValid() && PoolValid() && ScreenUsable(next) && !halted
      requires isMoveBack ==> |history| >= 2
      requires hideScreenHandle == if pending.Some? then Some(pending.value.0) else None
      modifies this`trace, this`nextSpawn, this`loadedScreens, this`hideScreenHandle,
               this`currentScreenInstance, this`history, this`parentScreen, this`halted, this`currentScreenDestroyed
      ensures StacksInvariant(popupConfigs, popupInstances, history, currentScreenInstance, hideScreenHandle)
      ensures halted ==> currentScreenDestroyed == old(currentScreenDestroyed)
      ensures !halted ==> !currentScreenDestroyed
      ensures PoolInvariant(allocatedCanvas, availableCanvas, nextCanvas, nextSpawn)
      ensures halted <==> AwaitedShowThrows(next.animationType, next.loader.asset, args)
      ensures halted ==> history == old(history) && currentScreenInstance == old(currentScreenInstance)
      ensures !halted ==>
        && currentScreenInstance == Some(MaterializedView(next.loader, old(nextSpawn))) && hideScreenHandle.None?
        && history == (if isMoveBack then old(history)[..|old(history)| - 1] else old(history) + [EntityArgPair(next, args)])
        && (forall w :: w in popupInstances ==> w in parentScreen && parentScreen[w] == currentScreenInstance)
        && trace == old(trace) + ScreenShowEvents(legacy, next, MaterializedView(next.loader, old(nextSpawn)),
                                                  MaterializeEvent(next.loader, old(nextSpawn)), pending,
                                                  old(CurrentScreenConfig()), args, onShow, onHide)
    {
      var previous := CurrentScreenConfig();
      var view := ShowScreen(next, pending, args, onHide);
      if halted {
        return;
      }
      CommitScreen(next, view, isMoveBack, previous, args, onShow);
    }

    /** The state update that ends a screen transition: the new view
        becomes current, the history is popped on a move back and pushed
        otherwise, the open popups are re-parented, and the show callback
        and the change event follow. */
    method CommitScreen(next: ScreenConfig, view: ViewId, isMoveBack: bool, previous: Option<ScreenConfig>, args: Arg,
                        onShow: Option<Callback>)
      requires StacksValid() && (isMoveBack ==> |history| >= 2)
      modifies this`trace, this`currentScreenInstance, this`history, this`parentScreen, this`currentScreenDestroyed
      ensures StacksInvariant(popupConfigs, popupInstances, history, currentScreenInstance, hideScreenHandle)
      ensures currentScreenInstance == Some(view) && !currentScreenDestroyed
      ensures history == if isMoveBack then old(history)[..|old(history)| - 1] else old(history) + [EntityArgPair(next, args)]
      ensures forall w :: w in popupInstances ==> w in parentScreen && parentScreen[w] == Some(view)
      ensures trace == old(trace) + ScreenShownEvents(legacy, next, view, previous, onShow)
    {
      currentScreenInstance := Some(view);
      currentScreenDestroyed := false;
      if isMoveBack {
        history := history[..|history| - 1];
      } else {
        history := history + [EntityArgPair(next, args)];
      }
      ReparentPopups(view);
      trace := trace + ScreenShownEvents(legacy, next, view, previous, onShow);
    }

    /** ScreenTransitTo once the load of the next screen has been
        started (`loading`). When it succeeds the history and the current
        screen are updated and the trace ends with the show events of the
        next screen, with the hide that was pending (the current screen's
        Intersection hide, or one left over) joined on the way. */
    method TransitFrom(next: ScreenConfig, loading: bool, isMoveBack: bool, args: Arg, onShow: Option<Callback>, onHide: Option<Callback>)
      requires StacksValid() && PoolValid() && ScreenValid() && !halted && (loading <==> next !in loadedScreens)
      requires isMoveBack ==> |history| >= 2
      modifies this`trace, this`loadedScreens, this`hideScreenHandle, this`halted,
               this`popupConfigs, this`popupInstances, this`allocatedCanvas, this`availableCanvas,
               this`closeSubscriptions, this`loadedPopups, this`hidePopupHandle,
               this`nextSpawn, this`currentScreenInstance, this`history, this`parentScreen, this`currentScreenDestroyed
      ensures StacksValid() && PoolValid() && ScreenValid()
      ensures halted || !ScreenUsable(next) ==> history == old(history) && currentScreenInstance == old(currentScreenInstance)
      ensures legacy && !ScreenUsable(next) ==> halted
      ensures !halted && !ScreenUsable(next) ==> (currentScreenDestroyed <==> DestroyedByHide(old(CurrentScreenConfig())))
      ensures !halted && ScreenUsable(next) ==> !currentScreenDestroyed
      ensures !halted && !ScreenUsable(next) ==> EndsWith(trace, [Logged(AssetFailure(ScreenEntity(next)))])
      ensures LeaveScreenThrows(old(CurrentScreenConfig()), old(currentScreenDestroyed), old(popupConfigs), old(popupInstances), args) ==> halted
      ensures ScreenUsable(next) && AwaitedShowThrows(next.animationType, next.loader.asset, args) ==> halted
      ensures (old(hidePopupHandle).None? && next !in old(loadedScreens) && (!legacy || ScreenUsable(next))
               && !LeaveScreenThrows(old(CurrentScreenConfig()), old(currentScreenDestroyed), old(popupConfigs), old(popupInstances), args)
               && !(ScreenUsable(next) && AwaitedShowThrows(next.animationType, next.loader.asset, args))) ==> !halted
      ensures (old(hidePopupHandle).None? && old(CurrentScreenConfig()) == Some(next) && next in old(loadedScreens)
               && next.animationType != Intersection && ScreenUnloads(next)) ==> halted
      ensures !halted && ScreenUsable(next) ==>
        && history == (if isMoveBack then old(history)[..|old(history)| - 1] else old(history) + [EntityArgPair(next, args)])
        && currentScreenInstance == Some(MaterializedView(next.loader, old(nextSpawn))) && hideScreenHandle.None?
        && (forall w :: w in popupInstances ==> w in parentScreen && parentScreen[w] == currentScreenInstance)
        && EndsWith(trace, ScreenShowEvents(legacy, next, MaterializedView(next.loader, old(nextSpawn)),
                                            MaterializeEvent(next.loader, old(nextSpawn)),
                                            PendingScreenHide(legacy, old(CurrentScreenConfig()), old(currentScreenInstance), old(hideScreenHandle), args),
                                            old(CurrentScreenConfig()), args, onShow, onHide))
    {
      var pending := PendingScreenHide(legacy, CurrentScreenConfig(), currentScreenInstance, hideScreenHandle, args);
      var ok := LeaveScreen(next, loading, args, onHide);
      if ok {
        EnterScreen(next, isMoveBack, pending, args, onShow, onHide);
      }
    }

    /** ScreenTransitTo. When it succeeds the history and the current
        screen are updated and the trace ends with the show events of the
        next screen, with the hide that was pending (the current screen's
        Intersection hide, or one left over) joined on the way. */
    method ScreenTransitTo(next: ScreenConfig, isMoveBack: bool, args: Arg, onShow: Option<Callback>, onHide: Option<Callback>)
      requires StacksValid() && PoolValid() && ScreenValid() && !halted
      requires isMoveBack ==> |history| >= 2
      modifies this`preloadQueue, this`trace, this`loadedScreens, this`hideScreenHandle, this`halted,
               this`popupConfigs, this`popupInstances, this`allocatedCanvas, this`availableCanvas,
               this`closeSubscriptions, this`loadedPopups, this`hidePopupHandle,
               this`nextSpawn, this`currentScreenInstance, this`history, this`parentScreen, this`currentScreenDestroyed
      ensures StacksValid() && PoolValid() && ScreenValid()
      ensures preloadQueue == if next !in old(loadedScreens) then RemoveFirst(old(preloadQueue), ScreenEntity(next)) else old(preloadQueue)
      ensures halted || !ScreenUsable(next) ==> history == old(history) && currentScreenInstance == old(currentScreenInstance)
      ensures legacy && !ScreenUsable(next) ==> halted
      ensures !halted && !ScreenUsable(next) ==> (currentScreenDestroyed <==> DestroyedByHide(old(CurrentScreenConfig())))
      ensures !halted && ScreenUsable(next) ==> !currentScreenDestroyed
      ensures !halted && !ScreenUsable(next) ==> EndsWith(trace, [Logged(AssetFailure(ScreenEntity(next)))])
      ensures LeaveScreenThrows(old(CurrentScreenConfig()), old(currentScreenDestroyed), old(popupConfigs), old(popupInstances), args) ==> halted
      ensures ScreenUsable(next) && AwaitedShowThrows(next.animationType, next.loader.asset, args) ==> halted
      ensures (old(hidePopupHandle).None? && next !in old(loadedScreens) && (!legacy || ScreenUsable(next))
               && !LeaveScreenThrows(old(CurrentScreenConfig()), old(currentScreenDestroyed), old(popupConfigs), old(popupInstances), args)
               && !(ScreenUsable(next) && AwaitedShowThrows(next.animationType, next.loader.asset, args))) ==> !halted
      ensures (old(hidePopupHandle).None? && old(CurrentScreenConfig()) == Some(next) && next in old(loadedScreens)
               && next.animationType != Intersection && ScreenUnloads(next)) ==> halted
      ensures !halted && ScreenUsable(next) ==>
        && history == (if isMoveBack then old(history)[..|old(history)| - 1] else old(history) + [EntityArgPair(next, args)])
        && currentScreenInstance == Some(MaterializedView(next.loader, old(nextSpawn))) && hideScreenHandle.None?
        && (forall w :: w in popupInstances ==> w in parentScreen && parentScreen[w] == currentScreenInstance)
        && EndsWith(trace, ScreenShowEvents(legacy, next, MaterializedView(next.loader, old(nextSpawn)),
                                            MaterializeEvent(next.loader, old(nextSpawn)),
                                            PendingScreenHide(legacy, old(CurrentScreenConfig()), old(currentScreenInstance), old(hideScreenHandle), args),
                                            old(CurrentScreenConfig()), args, onShow, onHide))
    {
      var loading := StartScreenLoad(next);
      TransitFrom(next, loading, isMoveBack, args, onShow, onHide);
    }

    // -------------------------------------------------------- popup transit

    /** Starts loading the popup's asset unless it is loaded. */
    method StartPopupLoad(cfg: PopupConfig) returns (loading: bool)
      modifies this`trace
      ensures loading <==> cfg !in loadedPopups
      ensures trace == old(trace) + (if loading then [Started(Load(PopupEntity(cfg)))] else [])
    {
      loading := cfg !in loadedPopups;
      if loading {
        trace := trace + [Started(Load(PopupEntity(cfg)))];
      }
    }

    /** The hide phase for a Wait popup on top: on a screen with stackable
        popups it is sent to the background and, unless its definition
        keeps it visible, its hide is awaited and it is disposed when its
        definition destroys it; otherwise its hide is awaited and it is
        disposed. */
    method HideTopWaiting(cfg: PopupConfig, top: PopupConfig, tv: ViewId, stackable: bool, args: Arg, onHide: Option<Callback>)
      requires StacksValid() && PoolValid() && !halted && popupInstances != [] && top.animationType != Intersection
      requires top == popupConfigs[|popupConfigs| - 1] && tv == popupInstances[|popupInstances| - 1]
      modifies this`popupConfigs, this`popupInstances, this`allocatedCanvas, this`availableCanvas,
               this`closeSubscriptions, this`trace, this`loadedPopups, this`halted
      ensures StacksInvariant(popupConfigs, popupInstances, history, currentScreenInstance, hideScreenHandle)
      ensures PoolInvariant(allocatedCanvas, availableCanvas, nextCanvas, nextSpawn)
      ensures halted <==> TopHideThrows(Some((top, tv)), stackable, args)
      ensures halted ==>
        && trace == old(trace) + TopHideHaltEvents(legacy, tv, stackable, args, onHide)
        && popupConfigs == old(popupConfigs) && popupInstances == old(popupInstances)
      ensures !halted ==> trace == old(trace) + PopupHideEvents(legacy, top, tv, stackable, top == cfg, args, onHide)
      ensures !halted ==> if TopDisposed(top, stackable) then
          popupConfigs == RemoveFirst(old(popupConfigs), top) && popupInstances == RemoveFirst(old(popupInstances), tv)
        else
          popupConfigs == old(popupConfigs) && popupInstances == old(popupInstances)
      ensures cfg in loadedPopups <==> cfg in old(loadedPopups)
    {
      if TopHideThrows(Some((top, tv)), stackable, args) {
        HaltOnTopHide(tv, stackable, args, onHide);
      } else {
        AwaitTopHide(cfg, top, tv, stackable, args, onHide);
      }
    }

    /** HideTopWaiting when the awaited hide completes. */
    method AwaitTopHide(cfg: PopupConfig, top: PopupConfig, tv: ViewId, stackable: bool, args: Arg, onHide: Option<Callback>)
      requires StacksValid() && PoolValid() && popupInstances != [] && top.animationType != Intersection
      requires top == popupConfigs[|popupConfigs| - 1] && tv == popupInstances[|popupInstances| - 1]
      modifies this`popupConfigs, this`popupInstances, this`allocatedCanvas, this`availableCanvas,
               this`closeSubscriptions, this`trace, this`loadedPopups
      ensures StacksInvariant(popupConfigs, popupInstances, history, currentScreenInstance, hideScreenHandle)
      ensures PoolInvariant(allocatedCanvas, availableCanvas, nextCanvas, nextSpawn)
      ensures trace == old(trace) + PopupHideEvents(legacy, top, tv, stackable, top == cfg, args, onHide)
      ensures if TopDisposed(top, stackable) then
          popupConfigs == RemoveFirst(old(popupConfigs), top) && popupInstances == RemoveFirst(old(popupInstances), tv)
        else
          popupConfigs == old(popupConfigs) && popupInstances == old(popupInstances)
      ensures cfg in loadedPopups <==> cfg in old(loadedPopups)
    {
      PopupWaitHideThenDispose(legacy, top, tv, stackable, top == cfg, args, onHide);
      trace := trace + PopupWaitHideEvents(legacy, top, tv, stackable, args, onHide);
      if TopDisposed(top, stackable) {
        DisposePopupFromHide(top, tv, top == cfg);
      }
    }

    /** The awaited hide of the popup on top throws: the drain ends after
        the events that precede it. */
    method HaltOnTopHide(tv: ViewId, stackable: bool, args: Arg, onHide: Option<Callback>)
      modifies this`trace, this`halted
      ensures halted && trace == old(trace) + TopHideHaltEvents(legacy, tv, stackable, args, onHide)
    {
      trace := trace + TopHideHaltEvents(legacy, tv, stackable, args, onHide);
      halted := true;
    }

    /** The hide phase for an Intersection popup on top: on a screen with
        stackable popups it is sent to the background and, unless its
        definition keeps it visible, its hide is started; otherwise its
        hide is started. The handle is kept for the join. */
    method HideTopIntersecting(top: PopupConfig, tv: ViewId, stackable: bool, args: Arg, onHide: Option<Callback>)
      requires top.animationType == Intersection
      modifies this`trace, this`hidePopupHandle
      ensures trace == old(trace) + PopupHideEvents(legacy, top, tv, stackable, false, args, onHide)
      ensures hidePopupHandle == if PopupHideDeferred(top, stackable) then Some(HideAnim(legacy, tv, args)) else old(hidePopupHandle)
    {
      var hideAnim := HideAnim(legacy, tv, args);
      if stackable {
        trace := trace + [WentToBackground(tv, args)];
      }
      if PopupHideDeferred(top, stackable) {
        trace := trace + [Started(hideAnim)];
        hidePopupHandle := Some(hideAnim);
      }
    }

    /** Awaits the popup's load and checks its asset: the core engine logs
        and gives up on an asset without a popup view; the older engine
        dereferences it and halts. */
    method AwaitPopupAsset(cfg: PopupConfig, loading: bool) returns (ok: bool)
      requires !halted
      modifies this`trace, this`loadedPopups, this`halted
      ensures ok <==> !halted && PopupUsable(cfg)
      ensures halted <==> legacy && !PopupUsable(cfg)
      ensures loadedPopups == if loading then old(loadedPopups) + {cfg} else old(loadedPopups)
      ensures trace == old(trace) + (if loading then [Joined(Load(PopupEntity(cfg)))] else [])
                      + (if !legacy && !PopupUsable(cfg) then [Logged(AssetFailure(PopupEntity(cfg)))] else [])
    {
      if loading {
        trace := trace + [Joined(Load(PopupEntity(cfg)))];
        loadedPopups := loadedPopups + {cfg};
      }
      if !PopupUsable(cfg) {
        if legacy {
          halted := true;
        } else {
          trace := trace + [Logged(AssetFailure(PopupEntity(cfg)))];
        }
        return false;
      }
      ok := true;
    }

    /** Brings the popup's view in and picks the canvas `c` to be sorted: a
        placed view is activated and `c` is the flow's own canvas; a prefab
        with no canvas of its own is instantiated on a canvas of the pool,
        which is `c`; for a prefab that carries a canvas, `c` is the prefab
        asset's canvas, while the instance is drawn on its own copy of it,
        which takes the order the asset's canvas has at that moment.
        Creating a pool canvas without a flow configuration dereferences
        null and halts. */
    method MaterializePopup(cfg: PopupConfig) returns (view: ViewId, c: CanvasId)
      requires PoolValid() && PopupUsable(cfg) && !halted
      modifies this`trace, this`nextSpawn, this`allocatedCanvas, this`availableCanvas, this`nextCanvas,
               this`canvasOrder, this`halted
      ensures PoolInvariant(allocatedCanvas, availableCanvas, nextCanvas, nextSpawn)
      ensures view == MaterializedView(cfg.loader, old(nextSpawn))
      ensures nextSpawn == if cfg.loader.isInScene then old(nextSpawn) else old(nextSpawn) + 1
      ensures halted <==> UsesPoolCanvas(cfg) && old(availableCanvas) == [] && config.None?
      ensures cfg.loader.isInScene ==> c == MainCanvas
      ensures !cfg.loader.isInScene && cfg.loader.asset.ownCanvas.Some? ==> c == PrefabCanvas(cfg.loader.asset.ownCanvas.value)
      ensures !UsesPoolCanvas(cfg) || halted ==>
        && allocatedCanvas == old(allocatedCanvas) && availableCanvas == old(availableCanvas)
        && trace == old(trace) + [MaterializeEvent(cfg.loader, old(nextSpawn))]
      ensures cfg.loader.isInScene || halted ==> canvasOrder == old(canvasOrder)
      ensures !cfg.loader.isInScene && cfg.loader.asset.ownCanvas.Some? ==>
        var asset := PrefabCanvas(cfg.loader.asset.ownCanvas.value);
        canvasOrder == old(canvasOrder)[InstanceCanvas(view) := CanvasPool.Order(old(canvasOrder), asset)]
      ensures UsesPoolCanvas(cfg) && !halted ==>
        && allocatedCanvas == old(allocatedCanvas)[view := c] && c.PoolCanvas? && c !in availableCanvas
        && (old(availableCanvas) != [] ==>
              && c == old(availableCanvas)[|old(availableCanvas)| - 1] && availableCanvas == old(availableCanvas)[..|old(availableCanvas)| - 1]
              && canvasOrder == old(canvasOrder) && trace == old(trace) + [MaterializeEvent(cfg.loader, old(nextSpawn))])
        && (old(availableCanvas) == [] ==>
              && c == PoolCanvas(old(nextCanvas)) && canvasOrder == old(canvasOrder)[c := old(NewCanvasOrder())]
              && trace == old(trace) + [MaterializeEvent(cfg.loader, old(nextSpawn)), CanvasCreated(c)])
    {
      view := MaterializedView(cfg.loader, nextSpawn);
      trace := trace + [MaterializeEvent(cfg.loader, nextSpawn)];
      if cfg.loader.isInScene {
        c := MainCanvas;
      } else {
        nextSpawn := nextSpawn + 1;
        if cfg.loader.asset.ownCanvas.Some? {
          c := PrefabCanvas(cfg.loader.asset.ownCanvas.value);
          canvasOrder := canvasOrder[InstanceCanvas(view) := CanvasPool.Order(canvasOrder, c)];
        } else if availableCanvas == [] && config.None? {
          c := MainCanvas;
          halted := true;
        } else {
          c := AllocatePopupCanvas(view);
        }
      }
    }

    /** Joins the pending popup hide while opening a popup: the popup on
        top is disposed when its definition destroys it; with no popup left
        to hide the drain halts. */
    method JoinPendingPopupHide(pending: Option<(Anim, PopupConfig, ViewId)>, onHide: Option<Callback>)
      requires StacksValid() && PoolValid() && !halted
      requires pending.Some? <==> hidePopupHandle.Some? && popupInstances != []
      requires pending.Some? ==>
        pending.value == (hidePopupHandle.value, popupConfigs[|popupConfigs| - 1], popupInstances[|popupInstances| - 1])
      modifies this`popupConfigs, this`popupInstances, this`allocatedCanvas, this`availableCanvas,
               this`closeSubscriptions, this`trace, this`loadedPopups, this`hidePopupHandle, this`halted
      ensures StacksInvariant(popupConfigs, popupInstances, history, currentScreenInstance, hideScreenHandle)
      ensures PoolInvariant(allocatedCanvas, availableCanvas, nextCanvas, nextSpawn)
      ensures halted <==> old(hidePopupHandle).Some? && old(popupInstances) == []
      ensures !halted ==>
        && hidePopupHandle.None? && trace == old(trace) + PopupPendingJoinEvents(pending, onHide)
        && if pending.Some? && pending.value.1.goingBackgroundBehaviour == HideAndDestroy then
             popupConfigs == RemoveFirst(old(popupConfigs), pending.value.1) && popupInstances == RemoveFirst(old(popupInstances), pending.value.2)
           else
             popupConfigs == old(popupConfigs) && popupInstances == old(popupInstances)
    {
      if hidePopupHandle.Some? {
        if popupInstances == [] {
          JoinOrphanedPopupHide(hidePopupHandle.value, onHide);
        } else {
          JoinPopupHide(hidePopupHandle.value, popupConfigs[|popupConfigs| - 1], popupInstances[|popupInstances| - 1], onHide, false);
        }
      }
    }

    /** An Intersection show is joined, then the new popup is listened to,
        pushed on both stacks, and announced. */
    method PushPopup(cfg: PopupConfig, view: ViewId, previous: Option<PopupConfig>, args: Arg, onShow: Option<Callback>)
      requires StacksValid() && |history| > 0
      modifies this`closeSubscriptions, this`popupConfigs, this`popupInstances, this`trace
      ensures StacksInvariant(popupConfigs, popupInstances, history, currentScreenInstance, hideScreenHandle)
      ensures closeSubscriptions == old(closeSubscriptions) + multiset{view}
      ensures popupConfigs == old(popupConfigs) + [cfg] && popupInstances == old(popupInstances) + [view]
      ensures CurrentPopupConfig() == Some(cfg) && CurrentPopupInstance() == Some(view)
      ensures trace == old(trace) + ShowJoin(cfg.animationType, view, args) + PopupOpenedEvents(legacy, cfg, view, previous, onShow)
    {
      trace := trace + ShowJoin(cfg.animationType, view, args);
      closeSubscriptions := closeSubscriptions + multiset{view};
      popupConfigs := popupConfigs + [cfg];
      popupInstances := popupInstances + [view];
      trace := trace + PopupOpenedEvents(legacy, cfg, view, previous, onShow);
    }

    /** The hide phase of PopupTransitTo: nothing without a popup open,
        otherwise the popup on top is hidden by its own policy; an awaited
        hide that throws ends the drain. */
    method HideForegroundPopup(cfg: PopupConfig, stackable: bool, args: Arg, onHide: Option<Callback>)
      requires StacksValid() && PoolValid() && !halted
      modifies this`popupConfigs, this`popupInstances, this`allocatedCanvas, this`availableCanvas,
               this`closeSubscriptions, this`trace, this`loadedPopups, this`hidePopupHandle, this`halted
      ensures StacksInvariant(popupConfigs, popupInstances, history, currentScreenInstance, hideScreenHandle)
      ensures PoolInvariant(allocatedCanvas, availableCanvas, nextCanvas, nextSpawn)
      ensures var top := TopOf(old(popupConfigs), old(popupInstances));
        && (halted <==> TopHideThrows(top, stackable, args))
        && (halted ==>
              && trace == old(trace) + TopHideHaltEvents(legacy, top.value.1, stackable, args, onHide)
              && popupConfigs == old(popupConfigs) && popupInstances == old(popupInstances)
              && hidePopupHandle == old(hidePopupHandle))
      ensures var top := TopOf(old(popupConfigs), old(popupInstances));
        !halted ==>
        && trace == old(trace) + (if top.Some? then PopupHideEvents(legacy, top.value.0, top.value.1, stackable, top.value.0 == cfg, args, onHide) else [])
        && hidePopupHandle == (if PendingPopupHide(legacy, top, stackable, args).Some? then Some(PendingPopupHide(legacy, top, stackable, args).value.0)
                               else old(hidePopupHandle))
        && (top.Some? && top.value.0.animationType == Intersection ==>
              popupConfigs == old(popupConfigs) && popupInstances == old(popupInstances))
        && (top.None? || top.value.0.animationType != Intersection ==>
              && popupConfigs == ConfigsKeptOnOpen(old(popupConfigs), old(popupInstances), stackable)
              && popupInstances == InstancesKeptOnOpen(old(popupConfigs), old(popupInstances), stackable))
      ensures cfg in loadedPopups <==> cfg in old(loadedPopups)
    {
      if popupInstances != [] {
        var top, tv := popupConfigs[|popupConfigs| - 1], popupInstances[|popupInstances| - 1];
        if top.animationType != Intersection {
          HideTopWaiting(cfg, top, tv, stackable, args, onHide);
        } else {
          HideTopIntersecting(top, tv, stackable, args, onHide);
        }
      }
    }

    /** The popup's view is brought in, parented to the current screen, and
        the canvas picked for it sorted above the canvas of the popup on top;
        for a prefab that carries a canvas that is the asset's canvas, and
        the instance's copy keeps the order it was copied with. */
    method PlacePopup(cfg: PopupConfig) returns (view: ViewId)
      requires PoolValid() && !halted && PopupUsable(cfg)
      modifies this`trace, this`nextSpawn, this`allocatedCanvas, this`availableCanvas, this`nextCanvas, this`canvasOrder,
               this`halted, this`parentScreen
      ensures PoolInvariant(allocatedCanvas, availableCanvas, nextCanvas, nextSpawn)
      ensures view == MaterializedView(cfg.loader, old(nextSpawn))
      ensures halted <==> UsesPoolCanvas(cfg) && old(availableCanvas) == [] && config.None?
      ensures !halted ==> parentScreen == old(parentScreen)[view := currentScreenInstance]
      ensures !halted && cfg.loader.isInScene ==>
        canvasOrder == CanvasPool.AssignSortOrder(old(canvasOrder), allocatedCanvas, MainCanvas, CurrentPopupInstance())
      ensures !halted && UsesPoolCanvas(cfg) ==> view in allocatedCanvas && allocatedCanvas[view].PoolCanvas?
      ensures !halted && !cfg.loader.isInScene && cfg.loader.asset.ownCanvas.Some? ==>
        var asset := PrefabCanvas(cfg.loader.asset.ownCanvas.value);
        && canvasOrder == CanvasPool.AssignSortOrder(old(canvasOrder)[InstanceCanvas(view) := CanvasPool.Order(old(canvasOrder), asset)],
                                                     allocatedCanvas, asset, CurrentPopupInstance())
        && CanvasPool.Order(canvasOrder, InstanceCanvas(view)) == CanvasPool.Order(old(canvasOrder), asset)
    {
      var c;
      view, c := MaterializePopup(cfg);
      if halted {
        return;
      }
      parentScreen := parentScreen[view := currentScreenInstance];
      CalculatePopupCanvasSortOrder(c, CurrentPopupInstance());
    }

    /** The popup's show is started (Intersection) or awaited, then the
        pending hide is joined. An awaited show that throws ends the drain
        before the join. */
    method StartPopupShow(cfg: PopupConfig, view: ViewId, pending: Option<(Anim, PopupConfig, ViewId)>, args: Arg, onHide: Option<Callback>)
      requires StacksValid() && PoolValid() && !halted
      requires pending.Some? <==> hidePopupHandle.Some? && popupInstances != []
      requires pending.Some? ==>
        pending.value == (hidePopupHandle.value, popupConfigs[|popupConfigs| - 1], popupInstances[|popupInstances| - 1])
      modifies this`popupConfigs, this`popupInstances, this`allocatedCanvas, this`availableCanvas,
               this`closeSubscriptions, this`trace, this`loadedPopups, this`hidePopupHandle, this`halted
      ensures StacksInvariant(popupConfigs, popupInstances, history, currentScreenInstance, hideScreenHandle)
      ensures PoolInvariant(allocatedCanvas, availableCanvas, nextCanvas, nextSpawn)
      ensures halted <==> AwaitedShowThrows(cfg.animationType, cfg.loader.asset, args) || (old(hidePopupHandle).Some? && old(popupInstances) == [])
      ensures AwaitedShowThrows(cfg.animationType, cfg.loader.asset, args) ==>
        && trace == old(trace) + [Started(Show(view, args))] && hidePopupHandle == old(hidePopupHandle)
        && popupConfigs == old(popupConfigs) && popupInstances == old(popupInstances)
      ensures !halted ==>
        && hidePopupHandle.None? && trace == old(trace) + ShowStart(cfg.animationType, view, args) + PopupPendingJoinEvents(pending, onHide)
        && if pending.Some? && pending.value.1.goingBackgroundBehaviour == HideAndDestroy then
             popupConfigs == RemoveFirst(old(popupConfigs), pending.value.1) && popupInstances == RemoveFirst(old(popupInstances), pending.value.2)
           else
             popupConfigs == old(popupConfigs) && popupInstances == old(popupInstances)
    {
      if AwaitedShowThrows(cfg.animationType, cfg.loader.asset, args) {
        trace := trace + [Started(Show(view, args))];
        halted := true;
        return;
      }
      trace := trace + ShowStart(cfg.animationType, view, args);
      JoinPendingPopupHide(pending, onHide);
    }

    /** The popup's show is started or awaited, the pending hide joined, an
        Intersection show joined, and the popup pushed and announced. */
    method ShowAndPushPopup(cfg: PopupConfig, view: ViewId, pending: Option<(Anim, PopupConfig, ViewId)>, previous: Option<PopupConfig>,
                            args: Arg, onShow: Option<Callback>, onHide: Option<Callback>)
      requires StacksValid() && PoolValid() && !halted && |history| > 0
      requires pending.Some? <==> hidePopupHandle.Some? && popupInstances != []
      requires pending.Some? ==>
        pending.value == (hidePopupHandle.value, popupConfigs[|popupConfigs| - 1], popupInstances[|popupInstances| - 1])
      modifies this`trace, this`allocatedCanvas, this`availableCanvas, this`halted, this`popupConfigs, this`popupInstances,
               this`closeSubscriptions, this`loadedPopups, this`hidePopupHandle
      ensures StacksInvariant(popupConfigs, popupInstances, history, currentScreenInstance, hideScreenHandle)
      ensures PoolInvariant(allocatedCanvas, availableCanvas, nextCanvas, nextSpawn)
      ensures halted <==> AwaitedShowThrows(cfg.animationType, cfg.loader.asset, args) || (old(hidePopupHandle).Some? && old(popupInstances) == [])
      ensures !halted ==>
        && hidePopupHandle.None? && view in closeSubscriptions
        && popupConfigs == (if pending.Some? && pending.value.1.goingBackgroundBehaviour == HideAndDestroy
                            then RemoveFirst(old(popupConfigs), pending.value.1) else old(popupConfigs)) + [cfg]
        && popupInstances == (if pending.Some? && pending.value.1.goingBackgroundBehaviour == HideAndDestroy
                              then RemoveFirst(old(popupInstances), pending.value.2) else old(popupInstances)) + [view]
        && trace == old(trace) + PopupShowEvents(legacy, cfg, view, pending, previous, args, onShow, onHide)
    {
      ghost var t0 := trace;
      StartPopupShow(cfg, view, pending, args, onHide);
      if halted {
        return;
      }
      PushPopup(cfg, view, previous, args, onShow);
      AppendFour(t0, ShowStart(cfg.animationType, view, args), PopupPendingJoinEvents(pending, onHide),
                 ShowJoin(cfg.animationType, view, args), PopupOpenedEvents(legacy, cfg, view, previous, onShow));
    }

    /** The second half of PopupTransitTo, once the asset is known to hold a
        popup view: the view is placed, shown, the pending hide joined and
        the popup pushed. */
    method EnterPopup(cfg: PopupConfig, previous: Option<PopupConfig>, args: Arg, onShow: Option<Callback>, onHide: Option<Callback>)
      requires StacksValid() && PoolValid() && !halted && |history| > 0 && PopupUsable(cfg)
      modifies this`trace, this`nextSpawn, this`allocatedCanvas, this`availableCanvas, this`nextCanvas, this`canvasOrder,
               this`halted, this`parentScreen, this`popupConfigs, this`popupInstances,
               this`closeSubscriptions, this`loadedPopups, this`hidePopupHandle
      ensures StacksValid() && PoolValid()
      ensures halted <==> (UsesPoolCanvas(cfg) && old(availableCanvas) == [] && config.None?)
                          || AwaitedShowThrows(cfg.animationType, cfg.loader.asset, args)
                          || (old(hidePopupHandle).Some? && old(popupInstances) == [])
      ensures !halted ==>
        var view := MaterializedView(cfg.loader, old(nextSpawn));
        var pending := old(PendingPopupJoin());
        && hidePopupHandle.None? && view in parentScreen && parentScreen[view] == currentScreenInstance
        && popupConfigs == ConfigsAfterJoin(old(popupConfigs), pending) + [cfg]
        && popupInstances == InstancesAfterJoin(old(popupInstances), pending) + [view]
        && EndsWith(trace, PopupShowEvents(legacy, cfg, view, pending, previous, args, onShow, onHide))
    {
      var pending := PendingPopupJoin();
      var view := PlacePopup(cfg);
      if halted {
        return;
      }
      ShowAndPushPopup(cfg, view, pending, previous, args, onShow, onHide);
    }

    /** The first half of PopupTransitTo: the popup on top is hidden by
        its policy, then the load is awaited and checked. With no hide left
        over, the hide the second half joins is the one PendingPopupHide
        names, and joining it leaves the stacks ConfigsKeptOnOpen and
        InstancesKeptOnOpen describe. */
    method HideThenAwait(cfg: PopupConfig, loading: bool, stackable: bool, args: Arg, onHide: Option<Callback>) returns (ok: bool)
      requires StacksValid() && PoolValid() && !halted && (loading <==> cfg !in loadedPopups)
      modifies this`popupConfigs, this`popupInstances, this`allocatedCanvas, this`availableCanvas,
               this`closeSubscriptions, this`trace, this`loadedPopups, this`hidePopupHandle, this`halted
      ensures StacksValid() && PoolValid()
      ensures !TopHideThrows(TopOf(old(popupConfigs), old(popupInstances)), stackable, args) ==> cfg in loadedPopups
      ensures ok <==> !halted && PopupUsable(cfg)
      ensures halted <==> TopHideThrows(TopOf(old(popupConfigs), old(popupInstances)), stackable, args) || (legacy && !PopupUsable(cfg))
      ensures !halted && !PopupUsable(cfg) ==> EndsWith(trace, [Logged(AssetFailure(PopupEntity(cfg)))])
      ensures old(hidePopupHandle).None? && !TopHideThrows(TopOf(old(popupConfigs), old(popupInstances)), stackable, args) ==>
        && (hidePopupHandle.Some? ==> popupInstances != [])
        && PendingPopupJoin() == PendingPopupHide(legacy, TopOf(old(popupConfigs), old(popupInstances)), stackable, args)
        && ConfigsAfterJoin(popupConfigs, PendingPopupJoin()) == ConfigsKeptOnOpen(old(popupConfigs), old(popupInstances), stackable)
        && InstancesAfterJoin(popupInstances, PendingPopupJoin()) == InstancesKeptOnOpen(old(popupConfigs), old(popupInstances), stackable)
    {
      HideTopForOpen(cfg, stackable, args, onHide);
      if halted {
        return false;
      }
      ghost var pending := PendingPopupJoin();
      ok := AwaitPopupAsset(cfg, loading);
      assert PendingPopupJoin() == pending;
    }

    /** HideForegroundPopup as the first half of PopupTransitTo relies on
        it: whether it ends the drain, and, with no hide left over, the hide
        the second half joins and the stacks that join leaves. */
    method HideTopForOpen(cfg: PopupConfig, stackable: bool, args: Arg, onHide: Option<Callback>)
      requires StacksValid() && PoolValid() && !halted
      modifies this`popupConfigs, this`popupInstances, this`allocatedCanvas, this`availableCanvas,
               this`closeSubscriptions, this`trace, this`loadedPopups, this`hidePopupHandle, this`halted
      ensures StacksValid() && PoolValid()
      ensures halted <==> TopHideThrows(TopOf(old(popupConfigs), old(popupInstances)), stackable, args)
      ensures cfg in loadedPopups <==> cfg in old(loadedPopups)
      ensures old(hidePopupHandle).None? && !halted ==>
        && (hidePopupHandle.Some? ==> popupInstances != [])
        && PendingPopupJoin() == PendingPopupHide(legacy, TopOf(old(popupConfigs), old(popupInstances)), stackable, args)
        && ConfigsAfterJoin(popupConfigs, PendingPopupJoin()) == ConfigsKeptOnOpen(old(popupConfigs), old(popupInstances), stackable)
        && InstancesAfterJoin(popupInstances, PendingPopupJoin()) == InstancesKeptOnOpen(old(popupConfigs), old(popupInstances), stackable)
    {
      HideForegroundPopup(cfg, stackable, args, onHide);
      if old(hidePopupHandle).None? && !halted {
        HiddenTopJoinsAsKept(legacy, old(popupConfigs), old(popupInstances), stackable, args, popupConfigs, popupInstances, hidePopupHandle);
      }
    }

    /** PopupTransitTo once the load of the popup has been started
        (`loading`). */
    method PopupTransitFrom(cfg: PopupConfig, loading: bool, args: Arg, onShow: Option<Callback>, onHide: Option<Callback>)
      requires StacksValid() && PoolValid() && !halted && |history| > 0 && (loading <==> cfg !in loadedPopups)
      modifies this`trace, this`nextSpawn, this`allocatedCanvas, this`availableCanvas, this`nextCanvas, this`canvasOrder,
               this`halted, this`parentScreen, this`popupConfigs, this`popupInstances,
               this`closeSubscriptions, this`loadedPopups, this`hidePopupHandle
      ensures StacksValid() && PoolValid()
      ensures legacy && !PopupUsable(cfg) ==> halted
      ensures !halted && !PopupUsable(cfg) ==> EndsWith(trace, [Logged(AssetFailure(PopupEntity(cfg)))])
      ensures TopHideThrows(TopOf(old(popupConfigs), old(popupInstances)), old(CurrentScreenConfig()).value.allowStackablePopups, args) ==> halted
      ensures PopupUsable(cfg) && AwaitedShowThrows(cfg.animationType, cfg.loader.asset, args) ==> halted
      ensures (old(hidePopupHandle).None? && PopupUsable(cfg) && (UsesPoolCanvas(cfg) ==> config.Some?)
               && !TopHideThrows(TopOf(old(popupConfigs), old(popupInstances)), old(CurrentScreenConfig()).value.allowStackablePopups, args)
               && !AwaitedShowThrows(cfg.animationType, cfg.loader.asset, args)) ==> !halted
      ensures !halted && PopupUsable(cfg) ==>
        var view := MaterializedView(cfg.loader, old(nextSpawn));
        && hidePopupHandle.None? && CurrentPopupConfig() == Some(cfg) && CurrentPopupInstance() == Some(view)
        && view in parentScreen && parentScreen[view] == currentScreenInstance
      ensures old(hidePopupHandle).None? && !halted && PopupUsable(cfg) ==>
        var stackable := old(CurrentScreenConfig()).value.allowStackablePopups;
        var view := MaterializedView(cfg.loader, old(nextSpawn));
        && popupConfigs == ConfigsKeptOnOpen(old(popupConfigs), old(popupInstances), stackable) + [cfg]
        && popupInstances == InstancesKeptOnOpen(old(popupConfigs), old(popupInstances), stackable) + [view]
        && EndsWith(trace, PopupShowEvents(legacy, cfg, view, PendingPopupHide(legacy, TopOf(old(popupConfigs), old(popupInstances)), stackable, args),
                                           old(CurrentPopupConfig()), args, onShow, onHide))
    {
      var previous := CurrentPopupConfig();
      var stackable := CurrentScreenConfig().value.allowStackablePopups;
      var ok := HideThenAwait(cfg, loading, stackable, args, onHide);
      if ok {
        EnterPopup(cfg, previous, args, onShow, onHide);
      }
    }

    /** PopupTransitTo: starts the load of the popup, then transits. */
    method PopupTransitTo(cfg: PopupConfig, args: Arg, onShow: Option<Callback>, onHide: Option<Callback>)
      requires StacksValid() && PoolValid() && !halted && |history| > 0
      modifies this`trace, this`nextSpawn, this`allocatedCanvas, this`availableCanvas, this`nextCanvas, this`canvasOrder,
               this`halted, this`parentScreen, this`popupConfigs, this`popupInstances,
               this`closeSubscriptions, this`loadedPopups, this`hidePopupHandle
      ensures StacksValid() && PoolValid()
      ensures legacy && !PopupUsable(cfg) ==> halted
      ensures !halted && !PopupUsable(cfg) ==> EndsWith(trace, [Logged(AssetFailure(PopupEntity(cfg)))])
      ensures TopHideThrows(TopOf(old(popupConfigs), old(popupInstances)), old(CurrentScreenConfig()).value.allowStackablePopups, args) ==> halted
      ensures PopupUsable(cfg) && AwaitedShowThrows(cfg.animationType, cfg.loader.asset, args) ==> halted
      ensures (old(hidePopupHandle).None? && PopupUsable(cfg) && (UsesPoolCanvas(cfg) ==> config.Some?)
               && !TopHideThrows(TopOf(old(popupConfigs), old(popupInstances)), old(CurrentScreenConfig()).value.allowStackablePopups, args)
               && !AwaitedShowThrows(cfg.animationType, cfg.loader.asset, args)) ==> !halted
      ensures !halted && PopupUsable(cfg) ==>
        var view := MaterializedView(cfg.loader, old(nextSpawn));
        && hidePopupHandle.None? && CurrentPopupConfig() == Some(cfg) && CurrentPopupInstance() == Some(view)
        && view in parentScreen && parentScreen[view] == currentScreenInstance
      ensures old(hidePopupHandle).None? && !halted && PopupUsable(cfg) ==>
        var stackable := old(CurrentScreenConfig()).value.allowStackablePopups;
        var view := MaterializedView(cfg.loader, old(nextSpawn));
        && popupConfigs == ConfigsKeptOnOpen(old(popupConfigs), old(popupInstances), stackable) + [cfg]
        && popupInstances == InstancesKeptOnOpen(old(popupConfigs), old(popupInstances), stackable) + [view]
        && EndsWith(trace, PopupShowEvents(legacy, cfg, view, PendingPopupHide(legacy, TopOf(old(popupConfigs), old(popupInstances)), stackable, args),
                                           old(CurrentPopupConfig()), args, onShow, onHide))
    {
      var loading := StartPopupLoad(cfg);
      PopupTransitFrom(cfg, loading, args, onShow, onHide);
    }

    // ---------------------------------------------------------- the drain

    /** MoveBackOp: when CanMoveBack holds, a transition back to the screen
        below the current one that pops the history; nothing otherwise. A
        hide of the screen or its popups, or a show of the screen below,
        that throws on the move-back arguments ends the drain. */
    method MoveBackOp(args: Arg, onShow: Option<Callback>, onHide: Option<Callback>)
      requires StacksValid() && PoolValid() && ScreenValid() && !halted
      modifies this`preloadQueue, this`trace, this`loadedScreens, this`hideScreenHandle, this`halted,
               this`popupConfigs, this`popupInstances, this`allocatedCanvas, this`availableCanvas,
               this`closeSubscriptions, this`loadedPopups, this`hidePopupHandle,
               this`nextSpawn, this`currentScreenInstance, this`history, this`parentScreen, this`currentScreenDestroyed
      ensures StacksValid() && PoolValid() && ScreenValid()
      ensures !CanMoveBack(old(history)) ==> !halted && trace == old(trace) && history == old(history)
      ensures CanMoveBack(old(history)) && !halted && ScreenUsable(old(history)[|old(history)| - 2].entity) ==>
        var back := old(history)[|old(history)| - 2];
        && history == old(history)[..|old(history)| - 1]
        && CurrentScreenConfig() == Some(back.entity)
        && currentScreenInstance == Some(MaterializedView(back.entity.loader, old(nextSpawn)))
        && EndsWith(trace, ScreenShowEvents(legacy, back.entity, MaterializedView(back.entity.loader, old(nextSpawn)),
                                            MaterializeEvent(back.entity.loader, old(nextSpawn)),
                                            PendingScreenHide(legacy, old(CurrentScreenConfig()), old(currentScreenInstance), old(hideScreenHandle),
                                                              MoveBackArgs(old(history), args)),
                                            old(CurrentScreenConfig()), MoveBackArgs(old(history), args), onShow, onHide))
      ensures CanMoveBack(old(history)) && !ScreenUsable(old(history)[|old(history)| - 2].entity) ==> history == old(history)
      ensures !CanMoveBack(old(history)) ==> unchanged(this)
      ensures halted ==> history == old(history) && currentScreenInstance == old(currentScreenInstance)
      ensures CanMoveBack(old(history))
              && LeaveScreenThrows(old(CurrentScreenConfig()), old(currentScreenDestroyed), old(popupConfigs), old(popupInstances), MoveBackArgs(old(history), args)) ==>
        halted
      ensures CanMoveBack(old(history)) && ScreenUsable(old(history)[|old(history)| - 2].entity)
              && AwaitedShowThrows(old(history)[|old(history)| - 2].entity.animationType,
                                   old(history)[|old(history)| - 2].entity.loader.asset, MoveBackArgs(old(history), args)) ==>
        halted
    {
      if CanMoveBack(history) {
        var back := history[|history| - 2];
        ScreenTransitTo(back.entity, true, MoveBackArgs(history, args), onShow, onHide);
      }
    }

    /** One command of the drain: a Trigger of a screen transits to it, a
        Trigger of a popup opens it over a current screen that allows
        popups, MoveBack and ClosePopup run their operations; any other
        command is dropped. */
    method RunCommand(cmd: ScreenFlowCommand)
      requires StacksValid() && PoolValid() && ScreenValid() && !halted
      modifies this`preloadQueue, this`trace, this`loadedScreens, this`hideScreenHandle, this`halted,
               this`popupConfigs, this`popupInstances, this`allocatedCanvas, this`availableCanvas,
               this`closeSubscriptions, this`loadedPopups, this`hidePopupHandle,
               this`nextSpawn, this`currentScreenInstance, this`history, this`parentScreen, this`currentScreenDestroyed,
               this`nextCanvas, this`canvasOrder
      ensures StacksValid() && PoolValid() && ScreenValid()
      ensures !Admission.Yields(cmd, old(CurrentScreenConfig())) ==> !halted && trace == old(trace) && history == old(history)
      ensures cmd.kind.Trigger? && cmd.target.EntityTarget? && cmd.target.entity.ScreenEntity? && !halted
              && ScreenUsable(cmd.target.entity.screen) ==>
        CurrentScreenConfig() == Some(cmd.target.entity.screen)
      ensures cmd.kind.Trigger? && cmd.target.EntityTarget? && cmd.target.entity.PopupEntity? && !halted
              && PopupUsable(cmd.target.entity.popup) && Admission.Yields(cmd, old(CurrentScreenConfig())) ==>
        CurrentPopupConfig() == Some(cmd.target.entity.popup) && history == old(history)
      ensures cmd.kind.MoveBack? && !CanMoveBack(old(history)) ==> unchanged(this)
      ensures cmd.kind.MoveBack? && CanMoveBack(old(history)) && !halted && ScreenUsable(old(history)[|old(history)| - 2].entity) ==>
        && history == old(history)[..|old(history)| - 1]
        && CurrentScreenConfig() == Some(old(history)[|old(history)| - 2].entity)
      ensures cmd.kind.MoveBack? && CanMoveBack(old(history))
              && LeaveScreenThrows(old(CurrentScreenConfig()), old(currentScreenDestroyed), old(popupConfigs), old(popupInstances), MoveBackArgs(old(history), cmd.args)) ==>
        halted
      ensures cmd.kind.MoveBack? && CanMoveBack(old(history)) && ScreenUsable(old(history)[|old(history)| - 2].entity)
              && AwaitedShowThrows(old(history)[|old(history)| - 2].entity.animationType,
                                   old(history)[|old(history)| - 2].entity.loader.asset, MoveBackArgs(old(history), cmd.args)) ==>
        halted
      ensures cmd.kind.ClosePopup? && (ClosedView(cmd.target).None? || ClosedView(cmd.target).value !in old(popupInstances)) ==>
        unchanged(this)
      ensures cmd.kind.ClosePopup? && ClosePopupThrows(old(popupConfigs), old(popupInstances), ClosedView(cmd.target), cmd.args) ==>
        halted
      ensures cmd.kind.ClosePopup? && old(hidePopupHandle).None?
              && !ClosePopupThrows(old(popupConfigs), old(popupInstances), ClosedView(cmd.target), cmd.args) ==>
        var target := ClosedView(cmd.target);
        && !halted && history == old(history)
        && popupInstances == (if target.Some? then RemoveFirst(old(popupInstances), target.value) else old(popupInstances))
        && popupConfigs == (if target.Some? then RemoveConfigOf(old(popupConfigs), old(popupInstances), target.value) else old(popupConfigs))
        && trace == old(trace) + ClosePopupEvents(legacy, old(popupConfigs), old(popupInstances), target, cmd.args, cmd.onShow, cmd.onHide)
    {
      if cmd.kind.Trigger? {
        RunTrigger(cmd);
      } else if cmd.kind.MoveBack? {
        MoveBackOp(cmd.args, cmd.onShow, cmd.onHide);
      } else {
        ClosePopupOp(ClosedView(cmd.target), cmd.args, cmd.onShow, cmd.onHide);
      }
    }

    /** RunCommand for a Trigger: a screen is transited to, a popup only
        over a current screen that allows popups. */
    method RunTrigger(cmd: ScreenFlowCommand)
      requires StacksValid() && PoolValid() && ScreenValid() && !halted && cmd.kind.Trigger?
      modifies this`preloadQueue, this`trace, this`loadedScreens, this`hideScreenHandle, this`halted,
               this`popupConfigs, this`popupInstances, this`allocatedCanvas, this`availableCanvas,
               this`closeSubscriptions, this`loadedPopups, this`hidePopupHandle,
               this`nextSpawn, this`currentScreenInstance, this`history, this`parentScreen, this`currentScreenDestroyed,
               this`nextCanvas, this`canvasOrder
      ensures StacksValid() && PoolValid() && ScreenValid()
      ensures !Admission.Yields(cmd, old(CurrentScreenConfig())) ==> !halted && trace == old(trace) && history == old(history)
      ensures cmd.target.EntityTarget? && cmd.target.entity.ScreenEntity? && !halted && ScreenUsable(cmd.target.entity.screen) ==>
        CurrentScreenConfig() == Some(cmd.target.entity.screen)
      ensures cmd.target.EntityTarget? && cmd.target.entity.PopupEntity? && !halted
              && PopupUsable(cmd.target.entity.popup) && Admission.Yields(cmd, old(CurrentScreenConfig())) ==>
        CurrentPopupConfig() == Some(cmd.target.entity.popup) && history == old(history)
    {
      match cmd.target
      case EntityTarget(ScreenEntity(s)) =>
        ScreenTransitTo(s, false, cmd.args, cmd.onShow, cmd.onHide);
      case EntityTarget(PopupEntity(p)) =>
        if |history| > 0 && CurrentScreenConfig().value.allowPopups {
          PopupTransitTo(p, cmd.args, cmd.onShow, cmd.onHide);
        }
      case _ =>
    }

    /** ProcessCommandQueue: the drain takes the commands off the queue in
        order and runs each. It either empties the queue and releases the
        drain handle, or halts with the handle still held and the commands
        it did not reach still queued. */
    method ProcessCommandQueue()
      requires Valid() && transitionRoutine && !halted
      modifies this`commandQueue, this`transitionRoutine,
               this`preloadQueue, this`trace, this`loadedScreens, this`hideScreenHandle, this`halted,
               this`popupConfigs, this`popupInstances, this`allocatedCanvas, this`availableCanvas,
               this`closeSubscriptions, this`loadedPopups, this`hidePopupHandle,
               this`nextSpawn, this`currentScreenInstance, this`history, this`parentScreen, this`currentScreenDestroyed,
               this`nextCanvas, this`canvasOrder
      ensures Valid()
      ensures !halted <==> !IsTransiting()
      ensures !halted ==> commandQueue == []
      ensures halted ==> |commandQueue| < |old(commandQueue)| && commandQueue == old(commandQueue)[|old(commandQueue)| - |commandQueue|..]
    {
      while commandQueue != [] && !halted
        invariant StacksValid() && PoolValid() && ScreenValid() && transitionRoutine
        invariant |commandQueue| <= |old(commandQueue)| && commandQueue == old(commandQueue)[|old(commandQueue)| - |commandQueue|..]
        invariant halted ==> |commandQueue| < |old(commandQueue)|
        decreases |commandQueue|
      {
        var next := commandQueue[0];
        commandQueue := commandQueue[1..];
        RunCommand(next);
      }
      if !halted {
        transitionRoutine := false;
      }
    }

    // ------------------------------------------------------ initialisation

    /** One registration: a taken name is logged; otherwise the entity is
        registered and, for a scene entity, its placed view set as its asset. */
    method RegisterOne(r: Registry.Registration)
      modifies this`lookup, this`trace
      ensures lookup == Registry.AddIfAbsent(old(lookup), r)
      ensures trace == old(trace) + Registry.RegistrationEntry(old(lookup), r)
    {
      if r.entity.Name() in lookup {
        trace := trace + [Logged(DuplicateEntity(r.entity.Name()))];
      } else {
        lookup := lookup[r.entity.Name() := r.entity];
        if r.placed.Some? {
          trace := trace + [SceneAssetSet(r.entity, r.placed.value)];
        }
      }
    }

    /** The registration loops of Initialize, over the registrations
        `rs`: the lookup is cleared, then each entity is registered by name
        unless the name is taken, which is logged; a registered scene entity
        gets its placed view as its asset. */
    method RegisterAll(rs: seq<Registry.Registration>)
      modifies this`lookup, this`trace
      ensures lookup == Registry.Register(map[], rs)
      ensures trace == old(trace) + Registry.RegistrationLog(map[], rs)
    {
      lookup := map[];
      var i := 0;
      while i < |rs|
        invariant 0 <= i <= |rs|
        invariant lookup == Registry.Register(map[], rs[..i])
        invariant trace == old(trace) + Registry.RegistrationLog(map[], rs[..i])
      {
        Registry.RegisterStep(map[], rs, i);
        RegisterOne(rs[i]);
        i := i + 1;
      }
      assert rs[..|rs|] == rs;
    }

    /** The configured screens and popups, then the scene screens and
        popups, are registered. */
    method RegisterEntities()
      requires config.Some?
      modifies this`lookup, this`trace
      ensures var rs := Registry.Registrations(config.value, screensInScene, popupsInScene);
        && lookup == Registry.Register(map[], rs)
        && trace == old(trace) + Registry.RegistrationLog(map[], rs)
    {
      RegisterAll(Registry.Registrations(config.value, screensInScene, popupsInScene));
    }

    /** Preload: the queue of definitions to preload is rebuilt and the
        preload coroutine started. */
    method Preload()
      requires config.Some?
      modifies this`preloadQueue, this`preloadRoutine
      ensures preloadQueue == Preloading.PreloadCandidates(config.value) && IsPreloading()
    {
      preloadQueue := Preloading.PreloadCandidates(config.value);
      preloadRoutine := true;
    }

    /** The drain after the start screen's trigger, which is sent only
        when there is a start screen. */
    function StartTriggered(d: Admission.Drain, current: Option<ScreenConfig>): Admission.Drain {
      if startScreen.Some? then
        Admission.Admit(d, TriggerCommand(Some(ScreenEntity(startScreen.value)), Null, None, None), !legacy,
                        current, finishedCoroutineHandle)
      else d
    }

    /** The start screen's trigger, sent when there is a start screen. */
    method SendStartTrigger()
      requires Valid()
      modifies this`commandQueue, this`transitionRoutine, this`halted
      ensures Valid()
      ensures DrainState() == StartTriggered(old(DrainState()), old(CurrentScreenConfig()))
    {
      if startScreen.Some? {
        SendTrigger(Some(ScreenEntity(startScreen.value)));
      }
    }

    /** The start screen's trigger is sent, then preloading starts. */
    method TriggerStartThenPreload()
      requires Valid() && config.Some?
      modifies this`commandQueue, this`transitionRoutine, this`halted, this`preloadQueue, this`preloadRoutine
      ensures Valid()
      ensures preloadQueue == Preloading.PreloadCandidates(config.value) && IsPreloading()
      ensures DrainState() == StartTriggered(old(DrainState()), old(CurrentScreenConfig()))
    {
      SendStartTrigger();
      ghost var d := DrainState();
      Preload();
      assert DrainState() == d;
    }

    /** The older engine's order: preloading starts, then the start
        screen's trigger is sent. */
    method PreloadThenTriggerStart()
      requires Valid() && config.Some?
      modifies this`commandQueue, this`transitionRoutine, this`halted, this`preloadQueue, this`preloadRoutine
      ensures Valid()
      ensures preloadQueue == Preloading.PreloadCandidates(config.value) && IsPreloading()
      ensures DrainState() == StartTriggered(old(DrainState()), old(CurrentScreenConfig()))
    {
      Preload();
      SendStartTrigger();
    }

    /** What Initialize does with a flow configuration: the entities are
        registered, the start screen's trigger sent when there is one, and
        preloading started. */
    method InitializeConfigured()
      requires Valid() && config.Some?
      modifies this`lookup, this`trace, this`commandQueue, this`transitionRoutine, this`halted, this`preloadQueue, this`preloadRoutine
      ensures Valid()
      ensures var rs := Registry.Registrations(config.value, screensInScene, popupsInScene);
        && lookup == Registry.Register(map[], rs)
        && trace == old(trace) + Registry.RegistrationLog(map[], rs)
      ensures preloadQueue == Preloading.PreloadCandidates(config.value) && IsPreloading()
      ensures DrainState() == StartTriggered(old(DrainState()), old(CurrentScreenConfig()))
    {
      ghost var d, current := DrainState(), CurrentScreenConfig();
      RegisterEntities();
      assert Valid() && DrainState() == d && CurrentScreenConfig() == current;
      ghost var registered, logged := lookup, trace;
      TriggerStartThenPreload();
      assert lookup == registered && trace == logged;
    }

    /** What the older engine's Start does with a flow configuration: the
        entities are registered, preloading started, and the start screen's
        trigger sent when there is one. */
    method InitializeLegacy()
      requires Valid() && config.Some?
      modifies this`lookup, this`trace, this`commandQueue, this`transitionRoutine, this`halted, this`preloadQueue, this`preloadRoutine
      ensures Valid()
      ensures var rs := Registry.Registrations(config.value, screensInScene, popupsInScene);
        && lookup == Registry.Register(map[], rs)
        && trace == old(trace) + Registry.RegistrationLog(map[], rs)
      ensures preloadQueue == Preloading.PreloadCandidates(config.value) && IsPreloading()
      ensures DrainState() == StartTriggered(old(DrainState()), old(CurrentScreenConfig()))
    {
      ghost var d, current := DrainState(), CurrentScreenConfig();
      RegisterEntities();
      assert Valid() && DrainState() == d && CurrentScreenConfig() == current;
      ghost var registered, logged := lookup, trace;
      PreloadThenTriggerStart();
      assert lookup == registered && trace == logged;
    }

    /** Initialize: without a flow configuration it only logs. */
    method Initialize()
      requires Valid()
      modifies this`lookup, this`trace, this`commandQueue, this`transitionRoutine, this`halted, this`preloadQueue, this`preloadRoutine
      ensures Valid()
      ensures config.None? ==>
        && trace == old(trace) + [Logged(ConfigIsNull)] && lookup == old(lookup)
        && DrainState() == old(DrainState()) && preloadQueue == old(preloadQueue) && preloadRoutine == old(preloadRoutine)
      ensures config.Some? ==>
        var rs := Registry.Registrations(config.value, screensInScene, popupsInScene);
        && lookup == Registry.Register(map[], rs)
        && trace == old(trace) + Registry.RegistrationLog(map[], rs)
        && preloadQueue == Preloading.PreloadCandidates(config.value) && IsPreloading()
        && DrainState() == StartTriggered(old(DrainState()), old(CurrentScreenConfig()))
    {
      if config.None? {
        trace := trace + [Logged(ConfigIsNull)];
      } else {
        InitializeConfigured();
      }
    }

    /** Start: the core engine initialises when asked to on start; the
        older engine always does, building the preload queue before it
        sends the start screen's trigger. */
    method Start()
      requires Valid()
      modifies this`lookup, this`trace, this`commandQueue, this`transitionRoutine, this`halted, this`preloadQueue, this`preloadRoutine
      ensures Valid()
      ensures !legacy && !autoInitializeOnStart ==>
        trace == old(trace) && lookup == old(lookup) && DrainState() == old(DrainState()) && preloadQueue == old(preloadQueue)
      ensures (legacy || autoInitializeOnStart) && config.None? ==>
        trace == old(trace) + [Logged(ConfigIsNull)] && lookup == old(lookup) && DrainState() == old(DrainState())
      ensures (legacy || autoInitializeOnStart) && config.Some? ==>
        var rs := Registry.Registrations(config.value, screensInScene, popupsInScene);
        && lookup == Registry.Register(map[], rs)
        && trace == old(trace) + Registry.RegistrationLog(map[], rs)
        && preloadQueue == Preloading.PreloadCandidates(config.value) && IsPreloading()
        && DrainState() == StartTriggered(old(DrainState()), old(CurrentScreenConfig()))
    {
      if legacy {
        if config.None? {
          trace := trace + [Logged(ConfigIsNull)];
        } else {
          InitializeLegacy();
        }
      } else if autoInitializeOnStart {
        Initialize();
      }
    }
  }
}
