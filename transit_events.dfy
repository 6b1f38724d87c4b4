/**
 * The events each phase of a transition appends to the trace, as functions
 * of the definitions, views and argument involved, and the orderings they
 * guarantee: what a Wait transition awaits before going on, what an
 * Intersection transition lets overlap, and that a view is disposed, and
 * the callbacks fire, only after the animations they depend on are joined.
 */
module TransitEvents {
  import opened Wrappers
  import opened UIEntities
  import opened Trace
  import opened Stacks
  import ScreenViews

  /** The hide the flow asks of a view: RequestHide, or the bare Hide the
      older engine calls. */
  function HideAnim(legacy: bool, v: ViewId, args: Arg): Anim {
    if legacy then Hide(v, args) else RequestHide(v, args)
  }

  /** Whether a Show of a view built from `asset` throws: a typed view's
      Show(object) fails where DispatchOf says Throw, which is on a null
      argument. */
  predicate ShowThrows(asset: LoadedAsset, args: Arg) {
    && asset.ViewAsset? && asset.viewArgs.Typed?
    && ScreenViews.DispatchOf(asset.viewArgs.showTypes, args) == ScreenViews.Throw
  }

  /** Whether the hide the flow asks of such a view throws: RequestHide
      awaits Hide(object), which fails the same way, and so does the bare
      Hide of the older engine. */
  predicate HideThrows(asset: LoadedAsset, args: Arg) {
    && asset.ViewAsset? && asset.viewArgs.Typed?
    && ScreenViews.DispatchOf(asset.viewArgs.hideTypes, args) == ScreenViews.Throw
  }

  /** A typed view fails on a null argument and on no other; a view that
      takes any argument never fails. */
  lemma ThrowsExactlyOnNull(asset: LoadedAsset, args: Arg)
    requires asset.ViewAsset?
    ensures ShowThrows(asset, args) <==> asset.viewArgs.Typed? && args.Null?
    ensures HideThrows(asset, args) <==> asset.viewArgs.Typed? && args.Null?
  {
  }

  /** An awaited Show that throws ends the coroutine awaiting it; a Show
      started under Intersection fails in a coroutine of its own. */
  predicate AwaitedShowThrows(policy: AnimationType, asset: LoadedAsset, args: Arg) {
    policy != Intersection && ShowThrows(asset, args)
  }

  /** The same for an awaited hide. */
  predicate AwaitedHideThrows(policy: AnimationType, asset: LoadedAsset, args: Arg) {
    policy != Intersection && HideThrows(asset, args)
  }

  /** The first event of a disposal: the view is deactivated when it lives
      in the scene and destroyed otherwise. */
  function DisposeMark(inScene: bool, v: ViewId): Event {
    if inScene then Deactivated(v) else Destroyed(v)
  }

  predicate PopupUnloads(cfg: PopupConfig, forceDontUnload: bool) {
    !cfg.loader.isInScene && !cfg.loader.dontUnloadAfterLoad && !forceDontUnload
  }

  /** DisposePopupFromHide, seen from the outside: the view is deactivated
      or destroyed, and a destroyed view's asset is unloaded unless its
      definition or the caller says not to. */
  function PopupDisposeEvents(cfg: PopupConfig, v: ViewId, forceDontUnload: bool): (r: seq<Event>)
    ensures r != [] && r[0] == DisposeMark(cfg.loader.isInScene, v)
    ensures Quiet(r)
    ensures Unloaded(PopupEntity(cfg)) in r <==> PopupUnloads(cfg, forceDontUnload)
  {
    if cfg.loader.isInScene then [Deactivated(v)]
    else [Destroyed(v)] + (if PopupUnloads(cfg, forceDontUnload) then [Unloaded(PopupEntity(cfg))] else [])
  }

  predicate ScreenUnloads(cfg: ScreenConfig) {
    !cfg.loader.isInScene && !cfg.loader.dontUnloadAfterLoad
  }

  /** What disposing a hidden screen does to its view and its asset. */
  function ScreenDisposeEvents(cfg: ScreenConfig, v: ViewId): (r: seq<Event>)
    ensures r != [] && r[0] == DisposeMark(cfg.loader.isInScene, v)
    ensures Quiet(r)
    ensures Unloaded(ScreenEntity(cfg)) in r <==> ScreenUnloads(cfg)
  {
    if cfg.loader.isInScene then [Deactivated(v)]
    else [Destroyed(v)] + (if ScreenUnloads(cfg) then [Unloaded(ScreenEntity(cfg))] else [])
  }

  // ---------------------------------------------------------------- assets

  /** The loaded asset holds a screen view. */
  predicate ScreenUsable(cfg: ScreenConfig) {
    cfg.loader.asset.ViewAsset?
  }

  /** The loaded asset holds a popup view. */
  predicate PopupUsable(cfg: PopupConfig) {
    cfg.loader.asset.ViewAsset? && cfg.loader.asset.isPopupView
  }

  /** What the asset check of the core engine logs when it gives up: a
      failed load, or an asset without the expected view. */
  function AssetFailure(e: Entity): LogEntry {
    if e.Loader().asset.NoAsset? then LoadFailed(e) else NoViewComponent(e)
  }

  /** The view a transition brings in: the scene-placed view itself, or a
      new copy of the prefab with spawn number `k`. */
  function MaterializedView(loader: AssetLoaderConfig, k: nat): ViewId
    requires loader.asset.ViewAsset?
  {
    if loader.isInScene then Placed(loader.asset.prefab) else Spawned(k)
  }

  /** Bringing that view in: activating the placed view, or instantiating
      the prefab. */
  function MaterializeEvent(loader: AssetLoaderConfig, k: nat): Event
    requires loader.asset.ViewAsset?
  {
    if loader.isInScene then Activated(Placed(loader.asset.prefab)) else Instantiated(Spawned(k), Placed(loader.asset.prefab))
  }

  /** A popup view is drawn on a canvas of the pool when the flow
      instantiates it from a prefab that has no canvas of its own. */
  predicate UsesPoolCanvas(cfg: PopupConfig)
    requires cfg.loader.asset.ViewAsset?
  {
    !cfg.loader.isInScene && cfg.loader.asset.ownCanvas.None?
  }

  // ---------------------------------------------------------------- popups

  /** The show of a view coming in: awaited, or started under
      Intersection. */
  function ShowStart(policy: AnimationType, view: ViewId, args: Arg): seq<Event> {
    if policy == Intersection then [Started(Show(view, args))] else Awaited(Show(view, args))
  }

  /** Intersection: the join of that show. */
  function ShowJoin(policy: AnimationType, view: ViewId, args: Arg): seq<Event> {
    if policy == Intersection then [Joined(Show(view, args))] else []
  }


  /** The popup behind a closed one is shown again when its definition hid
      it on going to the background. */
  predicate Reshows(behind: Option<(PopupConfig, ViewId)>) {
    behind.Some? &&
    (behind.value.0.goingBackgroundBehaviour == JustHide || behind.value.0.goingBackgroundBehaviour == HideAndDestroy)
  }

  function BehindView(behind: Option<(PopupConfig, ViewId)>): Option<ViewId> {
    if behind.Some? then Some(behind.value.1) else None
  }

  /** ClosePopupOp on a popup below the top: it is disposed at once. */
  function CloseBelowEvents(cfg: PopupConfig, v: ViewId, behind: Option<(PopupConfig, ViewId)>,
                            onHide: Option<Callback>, onShow: Option<Callback>): seq<Event> {
    CallbackEvents(onHide, Some(v)) + PopupDisposeEvents(cfg, v, false) + CallbackEvents(onShow, BehindView(behind))
  }

  /** Joining a pending popup hide `h`: the join, the hide callback on the
      popup then on top, and its disposal (always when closing, only for
      HideAndDestroy when opening another popup). */
  function PopupHideJoinEvents(h: Anim, cur: PopupConfig, cv: ViewId, onHide: Option<Callback>, always: bool): seq<Event> {
    [Joined(h)] + CallbackEvents(onHide, Some(cv))
    + (if always || cur.goingBackgroundBehaviour == HideAndDestroy then PopupDisposeEvents(cur, cv, false) else [])
  }

  /** Closing the popup on top, first step: Wait awaits its hide and
      disposes it; Intersection starts the hide. */
  function CloseTopHide(legacy: bool, cfg: PopupConfig, v: ViewId, args: Arg, onHide: Option<Callback>): seq<Event> {
    if cfg.animationType != Intersection then
      Awaited(HideAnim(legacy, v, args)) + CallbackEvents(onHide, Some(v)) + PopupDisposeEvents(cfg, v, false)
    else
      [Started(HideAnim(legacy, v, args))]
  }

  /** The show of the popup behind, awaited or started, when it is shown
      again. */
  function ReshowStart(cfg: PopupConfig, behind: Option<(PopupConfig, ViewId)>, args: Arg): seq<Event> {
    if !Reshows(behind) then []
    else if cfg.animationType != Intersection then Awaited(Show(behind.value.1, args))
    else [Started(Show(behind.value.1, args))]
  }

  /** Intersection: the join of the closed popup's hide and its disposal. */
  function CloseTopJoin(legacy: bool, cfg: PopupConfig, v: ViewId, args: Arg, onHide: Option<Callback>): seq<Event> {
    if cfg.animationType != Intersection then []
    else PopupHideJoinEvents(HideAnim(legacy, v, args), cfg, v, onHide, true)
  }

  /** Intersection: the join of the show of the popup behind. */
  function ReshowJoin(cfg: PopupConfig, behind: Option<(PopupConfig, ViewId)>, args: Arg): seq<Event> {
    if Reshows(behind) && cfg.animationType == Intersection then [Joined(Show(behind.value.1, args))] else []
  }

  /** ClosePopupOp on the popup on top, with no hide handle left over:
      Wait awaits the hide, disposes the popup and then awaits the show of
      the popup behind; Intersection starts both, then joins the hide,
      disposes the popup and joins the show. The show callback comes
      last. */
  function CloseTopEvents(legacy: bool, cfg: PopupConfig, v: ViewId, behind: Option<(PopupConfig, ViewId)>, args: Arg,
                          onHide: Option<Callback>, onShow: Option<Callback>): seq<Event> {
    CloseTopHide(legacy, cfg, v, args, onHide) + ReshowStart(cfg, behind, args)
    + CloseTopJoin(legacy, cfg, v, args, onHide) + ReshowJoin(cfg, behind, args)
    + CallbackEvents(onShow, BehindView(behind))
  }

  /** Closing the popup on top halts under Wait when its awaited hide
      throws, or when the awaited reshow of the popup behind throws. */
  predicate CloseTopThrows(cfg: PopupConfig, behind: Option<(PopupConfig, ViewId)>, args: Arg) {
    || AwaitedHideThrows(cfg.animationType, cfg.loader.asset, args)
    || (Reshows(behind) && AwaitedShowThrows(cfg.animationType, behind.value.0.loader.asset, args))
  }

  /** What a close of the popup on top that throws leaves in the trace:
      the hide that threw, or the completed hide and disposal followed by
      the reshow that threw. */
  function CloseTopHaltEvents(legacy: bool, cfg: PopupConfig, v: ViewId, behind: Option<(PopupConfig, ViewId)>, args: Arg,
                              onHide: Option<Callback>): seq<Event>
    requires CloseTopThrows(cfg, behind, args)
  {
    if AwaitedHideThrows(cfg.animationType, cfg.loader.asset, args) then [Started(HideAnim(legacy, v, args))]
    else CloseTopHide(legacy, cfg, v, args, onHide) + [Started(Show(behind.value.1, args))]
  }

  /** Under Wait nothing is joined: the close is the hide, the reshow and
      the show callback. */
  lemma CloseTopWaitEvents(legacy: bool, cfg: PopupConfig, v: ViewId, behind: Option<(PopupConfig, ViewId)>, args: Arg,
                           onHide: Option<Callback>, onShow: Option<Callback>)
    requires cfg.animationType != Intersection
    ensures CloseTopEvents(legacy, cfg, v, behind, args, onHide, onShow)
      == CloseTopHide(legacy, cfg, v, args, onHide) + ReshowStart(cfg, behind, args) + CallbackEvents(onShow, BehindView(behind))
  {
  }

  /** Closing a popup below the top calls no Show and no Hide. */
  lemma CloseBelowIsQuiet(cfg: PopupConfig, v: ViewId, behind: Option<(PopupConfig, ViewId)>,
                          onHide: Option<Callback>, onShow: Option<Callback>)
    ensures Quiet(CloseBelowEvents(cfg, v, behind, onHide, onShow))
  {
    var d := PopupDisposeEvents(cfg, v, false);
    assert Quiet(d);
  }

  /** Closing the top popup shows a popup again exactly when it is the one
      behind and its definition hid it on going to the background. */
  lemma CloseTopReshowsBehind(legacy: bool, cfg: PopupConfig, v: ViewId, behind: Option<(PopupConfig, ViewId)>, args: Arg,
                              onHide: Option<Callback>, onShow: Option<Callback>, w: ViewId, a: Arg)
    ensures Started(Show(w, a)) in CloseTopEvents(legacy, cfg, v, behind, args, onHide, onShow)
        <==> Reshows(behind) && w == behind.value.1 && a == args
  {
    var x := Started(Show(w, a));
    var d := PopupDisposeEvents(cfg, v, false);
    assert x !in d;
    assert x !in CloseTopHide(legacy, cfg, v, args, onHide);
    assert x !in CloseTopJoin(legacy, cfg, v, args, onHide);
    assert x !in ReshowJoin(cfg, behind, args);
    assert x !in CallbackEvents(onShow, BehindView(behind));
    assert x in ReshowStart(cfg, behind, args) <==> Reshows(behind) && w == behind.value.1 && a == args;
  }

  /** Under either policy the closed popup is disposed only after its hide
      has been joined. */
  lemma CloseTopDisposesAfterHide(legacy: bool, cfg: PopupConfig, v: ViewId, behind: Option<(PopupConfig, ViewId)>, args: Arg,
                                  onHide: Option<Callback>, onShow: Option<Callback>)
    ensures Precedes(CloseTopEvents(legacy, cfg, v, behind, args, onHide, onShow),
                     Joined(HideAnim(legacy, v, args)), DisposeMark(cfg.loader.isInScene, v))
  {
    var e := CloseTopEvents(legacy, cfg, v, behind, args, onHide, onShow);
    var cb := CallbackEvents(onHide, Some(v));
    var k := if cfg.animationType != Intersection then 1 else (if Reshows(behind) then 2 else 1);
    assert e[k] == Joined(HideAnim(legacy, v, args));
    assert e[k + 1 + |cb|] == DisposeMark(cfg.loader.isInScene, v);
  }

  /** Wait: the popup behind starts showing only once the closed popup's
      hide has completed and the popup is disposed. */
  lemma CloseTopWaitOrder(legacy: bool, cfg: PopupConfig, v: ViewId, behind: Option<(PopupConfig, ViewId)>, args: Arg,
                          onHide: Option<Callback>, onShow: Option<Callback>)
    requires cfg.animationType != Intersection && Reshows(behind)
    ensures var e := CloseTopEvents(legacy, cfg, v, behind, args, onHide, onShow);
      && Precedes(e, Joined(HideAnim(legacy, v, args)), Started(Show(behind.value.1, args)))
      && Precedes(e, DisposeMark(cfg.loader.isInScene, v), Started(Show(behind.value.1, args)))
  {
    var e := CloseTopEvents(legacy, cfg, v, behind, args, onHide, onShow);
    var cb := CallbackEvents(onHide, Some(v));
    var d := PopupDisposeEvents(cfg, v, false);
    assert e[2 + |cb| + |d|] == Started(Show(behind.value.1, args));
    assert e[1] == Joined(HideAnim(legacy, v, args));
    assert e[2 + |cb|] == DisposeMark(cfg.loader.isInScene, v);
  }

  /** Intersection: the popup behind starts showing before the closed
      popup's hide is joined, and its show is joined only after the closed
      popup is disposed. */
  lemma CloseTopIntersectionOrder(legacy: bool, cfg: PopupConfig, v: ViewId, behind: Option<(PopupConfig, ViewId)>, args: Arg,
                                  onHide: Option<Callback>, onShow: Option<Callback>)
    requires cfg.animationType == Intersection && Reshows(behind)
    ensures var e := CloseTopEvents(legacy, cfg, v, behind, args, onHide, onShow);
      && Precedes(e, Started(Show(behind.value.1, args)), Joined(HideAnim(legacy, v, args)))
      && Precedes(e, DisposeMark(cfg.loader.isInScene, v), Joined(Show(behind.value.1, args)))
  {
    var e := CloseTopEvents(legacy, cfg, v, behind, args, onHide, onShow);
    var cb := CallbackEvents(onHide, Some(v));
    var d := PopupDisposeEvents(cfg, v, false);
    assert e[1] == Started(Show(behind.value.1, args));
    assert e[2] == Joined(HideAnim(legacy, v, args));
    assert e[3 + |cb|] == DisposeMark(cfg.loader.isInScene, v);
    assert e[3 + |cb| + |d|] == Joined(Show(behind.value.1, args));
  }

  /** The popup behind the one at index `k` of the stacks. */
  function BehindOf(configs: seq<PopupConfig>, instances: seq<ViewId>, k: nat): Option<(PopupConfig, ViewId)>
    requires k < |configs| && k < |instances|
  {
    if k > 0 then Some((configs[k - 1], instances[k - 1])) else None
  }

  /** ClosePopupOp on `target` when no hide is left over from an aborted
      transition: nothing for a popup that is not open (or a null one), the
      quiet disposal for a popup below the top, the full close for the top. */
  function ClosePopupEvents(legacy: bool, configs: seq<PopupConfig>, instances: seq<ViewId>, target: Option<ViewId>,
                            args: Arg, onShow: Option<Callback>, onHide: Option<Callback>): seq<Event>
    requires |configs| == |instances|
  {
    if target.None? || target.value !in instances then []
    else
      var k := IndexOf(instances, target.value);
      if k == |instances| - 1 then CloseTopEvents(legacy, configs[k], target.value, BehindOf(configs, instances, k), args, onHide, onShow)
      else CloseBelowEvents(configs[k], target.value, BehindOf(configs, instances, k), onHide, onShow)
  }

  /** ClosePopupOp throws exactly when it closes the popup on top and
      that close throws. */
  predicate ClosePopupThrows(configs: seq<PopupConfig>, instances: seq<ViewId>, target: Option<ViewId>, args: Arg)
    requires |configs| == |instances|
  {
    && target.Some? && target.value in instances && IndexOf(instances, target.value) == |instances| - 1
    && CloseTopThrows(configs[|instances| - 1], BehindOf(configs, instances, |instances| - 1), args)
  }

  /** A typed popup on top that closes itself (a null argument) under Wait
      makes the close throw, while any argument of an object never does. */
  lemma SelfCloseWithNullThrows(configs: seq<PopupConfig>, instances: seq<ViewId>, target: ViewId, args: Arg)
    requires |configs| == |instances| && target in instances && IndexOf(instances, target) == |instances| - 1
    requires configs[|instances| - 1].loader.asset.ViewAsset?
    ensures var top := configs[|instances| - 1];
      top.animationType != Intersection && top.loader.asset.viewArgs.Typed? ==>
        ClosePopupThrows(configs, instances, Some(target), Null)
    ensures args.Obj? && (|instances| > 1 ==> configs[|instances| - 2].loader.asset.ViewAsset?) ==>
      !ClosePopupThrows(configs, instances, Some(target), args)
  {
    var top := configs[|instances| - 1];
    ThrowsExactlyOnNull(top.loader.asset, Null);
    ThrowsExactlyOnNull(top.loader.asset, args);
    if |instances| > 1 && configs[|instances| - 2].loader.asset.ViewAsset? {
      ThrowsExactlyOnNull(configs[|instances| - 2].loader.asset, args);
    }
  }

  /** Closing an open popup: below the top no Show or Hide is called; on
      top, a popup is shown again exactly when it is the one right behind
      and its definition hid it on going to the background. */
  lemma ClosePopupOutcome(legacy: bool, configs: seq<PopupConfig>, instances: seq<ViewId>, target: ViewId,
                          args: Arg, onShow: Option<Callback>, onHide: Option<Callback>, w: ViewId, a: Arg)
    requires |configs| == |instances| && target in instances
    ensures var k := IndexOf(instances, target);
      var e := ClosePopupEvents(legacy, configs, instances, Some(target), args, onShow, onHide);
      && (k < |instances| - 1 ==> Quiet(e))
      && (k == |instances| - 1 ==>
            (Started(Show(w, a)) in e <==> k > 0 && Reshows(Some((configs[k - 1], instances[k - 1]))) && w == instances[k - 1] && a == args))
  {
    var k := IndexOf(instances, target);
    var behind := BehindOf(configs, instances, k);
    if k < |instances| - 1 {
      CloseBelowIsQuiet(configs[k], target, behind, onHide, onShow);
    } else {
      CloseTopReshowsBehind(legacy, configs[k], target, behind, args, onHide, onShow, w, a);
    }
  }

  /** The popup on top is disposed by the time a new popup is pushed: its
      definition destroys it on going to the background, or it cannot stay
      behind the new popup and its hide was awaited. */
  predicate TopDisposed(top: PopupConfig, stackable: bool) {
    top.goingBackgroundBehaviour == HideAndDestroy || (top.animationType != Intersection && !stackable)
  }

  /** Whether the hide of the popup on top is started and left running
      while the new popup is brought in. */
  predicate PopupHideDeferred(top: PopupConfig, stackable: bool) {
    top.animationType == Intersection && (!stackable || top.goingBackgroundBehaviour != DontHide)
  }

  /** The first phase of PopupTransitTo for the popup on top (`stackable`
      is the current screen's AllowStackablePopups): Wait sends it to the
      background or hides and disposes it at once; Intersection only starts
      its hide. */
  function PopupHideEvents(legacy: bool, top: PopupConfig, tv: ViewId, stackable: bool, forceDontUnload: bool, args: Arg,
                           onHide: Option<Callback>): seq<Event> {
    var hideAnim := HideAnim(legacy, tv, args);
    if top.animationType != Intersection then
      if stackable then
        CallbackEvents(onHide, Some(tv)) + [WentToBackground(tv, args)]
        + (if top.goingBackgroundBehaviour != DontHide then
             Awaited(hideAnim) + CallbackEvents(onHide, Some(tv))
             + (if top.goingBackgroundBehaviour == HideAndDestroy then PopupDisposeEvents(top, tv, forceDontUnload) else [])
           else [])
      else
        Awaited(hideAnim) + CallbackEvents(onHide, Some(tv)) + PopupDisposeEvents(top, tv, forceDontUnload)
    else if stackable then
      [WentToBackground(tv, args)] + (if top.goingBackgroundBehaviour != DontHide then [Started(hideAnim)] else [])
    else
      [Started(hideAnim)]
  }

  /** The hide phase of PopupTransitTo halts when it awaits the hide of
      the popup on top (Wait, and the popup does not stay visible) and that
      hide throws. */
  predicate TopHideThrows(top: Option<(PopupConfig, ViewId)>, stackable: bool, args: Arg) {
    && top.Some? && (!stackable || top.value.0.goingBackgroundBehaviour != DontHide)
    && AwaitedHideThrows(top.value.0.animationType, top.value.0.loader.asset, args)
  }

  /** What that hide phase leaves in the trace when it throws: on a
      screen with stackable popups the callback and the background
      notification come first. */
  function TopHideHaltEvents(legacy: bool, tv: ViewId, stackable: bool, args: Arg, onHide: Option<Callback>): seq<Event> {
    (if stackable then CallbackEvents(onHide, Some(tv)) + [WentToBackground(tv, args)] else []) + [Started(HideAnim(legacy, tv, args))]
  }

  /** The part of the Wait hide phase that comes before any disposal. */
  function PopupWaitHideEvents(legacy: bool, top: PopupConfig, tv: ViewId, stackable: bool, args: Arg,
                               onHide: Option<Callback>): seq<Event> {
    var hideAnim := HideAnim(legacy, tv, args);
    if stackable then
      CallbackEvents(onHide, Some(tv)) + [WentToBackground(tv, args)]
      + (if top.goingBackgroundBehaviour != DontHide then Awaited(hideAnim) + CallbackEvents(onHide, Some(tv)) else [])
    else
      Awaited(hideAnim) + CallbackEvents(onHide, Some(tv))
  }

  /** Under Wait, the hide phase ends with the disposal of the popup on top
      exactly when TopDisposed says so. */
  lemma PopupWaitHideThenDispose(legacy: bool, top: PopupConfig, tv: ViewId, stackable: bool, force: bool, args: Arg,
                                 onHide: Option<Callback>)
    requires top.animationType != Intersection
    ensures PopupHideEvents(legacy, top, tv, stackable, force, args, onHide) ==
      PopupWaitHideEvents(legacy, top, tv, stackable, args, onHide)
      + (if TopDisposed(top, stackable) then PopupDisposeEvents(top, tv, force) else [])
  {
    var hideAnim := HideAnim(legacy, tv, args);
    var cb := CallbackEvents(onHide, Some(tv));
    if stackable && top.goingBackgroundBehaviour == HideAndDestroy {
      var d := PopupDisposeEvents(top, tv, force);
      assert cb + [WentToBackground(tv, args)] + (Awaited(hideAnim) + cb + d)
          == cb + [WentToBackground(tv, args)] + (Awaited(hideAnim) + cb) + d;
    }
  }

  /** Reopening the popup that is on top never unloads its asset while
      hiding it: the hide phase passes `forceDontUnload`. */
  lemma PopupHideKeepsReopenedAsset(legacy: bool, top: PopupConfig, tv: ViewId, stackable: bool, args: Arg,
                                    onHide: Option<Callback>)
    ensures Unloaded(PopupEntity(top)) !in PopupHideEvents(legacy, top, tv, stackable, true, args, onHide)
  {
    var d := PopupDisposeEvents(top, tv, true);
    assert Unloaded(PopupEntity(top)) !in d;
  }

  /** The hide phase disposes the popup on top at once exactly when it
      awaits that popup's hide and the popup cannot stay; it leaves a hide
      running exactly when the policy defers it. */
  lemma PopupHideDisposesAtOnce(legacy: bool, top: PopupConfig, tv: ViewId, stackable: bool, force: bool, args: Arg,
                                onHide: Option<Callback>)
    ensures DisposeMark(top.loader.isInScene, tv) in PopupHideEvents(legacy, top, tv, stackable, force, args, onHide)
        <==> top.animationType != Intersection && TopDisposed(top, stackable)
    ensures PopupHideDeferred(top, stackable) <==>
      (Started(HideAnim(legacy, tv, args)) in PopupHideEvents(legacy, top, tv, stackable, force, args, onHide)
       && Joined(HideAnim(legacy, tv, args)) !in PopupHideEvents(legacy, top, tv, stackable, force, args, onHide))
  {
    var d := PopupDisposeEvents(top, tv, force);
    assert d[0] == DisposeMark(top.loader.isInScene, tv);
  }

  /** Joining a pending popup hide while opening a popup (the hide, the
      popup then on top, its view): the join, the hide callback, and the
      disposal of that popup when its definition destroys it. */
  function PopupPendingJoinEvents(pendingHide: Option<(Anim, PopupConfig, ViewId)>, onHide: Option<Callback>): seq<Event> {
    if pendingHide.Some? then PopupHideJoinEvents(pendingHide.value.0, pendingHide.value.1, pendingHide.value.2, onHide, false) else []
  }

  /** From the new popup's show to the open event: its show, the join of a
      pending hide, the join of an Intersection show, the show callback and
      the open event. */
  function PopupShowEvents(legacy: bool, cfg: PopupConfig, view: ViewId,
                           pendingHide: Option<(Anim, PopupConfig, ViewId)>, previous: Option<PopupConfig>, args: Arg,
                           onShow: Option<Callback>, onHide: Option<Callback>): seq<Event> {
    ShowStart(cfg.animationType, view, args) + PopupPendingJoinEvents(pendingHide, onHide) + ShowJoin(cfg.animationType, view, args)
    + PopupOpenedEvents(legacy, cfg, view, previous, onShow)
  }

  /** After the push: the show callback and the open event. */
  function PopupOpenedEvents(legacy: bool, cfg: PopupConfig, view: ViewId, previous: Option<PopupConfig>,
                             onShow: Option<Callback>): seq<Event> {
    CallbackEvents(onShow, Some(view)) + (if legacy then [] else [PopupOpened(previous, cfg)])
  }

  /** A new Intersection popup starts showing before the pending hide is
      joined and finishes showing after it; a Wait popup is fully shown
      first. Either way its show is joined before the show callback. */
  lemma PopupShowOrder(legacy: bool, cfg: PopupConfig, view: ViewId,
                       pendingHide: Option<(Anim, PopupConfig, ViewId)>, previous: Option<PopupConfig>, args: Arg,
                       onShow: Option<Callback>, onHide: Option<Callback>)
    ensures var e := PopupShowEvents(legacy, cfg, view, pendingHide, previous, args, onShow, onHide);
      && (pendingHide.Some? && cfg.animationType == Intersection ==>
            Precedes(e, Started(Show(view, args)), Joined(pendingHide.value.0))
            && Precedes(e, Joined(pendingHide.value.0), Joined(Show(view, args))))
      && (pendingHide.Some? && cfg.animationType != Intersection ==>
            Precedes(e, Joined(Show(view, args)), Joined(pendingHide.value.0)))
      && (onShow.Some? ==> Precedes(e, Joined(Show(view, args)), Invoked(onShow.value, Some(view))))
  {
    var e := PopupShowEvents(legacy, cfg, view, pendingHide, previous, args, onShow, onHide);
    var overlap := cfg.animationType == Intersection;
    var join := if pendingHide.Some? then PopupHideJoinEvents(pendingHide.value.0, pendingHide.value.1, pendingHide.value.2, onHide, false) else [];
    var showLen := if overlap then 1 else 2;
    var tailJoin := if overlap then 1 else 0;
    assert e[0] == Started(Show(view, args));
    var joinedShow := if overlap then 1 + |join| else 1;
    assert e[joinedShow] == Joined(Show(view, args));
    if pendingHide.Some? {
      assert e[showLen] == Joined(pendingHide.value.0);
    }
    if onShow.Some? {
      assert e[showLen + |join| + tailJoin] == Invoked(onShow.value, Some(view));
    }
  }

  /** The hide still pending when a new popup has been shown, when no hide
      was left over from an aborted transition: the deferred hide of the
      popup that was on top. */
  function PendingPopupHide(legacy: bool, top: Option<(PopupConfig, ViewId)>, stackable: bool, args: Arg): Option<(Anim, PopupConfig, ViewId)> {
    if top.Some? && PopupHideDeferred(top.value.0, stackable) then Some((HideAnim(legacy, top.value.1, args), top.value.0, top.value.1))
    else None
  }

  /** Opening a popup over another, when no hide was left pending: the
      popup that was on top leaves the stack exactly when TopDisposed says
      so, whether it is disposed at once (Wait) or when its deferred hide is
      joined (Intersection). In particular a popup whose definition does
      not destroy it and that is closed under Intersection on a screen
      without stackable popups stays in the stack. */
  lemma PopupOpenDisposesTop(legacy: bool, top: PopupConfig, tv: ViewId, stackable: bool, force: bool, args: Arg,
                             onHide: Option<Callback>)
    ensures var disposedNow := DisposeMark(top.loader.isInScene, tv) in PopupHideEvents(legacy, top, tv, stackable, force, args, onHide);
      var pending := PendingPopupHide(legacy, Some((top, tv)), stackable, args);
      var disposedAtJoin := pending.Some? && top.goingBackgroundBehaviour == HideAndDestroy;
      (disposedNow || disposedAtJoin) <==> TopDisposed(top, stackable)
  {
    PopupHideDisposesAtOnce(legacy, top, tv, stackable, force, args, onHide);
  }

  /** The popup on top of the stacks, with its definition. */
  function TopOf(configs: seq<PopupConfig>, instances: seq<ViewId>): (r: Option<(PopupConfig, ViewId)>)
    requires |configs| == |instances|
    ensures r.Some? <==> instances != []
  {
    if instances != [] then Some((configs[|configs| - 1], instances[|instances| - 1])) else None
  }

  /** The popup definitions left below a newly opened popup, when no hide
      was left pending: the popup that was on top leaves the stack exactly
      when TopDisposed says so. */
  function ConfigsKeptOnOpen(configs: seq<PopupConfig>, instances: seq<ViewId>, stackable: bool): seq<PopupConfig>
    requires |configs| == |instances|
  {
    var top := TopOf(configs, instances);
    if top.Some? && TopDisposed(top.value.0, stackable) then RemoveFirst(configs, top.value.0) else configs
  }

  /** The popup views left below a newly opened popup. */
  function InstancesKeptOnOpen(configs: seq<PopupConfig>, instances: seq<ViewId>, stackable: bool): seq<ViewId>
    requires |configs| == |instances|
  {
    var top := TopOf(configs, instances);
    if top.Some? && TopDisposed(top.value.0, stackable) then RemoveFirst(instances, top.value.1) else instances
  }

/** The popup definitions left once a pending hide is joined while
      opening a popup: the popup that was hidden leaves the stack when its
      definition destroys it. */
  function ConfigsAfterJoin(configs: seq<PopupConfig>, pending: Option<(Anim, PopupConfig, ViewId)>): seq<PopupConfig> {
    if pending.Some? && pending.value.1.goingBackgroundBehaviour == HideAndDestroy then RemoveFirst(configs, pending.value.1)
    else configs
  }

  /** The popup views left once a pending hide is joined. */
  function InstancesAfterJoin(instances: seq<ViewId>, pending: Option<(Anim, PopupConfig, ViewId)>): seq<ViewId> {
    if pending.Some? && pending.value.1.goingBackgroundBehaviour == HideAndDestroy then RemoveFirst(instances, pending.value.2)
    else instances
  }

  /** Opening a popup, with no hide left over from before: once the popup
      on top has been hidden by its policy (Intersection keeps the stacks,
      Wait leaves ConfigsKeptOnOpen and InstancesKeptOnOpen), the hide held
      is the one PendingPopupHide names, with that popup still on top, and
      joining it leaves the stacks ConfigsKeptOnOpen and InstancesKeptOnOpen
      describe. */
  lemma HiddenTopJoinsAsKept(legacy: bool, configs: seq<PopupConfig>, instances: seq<ViewId>, stackable: bool, args: Arg,
                             configs': seq<PopupConfig>, instances': seq<ViewId>, handle: Option<Anim>)
    requires |configs| == |instances| && |configs'| == |instances'|
    requires var p := PendingPopupHide(legacy, TopOf(configs, instances), stackable, args);
      handle == if p.Some? then Some(p.value.0) else None
    requires var top := TopOf(configs, instances);
      top.Some? && top.value.0.animationType == Intersection ==> configs' == configs && instances' == instances
    requires var top := TopOf(configs, instances);
      top.None? || top.value.0.animationType != Intersection ==>
        configs' == ConfigsKeptOnOpen(configs, instances, stackable) && instances' == InstancesKeptOnOpen(configs, instances, stackable)
    ensures var pending := if handle.Some? && instances' != [] then Some((handle.value, configs'[|configs'| - 1], instances'[|instances'| - 1])) else None;
      && (handle.Some? ==> instances' != [])
      && pending == PendingPopupHide(legacy, TopOf(configs, instances), stackable, args)
      && ConfigsAfterJoin(configs', pending) == ConfigsKeptOnOpen(configs, instances, stackable)
      && InstancesAfterJoin(instances', pending) == InstancesKeptOnOpen(configs, instances, stackable)
  {
  }

    // --------------------------------------------------------------- screens

  /** The hide callback and the disposal of a hidden screen. */
  function ScreenHideDone(cur: ScreenConfig, view: ViewId, onHide: Option<Callback>): seq<Event> {
    CallbackEvents(onHide, Some(view)) + ScreenDisposeEvents(cur, view)
  }

  /** The hide phase for the current screen: Wait awaits the hide and
      disposes the screen; Intersection only starts the hide. */
  function ScreenHideEvents(legacy: bool, cur: ScreenConfig, view: ViewId, args: Arg, onHide: Option<Callback>): seq<Event> {
    if cur.animationType != Intersection then Awaited(HideAnim(legacy, view, args)) + ScreenHideDone(cur, view, onHide)
    else [Started(HideAnim(legacy, view, args))]
  }

  /** The popups of the current screen `cur` halt a screen transition when
      its policy closes the foreground popup first and that close throws. */
  predicate PopupsCloseThrows(cur: Option<ScreenConfig>, configs: seq<PopupConfig>, instances: seq<ViewId>, args: Arg)
    requires |configs| == |instances|
  {
    && instances != [] && cur.Some? && cur.value.popupBehaviourOnScreenTransition == HideFirstThenTransit
    && ClosePopupThrows(configs, instances, Some(instances[|instances| - 1]), args)
  }

  /** The awaited hide of the current screen throws. */
  predicate ScreenHideThrows(cur: Option<ScreenConfig>, args: Arg) {
    cur.Some? && AwaitedHideThrows(cur.value.animationType, cur.value.loader.asset, args)
  }

  /** Hiding the current screen under Wait or NoAnimation destroys its
      view, unless the view is in the scene, where it is only deactivated. */
  predicate DestroyedByHide(cur: Option<ScreenConfig>) {
    cur.Some? && cur.value.animationType != Intersection && !cur.value.loader.isInScene
  }

  /** The current screen's view was destroyed by a transition that then
      gave up (`destroyed`): hiding it again under Wait or NoAnimation
      reaches `Destroy(CurrentScreenInstance.GameObject)`, whose read of
      `gameObject` on a destroyed component throws. */
  predicate DestroyedScreenRehideThrows(cur: Option<ScreenConfig>, destroyed: bool) {
    destroyed && cur.Some? && cur.value.animationType != Intersection
  }

  /** Leaving the current screen halts when the foreground popup that its
      policy closes first throws, when its own awaited hide throws, or when
      its view is already destroyed. */
  predicate LeaveScreenThrows(cur: Option<ScreenConfig>, destroyed: bool, configs: seq<PopupConfig>, instances: seq<ViewId>, args: Arg)
    requires |configs| == |instances|
  {
    || PopupsCloseThrows(cur, configs, instances, args)
    || ScreenHideThrows(cur, args)
    || DestroyedScreenRehideThrows(cur, destroyed)
  }

  /** The hide still to be joined once the next screen has been shown: the
      hide of the current screen under Intersection, or else a hide left
      over from an aborted transition, which the join then treats as the
      current screen's. */
  function PendingScreenHide(legacy: bool, cur: Option<ScreenConfig>, view: Option<ViewId>, stale: Option<Anim>,
                             args: Arg): Option<(Anim, ScreenConfig, ViewId)> {
    if cur.None? || view.None? then None
    else if cur.value.animationType == Intersection then Some((HideAnim(legacy, view.value, args), cur.value, view.value))
    else if stale.Some? then Some((stale.value, cur.value, view.value))
    else None
  }

  /** Joining a pending screen hide (the hide, the current definition, its
      view): the join, the hide callback and the disposal of that screen. */
  function ScreenHideJoinEvents(pendingHide: Option<(Anim, ScreenConfig, ViewId)>, onHide: Option<Callback>): seq<Event> {
    if pendingHide.Some? then [Joined(pendingHide.value.0)] + ScreenHideDone(pendingHide.value.1, pendingHide.value.2, onHide) else []
  }

  /** From the new screen's materialisation to the last join: its show,
      the join of a pending hide with the disposal of the current screen,
      and the join of an Intersection show. */
  function ScreenShowPhase(next: ScreenConfig, view: ViewId, materialize: Event,
                           pendingHide: Option<(Anim, ScreenConfig, ViewId)>, args: Arg, onHide: Option<Callback>): seq<Event> {
    [materialize] + ShowAndJoinEvents(next, view, pendingHide, args, onHide)
  }

  /** The show phase once the view exists. */
  function ShowAndJoinEvents(next: ScreenConfig, view: ViewId, pendingHide: Option<(Anim, ScreenConfig, ViewId)>,
                             args: Arg, onHide: Option<Callback>): seq<Event> {
    ShowStart(next.animationType, view, args) + ScreenHideJoinEvents(pendingHide, onHide) + ShowJoin(next.animationType, view, args)
  }

  /** After the commit: the show callback and the change event. */
  function ScreenShownEvents(legacy: bool, next: ScreenConfig, view: ViewId, previous: Option<ScreenConfig>,
                             onShow: Option<Callback>): seq<Event> {
    CallbackEvents(onShow, Some(view)) + (if legacy then [] else [ScreenChanged(previous, next)])
  }

  /** From the new screen's materialisation to the change event. */
  function ScreenShowEvents(legacy: bool, next: ScreenConfig, view: ViewId, materialize: Event,
                            pendingHide: Option<(Anim, ScreenConfig, ViewId)>, previous: Option<ScreenConfig>, args: Arg,
                            onShow: Option<Callback>, onHide: Option<Callback>): seq<Event> {
    ScreenShowPhase(next, view, materialize, pendingHide, args, onHide) + ScreenShownEvents(legacy, next, view, previous, onShow)
  }

  /** Wait: the current screen is hidden, then disposed, before anything of
      the next screen happens. */
  lemma ScreenHideWaitFirst(legacy: bool, cur: ScreenConfig, view: ViewId, args: Arg, onHide: Option<Callback>)
    requires cur.animationType != Intersection
    ensures var e := ScreenHideEvents(legacy, cur, view, args, onHide);
      && e[..2] == Awaited(HideAnim(legacy, view, args))
      && Precedes(e, Joined(HideAnim(legacy, view, args)), DisposeMark(cur.loader.isInScene, view))
  {
    var e := ScreenHideEvents(legacy, cur, view, args, onHide);
    var cb := CallbackEvents(onHide, Some(view));
    assert e[1] == Joined(HideAnim(legacy, view, args));
    assert e[2 + |cb|] == DisposeMark(cur.loader.isInScene, view);
  }

  /** Intersection: the next screen starts showing before the pending hide
      is joined, and the current screen is disposed before the next one's
      show is joined. Wait: the next screen is fully shown before the
      pending hide is joined. */
  lemma ScreenShowOrder(legacy: bool, next: ScreenConfig, view: ViewId, materialize: Event,
                        pendingHide: Option<(Anim, ScreenConfig, ViewId)>, previous: Option<ScreenConfig>, args: Arg,
                        onShow: Option<Callback>, onHide: Option<Callback>)
    requires pendingHide.Some?
    ensures var e := ScreenShowEvents(legacy, next, view, materialize, pendingHide, previous, args, onShow, onHide);
      && (next.animationType == Intersection ==>
            Precedes(e, Started(Show(view, args)), Joined(pendingHide.value.0))
            && Precedes(e, DisposeMark(pendingHide.value.1.loader.isInScene, pendingHide.value.2), Joined(Show(view, args))))
      && (next.animationType != Intersection ==>
            Precedes(e, Joined(Show(view, args)), Joined(pendingHide.value.0)))
  {
    var e := ScreenShowEvents(legacy, next, view, materialize, pendingHide, previous, args, onShow, onHide);
    var cb := CallbackEvents(onHide, Some(pendingHide.value.2));
    var d := ScreenDisposeEvents(pendingHide.value.1, pendingHide.value.2);
    assert e[1] == Started(Show(view, args));
    if next.animationType == Intersection {
      assert e[2] == Joined(pendingHide.value.0);
      assert e[3 + |cb|] == DisposeMark(pendingHide.value.1.loader.isInScene, pendingHide.value.2);
      assert e[3 + |cb| + |d|] == Joined(Show(view, args));
    } else {
      assert e[2] == Joined(Show(view, args));
      assert e[3] == Joined(pendingHide.value.0);
    }
  }

  /** The show callback of a screen transition comes after the new screen's
      show and the pending hide have both been joined. */
  lemma ScreenShowCallbackLast(legacy: bool, next: ScreenConfig, view: ViewId, materialize: Event,
                               pendingHide: Option<(Anim, ScreenConfig, ViewId)>, previous: Option<ScreenConfig>, args: Arg,
                               onShow: Option<Callback>, onHide: Option<Callback>)
    requires onShow.Some?
    ensures var e := ScreenShowEvents(legacy, next, view, materialize, pendingHide, previous, args, onShow, onHide);
      && Precedes(e, Joined(Show(view, args)), Invoked(onShow.value, Some(view)))
      && (pendingHide.Some? ==> Precedes(e, Joined(pendingHide.value.0), Invoked(onShow.value, Some(view))))
  {
    var e := ScreenShowEvents(legacy, next, view, materialize, pendingHide, previous, args, onShow, onHide);
    var overlap := next.animationType == Intersection;
    var join := if pendingHide.Some? then [Joined(pendingHide.value.0)] + ScreenHideDone(pendingHide.value.1, pendingHide.value.2, onHide) else [];
    var showLen := if overlap then 1 else 2;
    var tailJoin := if overlap then 1 else 0;
    var k := 1 + showLen + |join| + tailJoin;
    assert e[k] == Invoked(onShow.value, Some(view));
    assert e[if overlap then k - 1 else 2] == Joined(Show(view, args));
    if pendingHide.Some? {
      assert e[1 + showLen] == Joined(pendingHide.value.0);
    }
  }
}
