/**
 * The static configuration of the navigation flow: the entity definitions
 * (screens and popups), their enums and defaults, the navigation argument,
 * the queued command and the history entry.
 *
 * Configurations are ScriptableObjects in the original; here they are
 * immutable values, compared by value.
 */
module UIEntities {
  import opened Wrappers

  type Name = string

  /** Identity of a view instance. `Placed(n)` is a view that exists as an
      asset or in the scene (a prefab, or a pre-placed view); `Spawned(n)` is
      a copy the flow instantiated from a prefab. */
  datatype ViewId = Placed(n: nat) | Spawned(k: nat)

  /** Identity of a rendering canvas: the flow's own canvas, the canvas of
      a popup prefab asset, the copy of that canvas an instance of the prefab
      carries, or a canvas of the popup-canvas pool. */
  datatype CanvasId = MainCanvas | PrefabCanvas(p: nat) | InstanceCanvas(v: ViewId) | PoolCanvas(c: nat)

  type Callback = nat

  /** A navigation argument: `null`, or an object of some runtime type. */
  datatype Arg = Null | Obj(runtimeType: Name, payload: nat)

  /** C#'s `args is T` where `T` is given by the set of runtime type names
      that are `T` or derive from it: never true of `null`. */
  predicate IsOfType(a: Arg, t: set<Name>) {
    a.Obj? && a.runtimeType in t
  }

  datatype AnimationType = NoAnimation | Wait | Intersection

  datatype BackKeyBehaviour = NotAllowed | ScreenMoveBack | CloseFirstPopup

  /** The per-view override of the back key (ScreenBase.cs). */
  datatype BackKeyBehaviourOverride = Inherit | NotAllowed | ScreenMoveBack | CloseFirstPopup

  datatype PopupsBehaviourOnScreenTransition = PreserveAllOnHide | HideFirstThenTransit | DestroyAllThenTransit

  datatype PopupGoingBackgroundBehaviour = DontHide | JustHide | HideAndDestroy

  /** The argument types a view's class declares: the show and hide types
      of the typed base ScreenBaseT (every PopupBaseT derives from it), or
      `Untyped` for a view whose Show and Hide take any argument. */
  datatype ViewArgs = Untyped | Typed(showTypes: set<Name>, hideTypes: set<Name>)

  /** What the asset loader produces once a load completes: nothing, an
      object without a view component, or a view (which may be a popup view,
      may carry its own canvas, carries the back-key override its instances
      start with, and declares its argument types). For a scene-placed
      entity it is the placed view. */
  datatype LoadedAsset =
    | NoAsset
    | NonViewAsset
    | ViewAsset(prefab: nat, isPopupView: bool, ownCanvas: Option<nat>, backKeyOverride: BackKeyBehaviourOverride,
                viewArgs: ViewArgs)

  /** The parts of the asset loader configuration the flow reads. */
  datatype AssetLoaderConfig = AssetLoaderConfig(
    isInScene: bool,
    dontUnloadAfterLoad: bool,
    preLoad: bool,
    asset: LoadedAsset)

  datatype ScreenConfig = ScreenConfig(
    name: Name,
    animationType: AnimationType,
    loader: AssetLoaderConfig,
    allowPopups: bool,
    allowStackablePopups: bool,
    canMoveBackFromHere: bool,
    canMoveBackToHere: bool,
    backKeyBehaviour: BackKeyBehaviour,
    popupBehaviourOnScreenTransition: PopupsBehaviourOnScreenTransition)

  datatype PopupConfig = PopupConfig(
    name: Name,
    animationType: AnimationType,
    loader: AssetLoaderConfig,
    goingBackgroundBehaviour: PopupGoingBackgroundBehaviour)

  /** A `UIEntityBaseConfig`: a screen or a popup definition. */
  datatype Entity = ScreenEntity(screen: ScreenConfig) | PopupEntity(popup: PopupConfig) {
    function Name(): Name {
      match this
      case ScreenEntity(s) => s.name
      case PopupEntity(p) => p.name
    }
    function Loader(): AssetLoaderConfig {
      match this
      case ScreenEntity(s) => s.loader
      case PopupEntity(p) => p.loader
    }
  }

  /** A freshly authored screen definition: the field initialisers of
      UIEntityBaseConfig and ScreenConfig (no animation, back key moves back,
      popups hidden first on a screen transition, every flag false). */
  function NewScreenConfig(name: Name, loader: AssetLoaderConfig): ScreenConfig {
    ScreenConfig(name, NoAnimation, loader, false, false, false, false,
                 BackKeyBehaviour.ScreenMoveBack, HideFirstThenTransit)
  }

  /** A freshly authored popup definition: no animation, and the popup stays
      visible when another popup is stacked above it. */
  function NewPopupConfig(name: Name, loader: AssetLoaderConfig): PopupConfig {
    PopupConfig(name, NoAnimation, loader, DontHide)
  }

  /** The screen flow configuration asset. */
  datatype FlowConfig = FlowConfig(
    screens: seq<ScreenConfig>,
    popups: seq<PopupConfig>,
    overridePopupCanvasOrder: Option<int>)

  datatype ScreenFlowCommandType = Trigger | MoveBack | ClosePopup

  /** The `Object` a command refers to: nothing, an entity definition, or a
      popup instance. */
  datatype Target = NoTarget | EntityTarget(entity: Entity) | PopupTarget(view: ViewId)

  datatype ScreenFlowCommand = ScreenFlowCommand(
    kind: ScreenFlowCommandType,
    target: Target,
    args: Arg,
    onShow: Option<Callback>,
    onHide: Option<Callback>)

  /** One entry of the screen history. */
  datatype EntityArgPair = EntityArgPair(entity: ScreenConfig, args: Arg)
}
