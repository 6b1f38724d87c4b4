/**
 * The back-key decision of ProcessBackKey: what a press of the back key
 * asks the flow to do, from the current screen's definition, the override
 * carried by the current screen's view and whether a popup is open.
 */
module BackKey {
  import opened Wrappers
  import opened UIEntities

  datatype BackAction = NoAction | MoveBackAction | CloseForegroundPopupAction

  /** The two-level switch of ProcessBackKey: the view's override when it
      does not inherit, the definition's behaviour otherwise. */
  function Decide(current: Option<ScreenConfig>, viewOverride: BackKeyBehaviourOverride, hasPopup: bool): (a: BackAction)
    ensures current.None? ==> a == NoAction
    ensures a == CloseForegroundPopupAction ==> hasPopup
  {
    if current.None? then NoAction
    else if viewOverride == Inherit then
      match current.value.backKeyBehaviour
      case NotAllowed => NoAction
      case ScreenMoveBack => MoveBackAction
      case CloseFirstPopup => if hasPopup then CloseForegroundPopupAction else MoveBackAction
    else
      match viewOverride
      case NotAllowed => NoAction
      case ScreenMoveBack => MoveBackAction
      case CloseFirstPopup => if hasPopup then CloseForegroundPopupAction else MoveBackAction
  }

  /** The behaviour in force: the override, unless it says to inherit. */
  function Effective(configured: BackKeyBehaviour, viewOverride: BackKeyBehaviourOverride): BackKeyBehaviour {
    match viewOverride
    case Inherit => configured
    case NotAllowed => BackKeyBehaviour.NotAllowed
    case ScreenMoveBack => BackKeyBehaviour.ScreenMoveBack
    case CloseFirstPopup => BackKeyBehaviour.CloseFirstPopup
  }

  /** What one behaviour asks for. */
  function ActionOf(b: BackKeyBehaviour, hasPopup: bool): BackAction {
    match b
    case NotAllowed => NoAction
    case ScreenMoveBack => MoveBackAction
    case CloseFirstPopup => if hasPopup then CloseForegroundPopupAction else MoveBackAction
  }

  /** Both branches of the switch apply one table: the decision is the
      action of the behaviour in force. */
  lemma DecideIsEffectiveAction(current: ScreenConfig, viewOverride: BackKeyBehaviourOverride, hasPopup: bool)
    ensures Decide(Some(current), viewOverride, hasPopup) == ActionOf(Effective(current.backKeyBehaviour, viewOverride), hasPopup)
  {
  }

  /** An override other than Inherit decides alone: the definition's
      behaviour is not consulted. */
  lemma OverrideWins(a: ScreenConfig, b: ScreenConfig, viewOverride: BackKeyBehaviourOverride, hasPopup: bool)
    requires viewOverride != Inherit
    ensures Decide(Some(a), viewOverride, hasPopup) == Decide(Some(b), viewOverride, hasPopup)
  {
  }

  /** CloseFirstPopup closes the foreground popup exactly when one is open
      and moves back otherwise. */
  lemma CloseFirstPopupFallsBack(current: ScreenConfig, viewOverride: BackKeyBehaviourOverride, hasPopup: bool)
    requires Effective(current.backKeyBehaviour, viewOverride) == BackKeyBehaviour.CloseFirstPopup
    ensures Decide(Some(current), viewOverride, hasPopup) ==
      (if hasPopup then CloseForegroundPopupAction else MoveBackAction)
  {
    DecideIsEffectiveAction(current, viewOverride, hasPopup);
  }
}
