/**
 * Sort orders of the canvases popups are drawn on. The canvas picked for a
 * new popup is sorted one above the pool canvas of the popup below it, or
 * one above the flow's own canvas when no popup is open; when the popup
 * below does not own a pool canvas, no order is assigned at all. For a
 * prefab that carries its own canvas, the canvas picked is the prefab
 * asset's, not the copy the new instance is drawn on.
 */
module CanvasPool {
  import opened Wrappers
  import opened UIEntities

  /** A canvas's sorting order; a canvas never assigned one sorts at 0. */
  function Order(orders: map<CanvasId, int>, c: CanvasId): int {
    if c in orders then orders[c] else 0
  }

  /** The order CalculatePopupCanvasSortOrder gives to a new popup's canvas,
      given the popup on top of the stack before it; `None` leaves it as it is. */
  function SortOrderFor(orders: map<CanvasId, int>, allocatedCanvas: map<ViewId, CanvasId>, top: Option<ViewId>): Option<int> {
    match top
    case None => Some(Order(orders, MainCanvas) + 1)
    case Some(t) => if t in allocatedCanvas then Some(Order(orders, allocatedCanvas[t]) + 1) else None
  }

  /** The canvas orders applied by CalculatePopupCanvasSortOrder to `c`. */
  function AssignSortOrder(orders: map<CanvasId, int>, allocatedCanvas: map<ViewId, CanvasId>, c: CanvasId,
                           top: Option<ViewId>): (r: map<CanvasId, int>)
    ensures forall d :: d != c ==> Order(r, d) == Order(orders, d)
    ensures top.None? ==> Order(r, c) == Order(orders, MainCanvas) + 1
    ensures top.Some? && top.value in allocatedCanvas && allocatedCanvas[top.value] != c ==>
      Order(r, c) == Order(orders, allocatedCanvas[top.value]) + 1
  {
    match SortOrderFor(orders, allocatedCanvas, top)
    case Some(o) => orders[c := o]
    case None => orders
  }

  /** `cs` are drawn in order, each strictly above the one before it. */
  ghost predicate Ascending(orders: map<CanvasId, int>, cs: seq<CanvasId>) {
    forall i, j :: 0 <= i < j < |cs| ==> Order(orders, cs[i]) < Order(orders, cs[j])
  }

  /** The pool canvases of a stack of popups that all hold one. */
  function CanvasesOf(allocatedCanvas: map<ViewId, CanvasId>, stack: seq<ViewId>): (cs: seq<CanvasId>)
    requires forall i :: 0 <= i < |stack| ==> stack[i] in allocatedCanvas
    ensures |cs| == |stack| && forall i :: 0 <= i < |stack| ==> cs[i] == allocatedCanvas[stack[i]]
  {
    if stack == [] then [] else [allocatedCanvas[stack[0]]] + CanvasesOf(allocatedCanvas, stack[1..])
  }

  /** Opening popups on pool canvases keeps them stacked above the flow's
      canvas in opening order: if the popups already open are drawn in
      ascending order above the main canvas, giving a canvas not among theirs
      its computed order keeps that true with the new canvas on top. */
  lemma {:induction false} PushKeepsStackAscending(orders: map<CanvasId, int>, allocatedCanvas: map<ViewId, CanvasId>,
                                                   stack: seq<ViewId>, c: CanvasId)
    requires forall i :: 0 <= i < |stack| ==> stack[i] in allocatedCanvas
    requires Ascending(orders, [MainCanvas] + CanvasesOf(allocatedCanvas, stack))
    requires c != MainCanvas && c !in CanvasesOf(allocatedCanvas, stack)
    ensures var top := if stack == [] then None else Some(stack[|stack| - 1]);
      SortOrderFor(orders, allocatedCanvas, top).Some? &&
      Ascending(AssignSortOrder(orders, allocatedCanvas, c, top), [MainCanvas] + CanvasesOf(allocatedCanvas, stack) + [c])
  {
    var top := if stack == [] then None else Some(stack[|stack| - 1]);
    var before := [MainCanvas] + CanvasesOf(allocatedCanvas, stack);
    var r := AssignSortOrder(orders, allocatedCanvas, c, top);
    var after := before + [c];
    assert before[|before| - 1] == (if stack == [] then MainCanvas else allocatedCanvas[stack[|stack| - 1]]);
    assert Order(r, c) == Order(orders, before[|before| - 1]) + 1;
    forall i, j | 0 <= i < j < |after|
      ensures Order(r, after[i]) < Order(r, after[j])
    {
      assert after[i] == before[i] && after[i] != c;
      if j < |before| {
        assert after[j] == before[j] && after[j] != c;
      } else {
        assert i == |before| - 1 || Order(orders, before[i]) < Order(orders, before[|before| - 1]);
      }
    }
  }

  /** When the popup on top holds no pool canvas (it brought its own canvas
      or lives on the flow's canvas), the new popup's canvas keeps whatever
      order it had, which may put it below the popup on top. */
  lemma SortOrderSkippedForUnpooledTop(orders: map<CanvasId, int>, allocatedCanvas: map<ViewId, CanvasId>,
                                       c: CanvasId, top: ViewId)
    requires top !in allocatedCanvas
    ensures SortOrderFor(orders, allocatedCanvas, Some(top)).None?
    ensures AssignSortOrder(orders, allocatedCanvas, c, Some(top)) == orders
  {
  }

  /** A popup instantiated from a prefab that carries its own canvas is
      drawn on the instance's copy of that canvas, which holds the order the
      prefab's canvas had when it was copied. The new order is written on
      the prefab's canvas afterwards, so the popup shows the order left by
      the previous opening of the same prefab. */
  lemma {:induction false} PrefabInstanceShowsStaleOrder(orders: map<CanvasId, int>, allocatedCanvas: map<ViewId, CanvasId>,
                                                         p: nat, v: ViewId, top: Option<ViewId>)
    ensures var copied := orders[InstanceCanvas(v) := Order(orders, PrefabCanvas(p))];
      var r := AssignSortOrder(copied, allocatedCanvas, PrefabCanvas(p), top);
      && Order(r, InstanceCanvas(v)) == Order(orders, PrefabCanvas(p))
      && (top.None? ==> Order(r, PrefabCanvas(p)) == Order(orders, MainCanvas) + 1)
      && (top.None? && Order(orders, PrefabCanvas(p)) != Order(orders, MainCanvas) + 1 ==>
            Order(r, InstanceCanvas(v)) != Order(r, PrefabCanvas(p)))
  {
    var copied := orders[InstanceCanvas(v) := Order(orders, PrefabCanvas(p))];
    assert Order(copied, MainCanvas) == Order(orders, MainCanvas);
  }
}
