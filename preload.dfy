/**
 * The preload queue: the definitions whose loader asks to be loaded ahead
 * of use, the screens first and then the popups, each in configuration
 * order (`Array.FindAll` over the screens, then over the popups).
 */
module Preloading {
  import opened UIEntities

  function PreloadScreens(s: seq<ScreenConfig>): (q: seq<Entity>)
    ensures forall e :: e in q <==> e.ScreenEntity? && e.screen in s && e.screen.loader.preLoad
    ensures |q| <= |s|
  {
    if s == [] then []
    else (if s[0].loader.preLoad then [ScreenEntity(s[0])] else []) + PreloadScreens(s[1..])
  }

  function PreloadPopups(s: seq<PopupConfig>): (q: seq<Entity>)
    ensures forall e :: e in q <==> e.PopupEntity? && e.popup in s && e.popup.loader.preLoad
    ensures |q| <= |s|
  {
    if s == [] then []
    else (if s[0].loader.preLoad then [PopupEntity(s[0])] else []) + PreloadPopups(s[1..])
  }

  /** The preload queue built from a flow configuration. */
  function PreloadCandidates(config: FlowConfig): (q: seq<Entity>)
    ensures forall e :: e in q <==>
      (e.ScreenEntity? && e.screen in config.screens && e.screen.loader.preLoad) ||
      (e.PopupEntity? && e.popup in config.popups && e.popup.loader.preLoad)
    ensures forall i, j :: 0 <= i < j < |q| && q[i].PopupEntity? ==> q[j].PopupEntity?
  {
    var a, b := PreloadScreens(config.screens), PreloadPopups(config.popups);
    assert forall i :: 0 <= i < |a| ==> a[i] in a;
    assert forall i :: 0 <= i < |b| ==> b[i] in b;
    a + b
  }

  /** The screen filter distributes over concatenation: the queue keeps the
      configuration's order, and every occurrence of a definition. */
  lemma {:induction false} PreloadScreensAppend(s: seq<ScreenConfig>, t: seq<ScreenConfig>)
    ensures PreloadScreens(s + t) == PreloadScreens(s) + PreloadScreens(t)
    decreases |s|
  {
    if s == [] {
      assert s + t == t;
    } else {
      assert (s + t)[1..] == s[1..] + t;
      PreloadScreensAppend(s[1..], t);
    }
  }

  /** A single screen is queued exactly when it asks to be preloaded. */
  lemma PreloadScreensSingle(x: ScreenConfig)
    ensures PreloadScreens([x]) == if x.loader.preLoad then [ScreenEntity(x)] else []
  {
    assert [x][1..] == [];
  }

  /** The popup filter distributes over concatenation. */
  lemma {:induction false} PreloadPopupsAppend(s: seq<PopupConfig>, t: seq<PopupConfig>)
    ensures PreloadPopups(s + t) == PreloadPopups(s) + PreloadPopups(t)
    decreases |s|
  {
    if s == [] {
      assert s + t == t;
    } else {
      assert (s + t)[1..] == s[1..] + t;
      PreloadPopupsAppend(s[1..], t);
    }
  }

  /** A single popup is queued exactly when it asks to be preloaded. */
  lemma PreloadPopupsSingle(x: PopupConfig)
    ensures PreloadPopups([x]) == if x.loader.preLoad then [PopupEntity(x)] else []
  {
    assert [x][1..] == [];
  }

  /** Each screen is queued as many times as it is configured, when it asks
      to be preloaded. */
  lemma {:induction false} PreloadScreensCount(s: seq<ScreenConfig>, x: ScreenConfig)
    ensures multiset(PreloadScreens(s))[ScreenEntity(x)] == if x.loader.preLoad then multiset(s)[x] else 0
    decreases |s|
  {
    if s != [] {
      assert s == [s[0]] + s[1..];
      PreloadScreensCount(s[1..], x);
    }
  }

  /** Each popup is queued as many times as it is configured, when it asks
      to be preloaded. */
  lemma {:induction false} PreloadPopupsCount(s: seq<PopupConfig>, x: PopupConfig)
    ensures multiset(PreloadPopups(s))[PopupEntity(x)] == if x.loader.preLoad then multiset(s)[x] else 0
    decreases |s|
  {
    if s != [] {
      assert s == [s[0]] + s[1..];
      PreloadPopupsCount(s[1..], x);
    }
  }

  /** Two configured screens that ask to be preloaded are queued in their
      configuration order. */
  lemma PreloadScreensOrder(s: seq<ScreenConfig>, i: nat, j: nat)
    requires i < j < |s| && s[i].loader.preLoad && s[j].loader.preLoad
    ensures exists a, b ::
              && 0 <= a < b < |PreloadScreens(s)|
              && PreloadScreens(s)[a] == ScreenEntity(s[i]) && PreloadScreens(s)[b] == ScreenEntity(s[j])
  {
    assert s == s[..j] + s[j..];
    PreloadScreensAppend(s[..j], s[j..]);
    var front, back := PreloadScreens(s[..j]), PreloadScreens(s[j..]);
    assert s[..j][i] == s[i];
    assert ScreenEntity(s[i]) in front;
    var a :| 0 <= a < |front| && front[a] == ScreenEntity(s[i]);
    assert back[0] == ScreenEntity(s[j]);
    assert PreloadScreens(s)[a] == ScreenEntity(s[i]) && PreloadScreens(s)[|front|] == ScreenEntity(s[j]);
  }

  /** The preload queue holds every configured screen and popup asking to
      be preloaded as many times as it is configured, and two such screens
      in their configuration order. */
  lemma PreloadCandidatesKeepsConfiguration(config: FlowConfig, x: ScreenConfig, y: PopupConfig, i: nat, j: nat)
    requires i < j < |config.screens| && config.screens[i].loader.preLoad && config.screens[j].loader.preLoad
    ensures var q := PreloadCandidates(config);
      && multiset(q)[ScreenEntity(x)] == (if x.loader.preLoad then multiset(config.screens)[x] else 0)
      && multiset(q)[PopupEntity(y)] == (if y.loader.preLoad then multiset(config.popups)[y] else 0)
      && exists a, b ::
           && 0 <= a < b < |q|
           && q[a] == ScreenEntity(config.screens[i]) && q[b] == ScreenEntity(config.screens[j])
  {
    var sq, pq := PreloadScreens(config.screens), PreloadPopups(config.popups);
    var q := PreloadCandidates(config);
    assert q == sq + pq;
    PreloadScreensCount(config.screens, x);
    PreloadPopupsCount(config.popups, y);
    assert ScreenEntity(x) !in pq;
    assert PopupEntity(y) !in sq;
    PreloadScreensOrder(config.screens, i, j);
    var a, b :| 0 <= a < b < |sq| && sq[a] == ScreenEntity(config.screens[i]) && sq[b] == ScreenEntity(config.screens[j]);
    assert q[a] == sq[a] && q[b] == sq[b];
  }

  /** Preloading follows configuration order: the first definition asking
      to be preloaded heads the queue. */
  lemma {:induction false} PreloadScreensHead(s: seq<ScreenConfig>, k: nat)
    requires k < |s| && s[k].loader.preLoad
    requires forall i :: 0 <= i < k ==> !s[i].loader.preLoad
    ensures PreloadScreens(s) != [] && PreloadScreens(s)[0] == ScreenEntity(s[k])
  {
    if k > 0 {
      PreloadScreensHead(s[1..], k - 1);
    }
  }
}
