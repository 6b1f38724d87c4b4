/**
 * The entity lookup built by Initialize: the screens and popups of the flow
 * configuration, then the scene-placed screens and popups, registered by
 * name with `TryAdd`, so that the first entity under a name wins and later
 * ones are reported as duplicates.
 */
module Registry {
  import opened Wrappers
  import opened UIEntities
  import opened Trace

  /** One entity offered for registration; `placed` is the pre-placed scene
      view of a scene entity, `None` for an entity of the configuration. */
  datatype Registration = Registration(entity: Entity, placed: Option<ViewId>)

  /** `entityLookup.TryAdd(name, entity)`. */
  function AddIfAbsent(m: map<Name, Entity>, r: Registration): map<Name, Entity> {
    if r.entity.Name() in m then m else m[r.entity.Name() := r.entity]
  }

  /** Registering `rs` in order, first entity per name wins. */
  function Register(m: map<Name, Entity>, rs: seq<Registration>): map<Name, Entity>
    decreases |rs|
  {
    if rs == [] then m else AddIfAbsent(Register(m, rs[..|rs| - 1]), rs[|rs| - 1])
  }

  /** What registering one entity reports: a duplicate name is logged; a
      scene entity that is registered has its placed view set as its asset. */
  function RegistrationEntry(m: map<Name, Entity>, r: Registration): seq<Event> {
    if r.entity.Name() in m then [Logged(DuplicateEntity(r.entity.Name()))]
    else if r.placed.Some? then [SceneAssetSet(r.entity, r.placed.value)]
    else []
  }

  /** What registering `rs` in order reports. */
  function RegistrationLog(m: map<Name, Entity>, rs: seq<Registration>): seq<Event>
    decreases |rs|
  {
    if rs == [] then [] else RegistrationLog(m, rs[..|rs| - 1]) + RegistrationEntry(Register(m, rs[..|rs| - 1]), rs[|rs| - 1])
  }

  /** Registering one more entity extends the lookup and the log by that
      entity's step. */
  lemma RegisterStep(m: map<Name, Entity>, rs: seq<Registration>, i: nat)
    requires i < |rs|
    ensures Register(m, rs[..i + 1]) == AddIfAbsent(Register(m, rs[..i]), rs[i])
    ensures RegistrationLog(m, rs[..i + 1]) == RegistrationLog(m, rs[..i]) + RegistrationEntry(Register(m, rs[..i]), rs[i])
  {
    assert rs[..i + 1][..i] == rs[..i];
  }

  /** The registrations of Initialize, in its order: configured screens,
      configured popups, scene screens, scene popups. */
  function Registrations(config: FlowConfig, screensInScene: seq<(ScreenConfig, ViewId)>,
                         popupsInScene: seq<(PopupConfig, ViewId)>): (rs: seq<Registration>)
    ensures |rs| == |config.screens| + |config.popups| + |screensInScene| + |popupsInScene|
  {
    ConfiguredScreens(config.screens) + ConfiguredPopups(config.popups)
    + ScenePlacedScreens(screensInScene) + ScenePlacedPopups(popupsInScene)
  }

  function ConfiguredScreens(s: seq<ScreenConfig>): (rs: seq<Registration>)
    ensures |rs| == |s| && forall i :: 0 <= i < |s| ==> rs[i] == Registration(ScreenEntity(s[i]), None)
  {
    if s == [] then [] else [Registration(ScreenEntity(s[0]), None)] + ConfiguredScreens(s[1..])
  }

  function ConfiguredPopups(s: seq<PopupConfig>): (rs: seq<Registration>)
    ensures |rs| == |s| && forall i :: 0 <= i < |s| ==> rs[i] == Registration(PopupEntity(s[i]), None)
  {
    if s == [] then [] else [Registration(PopupEntity(s[0]), None)] + ConfiguredPopups(s[1..])
  }

  function ScenePlacedScreens(s: seq<(ScreenConfig, ViewId)>): (rs: seq<Registration>)
    ensures |rs| == |s| && forall i :: 0 <= i < |s| ==> rs[i] == Registration(ScreenEntity(s[i].0), Some(s[i].1))
  {
    if s == [] then [] else [Registration(ScreenEntity(s[0].0), Some(s[0].1))] + ScenePlacedScreens(s[1..])
  }

  function ScenePlacedPopups(s: seq<(PopupConfig, ViewId)>): (rs: seq<Registration>)
    ensures |rs| == |s| && forall i :: 0 <= i < |s| ==> rs[i] == Registration(PopupEntity(s[i].0), Some(s[i].1))
  {
    if s == [] then [] else [Registration(PopupEntity(s[0].0), Some(s[0].1))] + ScenePlacedPopups(s[1..])
  }

  /** Registering two batches one after the other is registering their
      concatenation. */
  lemma {:induction false} RegisterAppend(m: map<Name, Entity>, a: seq<Registration>, b: seq<Registration>)
    ensures Register(m, a + b) == Register(Register(m, a), b)
    decreases |b|
  {
    if b == [] {
      assert a + b == a;
    } else {
      var ab := a + b;
      assert ab[..|ab| - 1] == a + b[..|b| - 1];
      assert ab[|ab| - 1] == b[|b| - 1];
      RegisterAppend(m, a, b[..|b| - 1]);
    }
  }

  /** Registration never replaces an entry: a name already present keeps its entity. */
  lemma {:induction false} RegisterKeepsExisting(m: map<Name, Entity>, rs: seq<Registration>, n: Name)
    requires n in m
    ensures n in Register(m, rs) && Register(m, rs)[n] == m[n]
    decreases |rs|
  {
    if rs != [] {
      RegisterKeepsExisting(m, rs[..|rs| - 1], n);
    }
  }

  /** Exactly the names already present and the names offered are registered. */
  lemma {:induction false} RegisterKeys(m: map<Name, Entity>, rs: seq<Registration>)
    ensures Register(m, rs).Keys == m.Keys + set i | 0 <= i < |rs| :: rs[i].entity.Name()
    decreases |rs|
  {
    if rs != [] {
      var init := rs[..|rs| - 1];
      RegisterKeys(m, init);
      var s1 := set i | 0 <= i < |init| :: init[i].entity.Name();
      var s2 := set i | 0 <= i < |rs| :: rs[i].entity.Name();
      assert s2 == s1 + {rs[|rs| - 1].entity.Name()} by {
        forall n | n in s2 ensures n in s1 + {rs[|rs| - 1].entity.Name()} {
          var i :| 0 <= i < |rs| && rs[i].entity.Name() == n;
          if i < |init| {
            assert init[i] == rs[i];
          }
        }
        forall n | n in s1 ensures n in s2 {
          var i :| 0 <= i < |init| && init[i].entity.Name() == n;
          assert rs[i] == init[i];
        }
      }
    }
  }

  /** The FIRST entity offered under a name not already present is the one
      the lookup holds for that name: later entities under the same name are
      ignored. */
  lemma {:induction false} RegisterFirstWins(m: map<Name, Entity>, rs: seq<Registration>, i: nat)
    requires i < |rs|
    requires rs[i].entity.Name() !in m
    requires forall j :: 0 <= j < i ==> rs[j].entity.Name() != rs[i].entity.Name()
    ensures rs[i].entity.Name() in Register(m, rs)
    ensures Register(m, rs)[rs[i].entity.Name()] == rs[i].entity
  {
    var n := rs[i].entity.Name();
    var before := rs[..i];
    var after := rs[i + 1..];
    assert rs == before + [rs[i]] + after;
    RegisterAppend(m, before + [rs[i]], after);
    RegisterAppend(m, before, [rs[i]]);
    RegisterKeys(m, before);
    assert n !in Register(m, before);
    assert [rs[i]][..0] == [];
    var mid := Register(m, before + [rs[i]]);
    assert mid == Register(m, before)[n := rs[i].entity];
    RegisterKeepsExisting(mid, after, n);
  }

  /** A scene view is set as the asset only of the entity the lookup ends
      up holding under its name: a scene entity that loses to an earlier
      entity of the same name is left untouched. */
  lemma {:induction false} SceneAssetSetOnlyWhenRegistered(m: map<Name, Entity>, rs: seq<Registration>, e: Entity, v: ViewId)
    requires SceneAssetSet(e, v) in RegistrationLog(m, rs)
    ensures e.Name() in Register(m, rs) && Register(m, rs)[e.Name()] == e
    decreases |rs|
  {
    var init := rs[..|rs| - 1];
    var last := rs[|rs| - 1];
    if SceneAssetSet(e, v) in RegistrationLog(m, init) {
      SceneAssetSetOnlyWhenRegistered(m, init, e, v);
      RegisterKeepsExisting(Register(m, init), [last], e.Name());
      assert [last][..0] == [];
    } else {
      assert [last][..0] == [];
    }
  }

  /** A duplicate is reported only under a name the lookup ends up
      holding an entity for. */
  lemma {:induction false} DuplicateOnlyForRegisteredName(m: map<Name, Entity>, rs: seq<Registration>, n: Name)
    requires Logged(DuplicateEntity(n)) in RegistrationLog(m, rs)
    ensures n in Register(m, rs)
    decreases |rs|
  {
    var init := rs[..|rs| - 1];
    var last := rs[|rs| - 1];
    assert [last][..0] == [];
    if Logged(DuplicateEntity(n)) in RegistrationLog(m, init) {
      DuplicateOnlyForRegisteredName(m, init, n);
      RegisterKeepsExisting(Register(m, init), [last], n);
    } else {
      RegisterKeepsExisting(Register(m, init), [last], n);
    }
  }
}
