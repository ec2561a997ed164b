/**
 Hot plugin lifecycle: install, canary and roll-back swap filters in place, and a filter that is
 no longer needed is closed later by a deferred job. Filters are identities; a fresh one is
 created by every install.
 */
module Plugins {
  import opened Common

  type Filter = nat

  // ---------------------------------------------------------------- what a plugin looks like

  /** The state of one plugin, with the two ends of its canary split. */
  datatype Plugin = Plugin(
    version: string, digest: string,
    stable: Option<Filter>, canary: Option<Filter>, percent: int,
    current: Filter, previous: Option<Filter>, previousVersion: string, previousDigest: string)

  datatype Release = Release(filter: Filter, version: string, digest: string, percent: int)

  function Clamp(percent: int): int {
    if percent < 0 then 0 else if percent > 100 then 100 else percent
  }

  /** An install over an existing plugin: the current filter becomes the previous one; a canary
      shares the existing split, anything else starts a new one. */
  function Upgraded(p: Plugin, r: Release): Plugin {
    var split :=
      if r.percent > 0 then (p.stable, Some(r.filter), Clamp(r.percent)) else (Some(r.filter), None, 0);
    Plugin(r.version, r.digest, split.0, split.1, split.2, r.filter, Some(p.current), p.version, p.digest)
  }

  function Installed(r: Release): Plugin {
    Plugin(r.version, r.digest, Some(r.filter), None, 0, r.filter, None, "", "")
  }

  /** What an upgrade leaves behind: the filter that was kept for a roll-back until now. */
  function LeftBehind(p: Plugin): seq<Filter> {
    if p.previous.Some? && p.previous.value != p.current then [p.previous.value] else []
  }

  function RolledBack(p: Plugin): Plugin
    requires p.previous.Some?
  {
    Plugin(p.previousVersion, p.previousDigest, p.previous, None, 0, p.previous.value, None, "", "")
  }

  // ---------------------------------------------------------------- the objects

  class CanaryFilter {
    var stable: Option<Filter>
    var canary: Option<Filter>
    var percent: int

    constructor (stable: Option<Filter>)
      ensures this.stable == stable && canary == None && percent == 0
    {
      this.stable, canary, percent := stable, None, 0;
    }

    method SetCanary(canary: Filter, percentage: int)
      modifies this
      ensures this.canary == Some(canary) && percent == Clamp(percentage) && stable == old(stable)
      ensures 0 <= percent <= 100
    {
      this.canary := Some(canary);
      var p := percentage;
      if p < 0 {
        p := 0;
      } else if p > 100 {
        p := 100;
      }
      percent := p;
    }

    /** The canary, if there is one, becomes the stable filter. */
    method PromoteCanary() returns (oldStable: Option<Filter>)
      modifies this
      ensures oldStable == old(stable)
      ensures stable == if old(canary).Some? then old(canary) else old(stable)
      ensures canary == None && percent == if old(canary).Some? then 0 else old(percent)
    {
      oldStable := stable;
      if canary.Some? {
        stable, canary, percent := canary, None, 0;
      }
    }

    method ClearCanary() returns (oldCanary: Option<Filter>)
      modifies this
      ensures oldCanary == old(canary) && canary == None && percent == 0 && stable == old(stable)
    {
      oldCanary := canary;
      canary, percent := None, 0;
    }

    method ActiveFilters() returns (s: Option<Filter>, c: Option<Filter>)
      ensures s == stable && c == canary
    {
      return stable, canary;
    }
  }

  datatype ActiveState = ActiveState(
    version: string, digest: string, split: CanaryFilter,
    current: Filter, previous: Option<Filter>, previousVersion: string, previousDigest: string)

  class PluginManager {
    var plugins: map<string, ActiveState>
    var scheduled: seq<Filter>

    /** No two plugins share a split. */
    ghost predicate Valid()
      reads this
    {
      forall a, b | a in plugins && b in plugins && a != b :: plugins[a].split != plugins[b].split
    }

    ghost function PluginAt(id: string): Plugin
      requires id in plugins
      reads this, plugins[id].split
    {
      var st := plugins[id];
      Plugin(st.version, st.digest, st.split.stable, st.split.canary, st.split.percent,
             st.current, st.previous, st.previousVersion, st.previousDigest)
    }

    constructor ()
      ensures Valid() && plugins == map[] && scheduled == []
    {
      plugins, scheduled := map[], [];
    }

    /** A positive percentage makes the new filter the canary of the same split; otherwise it gets
        a split of its own. */
    static method Route(split: CanaryFilter, r: Release) returns (next: CanaryFilter)
      modifies split
      ensures next == split || fresh(next)
      ensures r.percent > 0 ==>
                && next == split && next.stable == old(split.stable)
                && next.canary == Some(r.filter) && next.percent == Clamp(r.percent)
      ensures r.percent <= 0 ==>
                fresh(next) && next.stable == Some(r.filter) && next.canary == None && next.percent == 0
    {
      next := split;
      if r.percent > 0 {
        next.SetCanary(r.filter, r.percent);
      } else {
        var _ := next.ClearCanary();
        next := new CanaryFilter(Some(r.filter));
      }
    }

    method InstallFirst(id: string, r: Release)
      requires Valid() && id !in plugins
      modifies this`plugins
      ensures Valid() && plugins.Keys == old(plugins).Keys + {id} && PluginAt(id) == Installed(r)
      ensures forall other | other in old(plugins) :: plugins[other] == old(plugins)[other]
    {
      var split := new CanaryFilter(Some(r.filter));
      plugins := plugins[id := ActiveState(r.version, r.digest, split, r.filter, None, "", "")];
    }

    /** The atomic swap at the end of a successful install. */
    method Install(id: string, r: Release)
      requires Valid()
      modifies this, if id in plugins then {plugins[id].split} else {}
      ensures Valid() && plugins.Keys == old(plugins).Keys + {id}
      ensures PluginAt(id) == if id in old(plugins) then Upgraded(old(PluginAt(id)), r) else Installed(r)
      ensures forall other | other in old(plugins) && other != id :: PluginAt(other) == old(PluginAt(other))
      ensures scheduled == old(scheduled) + if id in old(plugins) then LeftBehind(old(PluginAt(id))) else []
    {
      if id !in plugins {
        InstallFirst(id, r);
        return;
      }
      var existing := plugins[id];
      if existing.previous.Some? && existing.previous.value != existing.current {
        scheduled := scheduled + [existing.previous.value];
      }
      var split := Route(existing.split, r);
      plugins := plugins[id := ActiveState(r.version, r.digest, split, r.filter,
                                           Some(existing.current), existing.version, existing.digest)];
    }

    /** Rollback: back to the previous filter, which is refused when there is none. */
    method Rollback(id: string) returns (ok: bool)
      requires Valid()
      modifies this, if id in plugins then {plugins[id].split} else {}
      ensures Valid() && plugins.Keys == old(plugins).Keys
      ensures ok <==> id in old(plugins) && old(plugins)[id].previous.Some?
      ensures forall other | other in plugins && (other != id || !ok) :: PluginAt(other) == old(PluginAt(other))
      ensures ok ==> PluginAt(id) == RolledBack(old(PluginAt(id)))
      ensures scheduled == old(scheduled) + if ok then [old(plugins)[id].current] else []
    {
      if id !in plugins || plugins[id].previous.None? {
        return false;
      }
      var st := plugins[id];
      var _ := st.split.ClearCanary();
      var _ := st.split.PromoteCanary();
      var split := new CanaryFilter(st.previous);
      scheduled := scheduled + [st.current];
      plugins := plugins[id := ActiveState(st.previousVersion, st.previousDigest, split, st.previous.value, None, "", "")];
      return true;
    }

    /** GetFilter hands out the split; its two ends are what requests can reach. */
    method GetFilter(id: string) returns (split: Option<CanaryFilter>)
      ensures split.Some? <==> id in plugins
      ensures split.Some? ==> split.value.stable == PluginAt(id).stable && split.value.canary == PluginAt(id).canary
    {
      if id !in plugins {
        return None;
      }
      return Some(plugins[id].split);
    }
  }

  // ---------------------------------------------------------------- lifecycles

  datatype System = System(plugins: map<string, Plugin>, scheduled: seq<Filter>, installed: set<Filter>)

  datatype Step = InstallStep(id: string, r: Release) | RollbackStep(id: string)

  /** Every install brings a filter of its own. */
  predicate Enabled(s: System, step: Step) {
    step.InstallStep? ==> step.r.filter !in s.installed
  }

  function Apply(s: System, step: Step): System {
    match step
    case InstallStep(id, r) =>
      if id in s.plugins
      then System(s.plugins[id := Upgraded(s.plugins[id], r)], s.scheduled + LeftBehind(s.plugins[id]),
                  s.installed + {r.filter})
      else System(s.plugins[id := Installed(r)], s.scheduled, s.installed + {r.filter})
    case RollbackStep(id) =>
      if id in s.plugins && s.plugins[id].previous.Some?
      then s.(plugins := s.plugins[id := RolledBack(s.plugins[id])], scheduled := s.scheduled + [s.plugins[id].current])
      else s
  }

  /** The filters a request can reach through GetFilter. */
  function Reachable(p: Plugin): set<Filter> {
    (if p.stable.Some? then {p.stable.value} else {}) + (if p.canary.Some? then {p.canary.value} else {})
  }

  ghost predicate Safe(s: System) {
    forall id | id in s.plugins :: forall x | x in Reachable(s.plugins[id]) :: x !in s.scheduled
  }

  /** A place where a plugin keeps a filter: as its current or as its previous one. */
  datatype Slot = Slot(id: string, current: bool)

  ghost predicate Keeps(s: System, slot: Slot, x: Filter) {
    slot.id in s.plugins
    && if slot.current then s.plugins[slot.id].current == x else s.plugins[slot.id].previous == Some(x)
  }

  /** Every installed filter is current once, previous once or scheduled for closing once, and
      nothing else is kept or scheduled. */
  ghost predicate Accounted(s: System) {
    && (forall a, b, x | Keeps(s, a, x) && Keeps(s, b, x) :: a == b)
    && (forall a, x | Keeps(s, a, x) :: x !in s.scheduled && x in s.installed)
    && (forall i, j | 0 <= i < j < |s.scheduled| :: s.scheduled[i] != s.scheduled[j])
    && (forall i | 0 <= i < |s.scheduled| :: s.scheduled[i] in s.installed)
    && (forall x | x in s.installed :: x in s.scheduled || exists a :: Keeps(s, a, x))
  }

  /** Without a canary the split serves the current filter; with one it serves the previous
      filter and the current one. */
  predicate InStep(p: Plugin) {
    if p.canary.None? then p.stable == Some(p.current)
    else p.canary == Some(p.current) && p.previous.Some? && p.stable == p.previous
  }

  ghost predicate Good(s: System) {
    Accounted(s) && forall id | id in s.plugins :: InStep(s.plugins[id])
  }

  lemma GoodIsSafe(s: System)
    requires Good(s)
    ensures Safe(s)
  {
    forall id, x | id in s.plugins && x in Reachable(s.plugins[id])
      ensures x !in s.scheduled
    {
      assert Keeps(s, Slot(id, true), x) || Keeps(s, Slot(id, false), x);
    }
  }

  /** The step this lifecycle cannot take safely: a canary on top of an active canary. */
  predicate CanaryOverCanary(s: System, step: Step) {
    step.InstallStep? && step.r.percent > 0 && step.id in s.plugins && s.plugins[step.id].canary.Some?
  }

  lemma InstallKeepsAccounts(s: System, id: string, r: Release)
    requires Accounted(s) && r.filter !in s.installed
    ensures Accounted(Apply(s, InstallStep(id, r)))
  {
    var s' := Apply(s, InstallStep(id, r));
    forall a, x | Keeps(s', a, x)
      ensures || (x == r.filter && a == Slot(id, true))
              || (Keeps(s, if a == Slot(id, false) then Slot(id, true) else a, x) && (a.id == id ==> a == Slot(id, false)))
    {
    }
    forall x | x in s'.installed
      ensures x in s'.scheduled || exists a :: Keeps(s', a, x)
    {
      if x == r.filter {
        assert Keeps(s', Slot(id, true), x);
      } else if x !in s.scheduled {
        var a :| Keeps(s, a, x);
        if a == Slot(id, true) {
          assert Keeps(s', Slot(id, false), x);
        } else if a == Slot(id, false) {
          assert Keeps(s, Slot(id, true), s.plugins[id].current);
          assert LeftBehind(s.plugins[id]) == [x];
        } else {
          assert Keeps(s', a, x);
        }
      }
    }
    if id in s.plugins && s.plugins[id].previous.Some? {
      assert Keeps(s, Slot(id, false), s.plugins[id].previous.value);
    }
  }

  lemma RollbackKeepsAccounts(s: System, id: string)
    requires Accounted(s) && id in s.plugins && s.plugins[id].previous.Some?
    ensures Accounted(Apply(s, RollbackStep(id)))
  {
    var s' := Apply(s, RollbackStep(id));
    assert Keeps(s, Slot(id, true), s.plugins[id].current);
    forall a, x | Keeps(s', a, x)
      ensures Keeps(s, if a == Slot(id, true) then Slot(id, false) else a, x) && a != Slot(id, false)
    {
    }
    forall x | x in s'.installed
      ensures x in s'.scheduled || exists a :: Keeps(s', a, x)
    {
      if x !in s.scheduled {
        var a :| Keeps(s, a, x);
        if a == Slot(id, false) {
          assert Keeps(s', Slot(id, true), x);
        } else if a != Slot(id, true) {
          assert Keeps(s', a, x);
        }
      }
    }
  }

  /** Accounting survives every step, safe or not; the rest survives every other step. */
  lemma StepKeepsGood(s: System, step: Step)
    requires Accounted(s) && Enabled(s, step)
    ensures Accounted(Apply(s, step))
    ensures Good(s) && !CanaryOverCanary(s, step) ==> Good(Apply(s, step))
    ensures Good(s) && CanaryOverCanary(s, step) ==> !Safe(Apply(s, step))
  {
    match step
    case InstallStep(id, r) =>
      InstallKeepsAccounts(s, id, r);
      if Good(s) && CanaryOverCanary(s, step) {
        var p := s.plugins[id];
        assert Keeps(s, Slot(id, false), p.previous.value) && Keeps(s, Slot(id, true), p.current);
        var s' := Apply(s, step);
        assert p.stable.value in Reachable(s'.plugins[id]) && s'.scheduled[|s.scheduled|] == p.stable.value;
      }
    case RollbackStep(id) =>
      if id in s.plugins && s.plugins[id].previous.Some? {
        RollbackKeepsAccounts(s, id);
      }
  }

  ghost predicate Legal(s: System, steps: seq<Step>)
    decreases |steps|
  {
    |steps| == 0 || (Enabled(s, steps[0]) && Legal(Apply(s, steps[0]), steps[1..]))
  }

  ghost predicate AlwaysSafe(s: System, steps: seq<Step>)
    decreases |steps|
  {
    Safe(s) && (|steps| == 0 || AlwaysSafe(Apply(s, steps[0]), steps[1..]))
  }

  ghost predicate NoCanaryOverCanary(s: System, steps: seq<Step>)
    decreases |steps|
  {
    |steps| == 0 || (!CanaryOverCanary(s, steps[0]) && NoCanaryOverCanary(Apply(s, steps[0]), steps[1..]))
  }

  /** A lifecycle never schedules a reachable filter for closing exactly when it never starts a
      canary while another canary of the same plugin is active. */
  lemma {:induction false} SafeIff(s: System, steps: seq<Step>)
    requires Good(s) && Legal(s, steps)
    ensures AlwaysSafe(s, steps) <==> NoCanaryOverCanary(s, steps)
    decreases |steps|
  {
    GoodIsSafe(s);
    if |steps| > 0 {
      StepKeepsGood(s, steps[0]);
      if !CanaryOverCanary(s, steps[0]) {
        SafeIff(Apply(s, steps[0]), steps[1..]);
      } else if |steps[1..]| == 0 {
        assert !AlwaysSafe(Apply(s, steps[0]), steps[1..]);
      }
    }
  }

  ghost function Exec(s: System, steps: seq<Step>): System
    decreases |steps|
  {
    if |steps| == 0 then s else Exec(Apply(s, steps[0]), steps[1..])
  }

  /** In every lifecycle at all, each installed filter is current, previous or scheduled for
      closing, exactly once. */
  lemma {:induction false} FiltersAccounted(s: System, steps: seq<Step>)
    requires Accounted(s) && Legal(s, steps)
    ensures Accounted(Exec(s, steps))
    decreases |steps|
  {
    if |steps| > 0 {
      StepKeepsGood(s, steps[0]);
      FiltersAccounted(Apply(s, steps[0]), steps[1..]);
    }
  }

  lemma EmptyIsGood()
    ensures Good(System(map[], [], {}))
  {
  }

  /** An upgrade followed by a roll-back restores filter, version and digest, serves that filter
      alone, and schedules the upgrade's filter for closing. The roll-back of a first install is refused. */
  lemma RollbackUndoesInstall(s: System, id: string, r: Release)
    requires Enabled(s, InstallStep(id, r))
    ensures var upgraded := Apply(s, InstallStep(id, r));
            var back := Apply(upgraded, RollbackStep(id));
            if id in s.plugins then
              && id in back.plugins
              && back.plugins[id].current == s.plugins[id].current
              && back.plugins[id].version == s.plugins[id].version
              && back.plugins[id].digest == s.plugins[id].digest
              && Reachable(back.plugins[id]) == {s.plugins[id].current}
              && back.scheduled == s.scheduled + LeftBehind(s.plugins[id]) + [r.filter]
              && (forall other | other != id :: (other in back.plugins <==> other in s.plugins)
                    && (other in s.plugins ==> back.plugins[other] == s.plugins[other]))
            else back == upgraded
  {
  }
}
