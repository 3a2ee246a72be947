/** An inventory of plugins grouped by source, the drift found in it, and plans towards a lockfile. */
module Fleet {
  import opened Base
  import opened Ordering
  import opened Federation

  datatype PluginSource = PluginSource(kind: string, owner: string, repo: string, subdir: Option<string>) {
    /** The derived order: field by field, an absent directory before any present one. */
    function Path(): seq<string> { [kind, owner, repo] + if subdir.Some? then [subdir.value] else [] }

    function InstallArgument(): string {
      owner + "/" + repo + if subdir.Some? then "/" + subdir.value else ""
    }
  }

  predicate SourceLess(a: PluginSource, b: PluginSource) { PathLess(a.Path(), b.Path()) }

  lemma SourceLessTotal()
    ensures StrictTotal(SourceLess)
  {
    PathLessTotal();
    forall a: PluginSource, b: PluginSource | a != b ensures SourceLess(a, b) || SourceLess(b, a) {
      var p, q := a.Path(), b.Path();
      assert p == q ==> a == b by {
        assert a == PluginSource(p[0], p[1], p[2], if |p| > 3 then Some(p[3]) else None);
        assert b == PluginSource(q[0], q[1], q[2], if |q| > 3 then Some(q[3]) else None);
      }
    }
  }

  function SourceOrder(sources: set<PluginSource>): (r: seq<PluginSource>)
    ensures Increasing(r, SourceLess) && |r| == |sources| && Taken(r, |r|) == sources
  {
    SourceLessTotal();
    Ascending(sources, SourceLess)
  }

  datatype Plugin = Plugin(
    id: string, name: string, version: string, enabled: bool, source: Option<PluginSource>,
    requestedRef: Option<string>, resolvedCommit: Option<string>)
  {
    /** The resolved commit, or failing that the reference asked for. */
    function At(): Option<string> { if resolvedCommit.Some? then resolvedCommit else requestedRef }
  }

  type Installed = map<TargetSession, seq<Plugin>>

  // ----- by source -----

  /** The last plugin listed from this source, the one that stays when a host lists several. */
  function LastFrom(plugins: seq<Plugin>, source: PluginSource): Option<Plugin> {
    if plugins == [] then None
    else if plugins[|plugins| - 1].source == Some(source) then Some(plugins[|plugins| - 1])
    else LastFrom(plugins[..|plugins| - 1], source)
  }

  /** The first one, which is the one a plan looks at. */
  function FirstFrom(plugins: seq<Plugin>, source: PluginSource): Option<Plugin> {
    if plugins == [] then None
    else if plugins[0].source == Some(source) then Some(plugins[0])
    else FirstFrom(plugins[1..], source)
  }

  type Grouped = map<PluginSource, map<TargetSession, Plugin>>

  function Lookup(grouped: Grouped, source: PluginSource, target: TargetSession): Option<Plugin> {
    if source in grouped && target in grouped[source] then Some(grouped[source][target]) else None
  }

  function Entered(grouped: Grouped, source: PluginSource, target: TargetSession, plugin: Plugin): Grouped {
    grouped[source := (if source in grouped then grouped[source] else map[])[target := plugin]]
  }

  function Holder(
    installed: Installed, met: set<TargetSession>, source: PluginSource, target: TargetSession): Option<Plugin> {
    if target in met && target in installed then LastFrom(installed[target], source) else None
  }

  /** Every source held anywhere is a key, and under it stands every host that holds it. */
  ghost predicate IsGrouping(grouped: Grouped, installed: Installed, met: set<TargetSession>) {
    && (forall source, target :: Lookup(grouped, source, target) == Holder(installed, met, source, target))
    && (forall source | source in grouped :: grouped[source] != map[])
  }

  /** The same, part of the way through one more host's plugins. */
  ghost predicate IsPartial(
    grouped: Grouped, installed: Installed, met: set<TargetSession>, at: TargetSession, plugins: seq<Plugin>) {
    && (forall source, target :: Lookup(grouped, source, target)
          == if target == at then LastFrom(plugins, source) else Holder(installed, met, source, target))
    && (forall source | source in grouped :: grouped[source] != map[])
  }

  lemma PartialStep(
    grouped: Grouped, installed: Installed, met: set<TargetSession>, at: TargetSession,
    plugins: seq<Plugin>, plugin: Plugin)
    requires IsPartial(grouped, installed, met, at, plugins)
    ensures plugin.source.None? ==> IsPartial(grouped, installed, met, at, plugins + [plugin])
    ensures plugin.source.Some? ==>
      IsPartial(Entered(grouped, plugin.source.value, at, plugin), installed, met, at, plugins + [plugin])
  {
    assert (plugins + [plugin])[..|plugins|] == plugins;
    if plugin.source.Some? {
      var after := Entered(grouped, plugin.source.value, at, plugin);
      forall source, target
        ensures Lookup(after, source, target) ==
          if target == at then LastFrom(plugins + [plugin], source) else Holder(installed, met, source, target)
      {
        assert Lookup(grouped, source, target)
          == if target == at then LastFrom(plugins, source) else Holder(installed, met, source, target);
      }
      assert at in after[plugin.source.value];
    }
  }

  lemma PartialOpens(grouped: Grouped, installed: Installed, met: set<TargetSession>, at: TargetSession)
    requires IsGrouping(grouped, installed, met) && at !in met
    ensures IsPartial(grouped, installed, met, at, [])
  {
  }

  lemma PartialCloses(grouped: Grouped, installed: Installed, met: set<TargetSession>, at: TargetSession)
    requires at in installed && IsPartial(grouped, installed, met, at, installed[at])
    ensures IsGrouping(grouped, installed, met + {at})
  {
  }

  /** Enter one more host's plugins under their sources. */
  method GroupHost(grouped0: Grouped, target: TargetSession, plugins: seq<Plugin>,
                   ghost installed: Installed, ghost met: set<TargetSession>)
    returns (grouped: Grouped)
    requires IsGrouping(grouped0, installed, met) && target !in met
    requires target in installed && plugins == installed[target]
    ensures IsGrouping(grouped, installed, met + {target})
  {
    grouped := grouped0;
    PartialOpens(grouped, installed, met, target);
    for j := 0 to |plugins|
      invariant IsPartial(grouped, installed, met, target, plugins[..j])
    {
      PartialStep(grouped, installed, met, target, plugins[..j], plugins[j]);
      assert plugins[..j] + [plugins[j]] == plugins[..j + 1];
      if plugins[j].source.Some? {
        var source := plugins[j].source.value;
        var holders := if source in grouped then grouped[source] else map[];
        grouped := grouped[source := holders[target := plugins[j]]];
      }
    }
    assert plugins[..|plugins|] == plugins;
    PartialCloses(grouped, installed, met, target);
  }

  lemma NothingGrouped(installed: Installed)
    ensures IsGrouping(map[], installed, {})
  {
  }

  /** The grouping of an inventory, host by host in session order. */
  method BySource(installed: Installed) returns (grouped: Grouped)
    ensures IsGrouping(grouped, installed, installed.Keys)
  {
    var order := SessionOrder(installed.Keys);
    grouped := map[];
    NothingGrouped(installed);
    for i := 0 to |order|
      invariant IsGrouping(grouped, installed, Taken(order, i))
    {
      SessionStep(order, i);
      grouped := GroupHost(grouped, order[i], installed[order[i]], installed, Taken(order, i));
    }
  }

  // ----- drift -----

  datatype Drift =
    | Missing(source: PluginSource, presentOn: seq<TargetSession>, absentFrom: seq<TargetSession>)
    | Versions(source: PluginSource, versions: map<string, seq<TargetSession>>)
    | Commits(source: PluginSource, commits: map<string, seq<TargetSession>>)
    | Disabled(source: PluginSource, disabledOn: seq<TargetSession>)
    | LocalOnly(target: TargetSession, pluginId: string, name: string)

  type Holders = map<TargetSession, Plugin>

  function Absent(answered: seq<TargetSession>, n: nat, holders: Holders): seq<TargetSession>
    requires n <= |answered|
  {
    if n == 0 then []
    else if answered[n - 1] in holders then Absent(answered, n - 1, holders)
    else Absent(answered, n - 1, holders) + [answered[n - 1]]
  }

  function VersionOf(plugin: Plugin): Option<string> { Some(plugin.version) }

  function CommitOf(plugin: Plugin): Option<string> { plugin.resolvedCommit }

  /** Hosts by what their copy answers. */
  function Tally(order: seq<TargetSession>, n: nat, holders: Holders, asked: Plugin -> Option<string>)
    : map<string, seq<TargetSession>>
    requires n <= |order| && Taken(order, n) <= holders.Keys
  {
    if n == 0 then map[]
    else Entry(Tally(order, n - 1, holders, asked), asked(holders[order[n - 1]]), order[n - 1])
  }

  function Entry(tally: map<string, seq<TargetSession>>, answer: Option<string>, target: TargetSession)
    : map<string, seq<TargetSession>>
  {
    if answer.None? then tally
    else tally[answer.value := (if answer.value in tally then tally[answer.value] else []) + [target]]
  }

  function Off(order: seq<TargetSession>, n: nat, holders: Holders): seq<TargetSession>
    requires n <= |order| && Taken(order, n) <= holders.Keys
  {
    if n == 0 then []
    else if holders[order[n - 1]].enabled then Off(order, n - 1, holders)
    else Off(order, n - 1, holders) + [order[n - 1]]
  }

  /** At most one finding: commits are compared only where one version is reported. */
  function CopiesDiffer(source: PluginSource, order: seq<TargetSession>, holders: Holders): seq<Drift>
    requires Taken(order, |order|) <= holders.Keys
  {
    var versions, commits := Tally(order, |order|, holders, VersionOf), Tally(order, |order|, holders, CommitOf);
    if |versions| > 1 then [Versions(source, versions)]
    else if |commits| > 1 then [Commits(source, commits)]
    else []
  }

  function SourceDrift(source: PluginSource, answered: seq<TargetSession>, holders: Holders): seq<Drift> {
    var order := SessionOrder(holders.Keys);
    var absent, off := Absent(answered, |answered|, holders), Off(order, |order|, holders);
    (if absent == [] then [] else [Missing(source, order, absent)])
    + CopiesDiffer(source, order, holders)
    + if off == [] then [] else [Disabled(source, off)]
  }

  function Compared(grouped: Grouped, sources: seq<PluginSource>, n: nat, answered: seq<TargetSession>): seq<Drift>
    requires n <= |sources| && Taken(sources, n) <= grouped.Keys
  {
    if n == 0 then []
    else Compared(grouped, sources, n - 1, answered) + SourceDrift(sources[n - 1], answered, grouped[sources[n - 1]])
  }

  function LocalPlugins(target: TargetSession, plugins: seq<Plugin>): seq<Drift> {
    if plugins == [] then []
    else
      var last := plugins[|plugins| - 1];
      LocalPlugins(target, plugins[..|plugins| - 1])
      + if last.source.None? then [LocalOnly(target, last.id, last.name)] else []
  }

  function Locals(installed: Installed, order: seq<TargetSession>, n: nat): seq<Drift>
    requires n <= |order| && Taken(order, n) <= installed.Keys
  {
    if n == 0 then [] else Locals(installed, order, n - 1) + LocalPlugins(order[n - 1], installed[order[n - 1]])
  }

  function DriftOf(installed: Installed, grouped: Grouped): seq<Drift> {
    var answered, sources := SessionOrder(installed.Keys), SourceOrder(grouped.Keys);
    Compared(grouped, sources, |sources|, answered) + Locals(installed, answered, |answered|)
  }

  method FindAbsent(answered: seq<TargetSession>, holders: Holders) returns (absent: seq<TargetSession>)
    ensures absent == Absent(answered, |answered|, holders)
  {
    absent := [];
    for i := 0 to |answered|
      invariant absent == Absent(answered, i, holders)
    {
      if answered[i] !in holders {
        absent := absent + [answered[i]];
      }
    }
  }

  method CompareHolders(order: seq<TargetSession>, holders: Holders)
    returns (versions: map<string, seq<TargetSession>>, commits: map<string, seq<TargetSession>>,
             off: seq<TargetSession>)
    requires Increasing(order, SessionLess) && Taken(order, |order|) == holders.Keys
    ensures versions == Tally(order, |order|, holders, VersionOf)
    ensures commits == Tally(order, |order|, holders, CommitOf)
    ensures off == Off(order, |order|, holders)
  {
    versions, commits, off := map[], map[], [];
    for i := 0 to |order|
      invariant Taken(order, i) <= holders.Keys
      invariant versions == Tally(order, i, holders, VersionOf)
      invariant commits == Tally(order, i, holders, CommitOf)
      invariant off == Off(order, i, holders)
    {
      SessionStep(order, i);
      var target := order[i];
      var plugin := holders[target];
      versions := Entry(versions, VersionOf(plugin), target);
      commits := Entry(commits, CommitOf(plugin), target);
      if !plugin.enabled {
        off := off + [target];
      }
    }
  }

  /** What differs in one plugin across the hosts that hold it and those that do not. */
  method CompareCopies(source: PluginSource, answered: seq<TargetSession>, holders: Holders) returns (drift: seq<Drift>)
    ensures drift == SourceDrift(source, answered, holders)
  {
    var absent := FindAbsent(answered, holders);
    var order := SessionOrder(holders.Keys);
    var versions, commits, off := CompareHolders(order, holders);
    drift := Report(source, order, absent, off, versions, commits);
    DriftInParts(source, answered, holders, absent, off, versions, commits);
  }

  method Report(
    source: PluginSource, order: seq<TargetSession>, absent: seq<TargetSession>, off: seq<TargetSession>,
    versions: map<string, seq<TargetSession>>, commits: map<string, seq<TargetSession>>)
    returns (drift: seq<Drift>)
    ensures drift == Findings(source, order, absent, off, versions, commits)
  {
    drift := [];
    if absent != [] {
      drift := drift + [Missing(source, order, absent)];
    }
    if |versions| > 1 {
      drift := drift + [Versions(source, versions)];
    } else if |commits| > 1 {
      drift := drift + [Commits(source, commits)];
    }
    if off != [] {
      drift := drift + [Disabled(source, off)];
    }
  }

  /** The findings on one plugin, one after the other. */
  function Findings(
    source: PluginSource, order: seq<TargetSession>, absent: seq<TargetSession>, off: seq<TargetSession>,
    versions: map<string, seq<TargetSession>>, commits: map<string, seq<TargetSession>>): seq<Drift>
  {
    (if absent == [] then [] else [Missing(source, order, absent)])
    + (if |versions| > 1 then [Versions(source, versions)]
       else if |commits| > 1 then [Commits(source, commits)] else [])
    + if off == [] then [] else [Disabled(source, off)]
  }

  lemma DriftInParts(
    source: PluginSource, answered: seq<TargetSession>, holders: Holders, absent: seq<TargetSession>,
    off: seq<TargetSession>, versions: map<string, seq<TargetSession>>, commits: map<string, seq<TargetSession>>)
    requires absent == Absent(answered, |answered|, holders)
    requires var order := SessionOrder(holders.Keys);
      && off == Off(order, |order|, holders)
      && versions == Tally(order, |order|, holders, VersionOf) && commits == Tally(order, |order|, holders, CommitOf)
    ensures Findings(source, SessionOrder(holders.Keys), absent, off, versions, commits)
         == SourceDrift(source, answered, holders)
  {
  }

  method FindHostLocals(target: TargetSession, plugins: seq<Plugin>) returns (drift: seq<Drift>)
    ensures drift == LocalPlugins(target, plugins)
  {
    drift := [];
    for j := 0 to |plugins|
      invariant drift == LocalPlugins(target, plugins[..j])
    {
      assert plugins[..j + 1][..j] == plugins[..j];
      if plugins[j].source.None? {
        drift := drift + [LocalOnly(target, plugins[j].id, plugins[j].name)];
      }
    }
    assert plugins[..|plugins|] == plugins;
  }

  method FindLocals(installed: Installed, answered: seq<TargetSession>) returns (drift: seq<Drift>)
    requires Increasing(answered, SessionLess) && Taken(answered, |answered|) == installed.Keys
    ensures drift == Locals(installed, answered, |answered|)
  {
    drift := [];
    for i := 0 to |answered|
      invariant Taken(answered, i) <= installed.Keys
      invariant drift == Locals(installed, answered, i)
    {
      SessionStep(answered, i);
      var found := FindHostLocals(answered[i], installed[answered[i]]);
      drift := drift + found;
    }
  }

  /** There is one grouping of an inventory. */
  lemma GroupingUnique(a: Grouped, b: Grouped, installed: Installed)
    requires IsGrouping(a, installed, installed.Keys) && IsGrouping(b, installed, installed.Keys)
    ensures a == b
  {
    forall source
      ensures (source in a <==> source in b) && (source in a ==> a[source] == b[source])
    {
      HoldersAgree(a, b, source);
    }
    MapsAgree(a, b);
  }

  lemma HoldersAgree(a: Grouped, b: Grouped, source: PluginSource)
    requires forall s, t :: Lookup(a, s, t) == Lookup(b, s, t)
    requires (source in a ==> a[source] != map[]) && (source in b ==> b[source] != map[])
    ensures (source in a <==> source in b) && (source in a ==> a[source] == b[source])
  {
    if source in a {
      var t :| t in a[source];
      assert Lookup(a, source, t).Some?;
    }
    if source in b {
      var t :| t in b[source];
      assert Lookup(b, source, t).Some?;
    }
    if source in a {
      forall t
        ensures (t in a[source] <==> t in b[source]) && (t in a[source] ==> a[source][t] == b[source][t])
      {
        assert Lookup(a, source, t) == Lookup(b, source, t);
      }
      MapsAgree(a[source], b[source]);
    }
  }

  /** What differs, source by source. */
  method CompareSources(grouped: Grouped, answered: seq<TargetSession>) returns (drift: seq<Drift>)
    ensures var sources := SourceOrder(grouped.Keys); drift == Compared(grouped, sources, |sources|, answered)
  {
    var sources := SourceOrder(grouped.Keys);
    drift := [];
    for i := 0 to |sources|
      invariant Taken(sources, i) <= grouped.Keys
      invariant drift == Compared(grouped, sources, i, answered)
    {
      SourceStep(sources, i);
      var found := CompareCopies(sources[i], answered, grouped[sources[i]]);
      drift := drift + found;
    }
  }

  /** The drift of the one grouping there is: source by source, then the plugins that have none. */
  method FindDrift(installed: Installed) returns (drift: seq<Drift>)
    ensures exists grouped :: IsGrouping(grouped, installed, installed.Keys)
    ensures forall grouped | IsGrouping(grouped, installed, installed.Keys) :: drift == DriftOf(installed, grouped)
  {
    var answered := SessionOrder(installed.Keys);
    var bySource := BySource(installed);
    drift := CompareSources(bySource, answered);
    var locals := FindLocals(installed, answered);
    drift := drift + locals;
    forall grouped | IsGrouping(grouped, installed, installed.Keys)
      ensures drift == DriftOf(installed, grouped)
    {
      GroupingUnique(grouped, bySource, installed);
    }
  }

  lemma SourceStep(s: seq<PluginSource>, n: nat)
    requires Increasing(s, SourceLess) && n < |s|
    ensures s[n] !in Taken(s, n) && s[n] in Taken(s, |s|)
  {
    SourceLessTotal();
    TakenStep(s, n, SourceLess);
  }

  // ----- lockfiles and plans -----

  datatype LockedPlugin = LockedPlugin(source: PluginSource, reference: string, version: string)

  datatype Action = Install | Update

  datatype PlanStep = PlanStep(
    target: TargetSession, source: PluginSource, action: Action, previous: Option<string>,
    reference: string, command: string)

  function Pinned(plugin: Plugin): Option<LockedPlugin> {
    if plugin.source.None? || plugin.At().None? then None
    else Some(LockedPlugin(plugin.source.value, plugin.At().value, plugin.version))
  }

  function AllPinned(plugins: seq<Plugin>): seq<LockedPlugin> {
    if plugins == [] then []
    else (if Pinned(plugins[0]).Some? then [Pinned(plugins[0]).value] else []) + AllPinned(plugins[1..])
  }

  /** Every plugin of a host that has a source and something to pin it to, or nothing for an unknown host. */
  function Lockfile(installed: Installed, from: TargetSession): Option<seq<LockedPlugin>> {
    if from in installed then Some(AllPinned(installed[from])) else None
  }

  function Command(locked: LockedPlugin): string {
    "herdr plugin install " + locked.source.InstallArgument() + " --ref " + locked.reference + " -y"
  }

  predicate Holds(plugins: seq<Plugin>, locked: LockedPlugin) {
    var held := FirstFrom(plugins, locked.source);
    held.Some? && held.value.At() == Some(locked.reference)
  }

  function StepFor(target: TargetSession, plugins: seq<Plugin>, locked: LockedPlugin): PlanStep {
    var held := FirstFrom(plugins, locked.source);
    PlanStep(target, locked.source, if held.Some? then Update else Install,
             if held.Some? then Some(held.value.version) else None, locked.reference, Command(locked))
  }

  function StepsFor(target: TargetSession, plugins: seq<Plugin>, lock: seq<LockedPlugin>): seq<PlanStep> {
    if lock == [] then []
    else
      var last := lock[|lock| - 1];
      StepsFor(target, plugins, lock[..|lock| - 1])
      + if Holds(plugins, last) then [] else [StepFor(target, plugins, last)]
  }

  /** A host that was not reached is not planned for. */
  function PlanOf(installed: Installed, lock: seq<LockedPlugin>, targets: seq<TargetSession>): seq<PlanStep> {
    if targets == [] then []
    else
      var last := targets[|targets| - 1];
      PlanOf(installed, lock, targets[..|targets| - 1])
      + if last in installed then StepsFor(last, installed[last], lock) else []
  }

  method Find(plugins: seq<Plugin>, source: PluginSource) returns (held: Option<Plugin>)
    ensures held == FirstFrom(plugins, source)
  {
    held := None;
    for i := 0 to |plugins|
      invariant FirstFrom(plugins, source) == FirstFrom(plugins[i..], source)
    {
      if plugins[i].source == Some(source) {
        return Some(plugins[i]);
      }
      assert plugins[i..][1..] == plugins[i + 1..];
    }
  }

  /** The steps of `PlanOf`, target by target and then in the lockfile's order. */
  method Plan(installed: Installed, lock: seq<LockedPlugin>, targets: seq<TargetSession>) returns (steps: seq<PlanStep>)
    ensures steps == PlanOf(installed, lock, targets)
  {
    steps := [];
    for i := 0 to |targets|
      invariant steps == PlanOf(installed, lock, targets[..i])
    {
      assert targets[..i + 1][..i] == targets[..i];
      if targets[i] in installed {
        var plugins := installed[targets[i]];
        ghost var before := steps;
        for j := 0 to |lock|
          invariant steps == before + StepsFor(targets[i], plugins, lock[..j])
        {
          assert lock[..j + 1][..j] == lock[..j];
          var locked := lock[j];
          var held := Find(plugins, locked.source);
          if held.None? || held.value.At() != Some(locked.reference) {
            steps := steps + [PlanStep(targets[i], locked.source, if held.Some? then Update else Install,
                                       if held.Some? then Some(held.value.version) else None,
                                       locked.reference, Command(locked))];
          }
        }
        assert lock[..|lock|] == lock;
      }
    }
    assert targets[..|targets|] == targets;
  }
}
