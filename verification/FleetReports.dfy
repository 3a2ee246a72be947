/** That nothing is left out of a report, and what lockfiles and plans spell out. */
module FleetReports {
  import opened Base
  import opened Ordering
  import opened Federation
  import opened Fleet
  import opened FleetLaws

  // ----- a report on one plugin -----

  /** The place of a finding in a report on one plugin. */
  function Place(d: Drift): nat {
    match d
    case Missing(_, _, _) => 0
    case Versions(_, _) => 1
    case Commits(_, _) => 2
    case Disabled(_, _) => 3
    case LocalOnly(_, _, _) => 4
  }

  ghost predicate Reports(drift: seq<Drift>, place: nat) {
    exists i :: 0 <= i < |drift| && Place(drift[i]) == place
  }

  lemma PartsReport(a: seq<Drift>, b: seq<Drift>, c: seq<Drift>, place: nat)
    ensures Reports(a + b + c, place) <==> Reports(a, place) || Reports(b, place) || Reports(c, place)
  {
    var all := a + b + c;
    if i :| 0 <= i < |a| && Place(a[i]) == place {
      assert all[i] == a[i];
    }
    if i :| 0 <= i < |b| && Place(b[i]) == place {
      assert all[|a| + i] == b[i];
    }
    if i :| 0 <= i < |c| && Place(c[i]) == place {
      assert all[|a| + |b| + i] == c[i];
    }
  }

  lemma OneReports(part: seq<Drift>, d: Drift, there: bool, place: nat)
    requires part == if there then [d] else []
    ensures Reports(part, place) <==> there && Place(d) == place
  {
    if there {
      assert part[0] == d;
    }
  }

  /** Of a plugin's copies, two versions are reported, or else two commits. */
  ghost predicate TellsApart(part: seq<Drift>, versions: bool, commits: bool) {
    forall place | 0 <= place < 4 ::
      Reports(part, place) <==> (place == 1 && versions) || (place == 2 && !versions && commits)
  }

  lemma ApartMeans(part: seq<Drift>, v: Drift, c: Drift, versions: bool, commits: bool)
    requires v.Versions? && c.Commits? && part == if versions then [v] else if commits then [c] else []
    ensures TellsApart(part, versions, commits)
  {
    forall place | 0 <= place < 4
      ensures Reports(part, place) <==> (place == 1 && versions) || (place == 2 && !versions && commits)
    {
      if versions {
        OneReports(part, v, true, place);
      } else {
        OneReports(part, c, commits, place);
      }
    }
  }

  lemma CopiesReport(source: PluginSource, order: seq<TargetSession>, holders: Holders)
    requires Taken(order, |order|) == holders.Keys
    ensures TellsApart(CopiesDiffer(source, order, holders),
                       !SameAnswer(holders, VersionOf), !SameAnswer(holders, CommitOf))
  {
    var versions, commits := Tally(order, |order|, holders, VersionOf), Tally(order, |order|, holders, CommitOf);
    OneEntryMeans(order, holders, VersionOf);
    OneEntryMeans(order, holders, CommitOf);
    ApartMeans(CopiesDiffer(source, order, holders), Versions(source, versions), Commits(source, commits),
               |versions| > 1, |commits| > 1);
  }

  lemma PlacesReported(
    a: seq<Drift>, b: seq<Drift>, c: seq<Drift>, first: Drift, last: Drift, absent: bool, versions: bool,
    commits: bool, off: bool)
    requires first.Missing? && a == if absent then [first] else []
    requires TellsApart(b, versions, commits)
    requires last.Disabled? && c == if off then [last] else []
    ensures var drift := a + b + c;
      && (Reports(drift, 0) <==> absent) && (Reports(drift, 1) <==> versions)
      && (Reports(drift, 2) <==> !versions && commits) && (Reports(drift, 3) <==> off)
  {
    forall place | 0 <= place < 4
      ensures Reports(a + b + c, place) <==> (place == 0 && absent) || Reports(b, place) || (place == 3 && off)
    {
      PartsReport(a, b, c, place);
      OneReports(a, first, absent, place);
      OneReports(c, last, off, place);
    }
  }

  /** The three parts of a report on one plugin. */
  lemma SourceDriftParts(source: PluginSource, answered: seq<TargetSession>, holders: Holders)
    returns (order: seq<TargetSession>, a: seq<Drift>, b: seq<Drift>, c: seq<Drift>, first: Drift, last: Drift)
    ensures SourceDrift(source, answered, holders) == a + b + c
    ensures Taken(order, |order|) == holders.Keys && b == CopiesDiffer(source, order, holders)
    ensures first.Missing? && a == if Absent(answered, |answered|, holders) != [] then [first] else []
    ensures last.Disabled? && c == if Off(order, |order|, holders) != [] then [last] else []
  {
    order := SessionOrder(holders.Keys);
    var absent, off := Absent(answered, |answered|, holders), Off(order, |order|, holders);
    first, last := Missing(source, order, absent), Disabled(source, off);
    a, b := if absent == [] then [] else [first], CopiesDiffer(source, order, holders);
    c := if off == [] then [] else [last];
  }

  /**
   * Nothing about a plugin goes unreported: a host that lacks it, two versions, two commits of one
   * version, and a host that has it off are each found exactly when they are there.
   */
  lemma SourceDriftComplete(source: PluginSource, answered: seq<TargetSession>, holders: Holders)
    ensures var drift, here := SourceDrift(source, answered, holders), Taken(answered, |answered|);
      && (Reports(drift, 0) <==> exists t :: t in here && t !in holders)
      && (Reports(drift, 1) <==> !SameAnswer(holders, VersionOf))
      && (Reports(drift, 2) <==> SameAnswer(holders, VersionOf) && !SameAnswer(holders, CommitOf))
      && (Reports(drift, 3) <==> exists t :: t in holders && !holders[t].enabled)
  {
    var order, a, b, c, first, last := SourceDriftParts(source, answered, holders);
    AbsentMeans(answered, |answered|, holders);
    OffMeans(order, |order|, holders);
    CopiesReport(source, order, holders);
    PlacesReported(a, b, c, first, last, Absent(answered, |answered|, holders) != [],
                   !SameAnswer(holders, VersionOf), !SameAnswer(holders, CommitOf), Off(order, |order|, holders) != []);
  }

  /** They are reported in one order, each at most once. */
  lemma SourceDriftInOrder(source: PluginSource, answered: seq<TargetSession>, holders: Holders, i: nat, j: nat)
    requires i < j < |SourceDrift(source, answered, holders)|
    ensures Place(SourceDrift(source, answered, holders)[i]) < Place(SourceDrift(source, answered, holders)[j])
  {
  }

  // ----- the whole report -----

  /** What is found of each plugin, one after the other. */
  ghost function FoundAlong(found: PluginSource -> seq<Drift>, sources: seq<PluginSource>, n: nat): seq<Drift>
    requires n <= |sources|
  {
    if n == 0 then [] else FoundAlong(found, sources, n - 1) + found(sources[n - 1])
  }

  lemma {:induction false} FoundAlongHolds(
    found: PluginSource -> seq<Drift>, sources: seq<PluginSource>, n: nat, i: nat, d: Drift)
    requires i < n <= |sources| && d in found(sources[i])
    ensures d in FoundAlong(found, sources, n)
  {
    if i < n - 1 {
      FoundAlongHolds(found, sources, n - 1, i, d);
    }
  }

  ghost function FoundOf(grouped: Grouped, answered: seq<TargetSession>): PluginSource -> seq<Drift> {
    s => if s in grouped then SourceDrift(s, answered, grouped[s]) else []
  }

  /** A report on the plugins with a source is that. */
  lemma {:induction false} ComparedIsFound(
    grouped: Grouped, sources: seq<PluginSource>, n: nat, answered: seq<TargetSession>)
    requires n <= |sources| && Taken(sources, n) <= grouped.Keys
    ensures Compared(grouped, sources, n, answered) == FoundAlong(FoundOf(grouped, answered), sources, n)
  {
    if n > 0 {
      ComparedIsFound(grouped, sources, n - 1, answered);
    }
  }

  lemma {:induction false} LocalPluginsComplete(target: TargetSession, plugins: seq<Plugin>, k: nat)
    requires k < |plugins| && plugins[k].source.None?
    ensures LocalOnly(target, plugins[k].id, plugins[k].name) in LocalPlugins(target, plugins)
  {
    if k < |plugins| - 1 {
      LocalPluginsComplete(target, plugins[..|plugins| - 1], k);
    }
  }

  lemma {:induction false} LocalsComplete(
    installed: Installed, order: seq<TargetSession>, n: nat, t: TargetSession, d: Drift)
    requires n <= |order| && Taken(order, n) <= installed.Keys && t in Taken(order, n)
    requires d in LocalPlugins(t, installed[t])
    ensures d in Locals(installed, order, n)
  {
    if order[n - 1] != t {
      LocalsComplete(installed, order, n - 1, t, d);
    }
  }

  /** Whatever is found of one plugin is in the report, and so is every plugin without a source. */
  lemma ReportIsComplete(installed: Installed, grouped: Grouped)
    requires IsGrouping(grouped, installed, installed.Keys)
    ensures forall s, d | s in grouped && d in FoundOf(grouped, SessionOrder(installed.Keys))(s) ::
              d in DriftOf(installed, grouped)
    ensures forall t, k | t in installed && 0 <= k < |installed[t]| && installed[t][k].source.None? ::
              LocalOnly(t, installed[t][k].id, installed[t][k].name) in DriftOf(installed, grouped)
  {
    var answered, sources := SessionOrder(installed.Keys), SourceOrder(grouped.Keys);
    var found := FoundOf(grouped, answered);
    ComparedIsFound(grouped, sources, |sources|, answered);
    forall s, d | s in grouped && d in found(s) ensures d in DriftOf(installed, grouped) {
      TakenMember(sources, |sources|, s);
      var i :| 0 <= i < |sources| && sources[i] == s;
      FoundAlongHolds(found, sources, |sources|, i, d);
    }
    forall t, k | t in installed && 0 <= k < |installed[t]| && installed[t][k].source.None?
      ensures LocalOnly(t, installed[t][k].id, installed[t][k].name) in DriftOf(installed, grouped)
    {
      LocalPluginsComplete(t, installed[t], k);
      LocalsComplete(installed, answered, |answered|, t, LocalOnly(t, installed[t][k].id, installed[t][k].name));
    }
  }

  // ----- lockfiles and steps -----

  /** The reference a copy is written down with: its commit, or failing that what was asked for. */
  ghost predicate WrittenAs(plugin: Plugin, reference: string) {
    plugin.resolvedCommit == Some(reference) || (plugin.resolvedCommit.None? && plugin.requestedRef == Some(reference))
  }

  /** A lockfile is of a host that was reached, and holds exactly its plugins that have a source and a reference. */
  lemma LockfileMeans(installed: Installed, host: TargetSession, l: LockedPlugin)
    ensures Lockfile(installed, host).Some? <==> host in installed
    ensures host in installed ==>
      (l in Lockfile(installed, host).value <==>
       exists k :: 0 <= k < |installed[host]| && installed[host][k].source == Some(l.source)
                   && installed[host][k].version == l.version && WrittenAs(installed[host][k], l.reference))
  {
    if host in installed {
      var plugins := installed[host];
      PinnedComesFrom(plugins, l);
      forall k | 0 <= k < |plugins|
        ensures Pinned(plugins[k]) == Some(l) <==>
          plugins[k].source == Some(l.source) && plugins[k].version == l.version && WrittenAs(plugins[k], l.reference)
      {
      }
    }
  }

  /** A step installs where nothing from its source is held, and otherwise updates the first copy that is. */
  lemma StepMeans(target: TargetSession, plugins: seq<Plugin>, l: LockedPlugin)
    ensures var step, held := StepFor(target, plugins, l), FirstFrom(plugins, l.source);
      && step.target == target && step.source == l.source && step.reference == l.reference
      && (step.action == Install <==> held.None?)
      && (held.Some? ==> step.previous == Some(held.value.version)) && (held.None? ==> step.previous.None?)
      && (l.source.subdir.None? ==>
            step.command
            == "herdr plugin install " + (l.source.owner + "/" + l.source.repo) + " --ref " + l.reference + " -y")
      && (l.source.subdir.Some? ==>
            step.command
            == "herdr plugin install " + (l.source.owner + "/" + l.source.repo + "/" + l.source.subdir.value)
               + " --ref " + l.reference + " -y")
  {
    var s := l.source;
    assert s.subdir.None? ==> s.InstallArgument() == s.owner + "/" + s.repo;
    assert s.subdir.Some? ==> s.InstallArgument() == s.owner + "/" + s.repo + "/" + s.subdir.value;
  }

  // ----- in what order -----

  lemma Regrouped<T>(a: seq<T>, b: seq<T>, c: seq<T>)
    ensures a + b + c == a + (b + c)
  {
  }

  lemma {:induction false} StepsAppend(
    target: TargetSession, plugins: seq<Plugin>, a: seq<LockedPlugin>, b: seq<LockedPlugin>)
    ensures StepsFor(target, plugins, a + b) == StepsFor(target, plugins, a) + StepsFor(target, plugins, b)
  {
    if b == [] {
      assert a + b == a;
    } else {
      var last := |b| - 1;
      StepsAppend(target, plugins, a, b[..last]);
      assert (a + b)[..|a| + last] == a + b[..last];
      Regrouped(StepsFor(target, plugins, a), StepsFor(target, plugins, b[..last]),
                if Holds(plugins, b[last]) then [] else [StepFor(target, plugins, b[last])]);
    }
  }

  function StepsOn(installed: Installed, lock: seq<LockedPlugin>, t: TargetSession): seq<PlanStep> {
    if t in installed then StepsFor(t, installed[t], lock) else []
  }

  lemma PlanLast(installed: Installed, lock: seq<LockedPlugin>, targets: seq<TargetSession>, t: TargetSession)
    ensures PlanOf(installed, lock, targets + [t]) == PlanOf(installed, lock, targets) + StepsOn(installed, lock, t)
  {
    assert (targets + [t])[..|targets|] == targets;
  }

  /** A plan goes target by target in the order they are named, and through the lockfile's order on each. */
  lemma {:induction false} PlanAppends(
    installed: Installed, lock: seq<LockedPlugin>, s: seq<TargetSession>, t: seq<TargetSession>)
    ensures PlanOf(installed, lock, s + t) == PlanOf(installed, lock, s) + PlanOf(installed, lock, t)
  {
    if t == [] {
      assert s + t == s;
    } else {
      var front, last := t[..|t| - 1], t[|t| - 1];
      assert t == front + [last] && s + t == s + front + [last];
      PlanAppends(installed, lock, s, front);
      PlanLast(installed, lock, s + front, last);
      PlanLast(installed, lock, front, last);
      Regrouped(PlanOf(installed, lock, s), PlanOf(installed, lock, front), StepsOn(installed, lock, last));
    }
  }

  /** A lockfile keeps the order a host lists its plugins in. */
  lemma {:induction false} PinnedAppends(a: seq<Plugin>, b: seq<Plugin>)
    ensures AllPinned(a + b) == AllPinned(a) + AllPinned(b)
  {
    if a == [] {
      assert a + b == b;
    } else {
      PinnedAppends(a[1..], b);
      assert (a + b)[1..] == a[1..] + b;
      Regrouped(if Pinned(a[0]).Some? then [Pinned(a[0]).value] else [], AllPinned(a[1..]), AllPinned(b));
    }
  }
}
