/** What an empty drift and an empty plan say about the fleet. */
module FleetLaws {
  import opened Base
  import opened Ordering
  import opened Federation
  import opened Fleet

  // ----- one plugin -----

  lemma {:induction false} AbsentMeans(answered: seq<TargetSession>, n: nat, holders: Holders)
    requires n <= |answered|
    ensures forall t :: t in Absent(answered, n, holders) <==> t in Taken(answered, n) && t !in holders
    ensures Absent(answered, n, holders) == [] <==> Taken(answered, n) <= holders.Keys
  {
    if n > 0 {
      AbsentMeans(answered, n - 1, holders);
    }
  }

  lemma {:induction false} OffMeans(order: seq<TargetSession>, n: nat, holders: Holders)
    requires n <= |order| && Taken(order, n) <= holders.Keys
    ensures forall t :: t in Off(order, n, holders) <==> t in Taken(order, n) && !holders[t].enabled
    ensures Off(order, n, holders) == [] <==> forall t | t in Taken(order, n) :: holders[t].enabled
  {
    if n > 0 {
      OffMeans(order, n - 1, holders);
    }
  }

  /** A tally has one entry for each answer given, listing exactly the hosts that gave it. */
  lemma {:induction false} TallyMeans(
    order: seq<TargetSession>, n: nat, holders: Holders, asked: Plugin -> Option<string>, answer: string)
    requires n <= |order| && Taken(order, n) <= holders.Keys
    ensures var tally := Tally(order, n, holders, asked);
      && (answer in tally <==> exists t :: t in Taken(order, n) && asked(holders[t]) == Some(answer))
      && (answer in tally ==> forall t ::
            t in tally[answer] <==> t in Taken(order, n) && asked(holders[t]) == Some(answer))
  {
    if n > 0 {
      TallyMeans(order, n - 1, holders, asked, answer);
      var before, target := Tally(order, n - 1, holders, asked), order[n - 1];
      if asked(holders[target]) == Some(answer) {
        assert target in Taken(order, n);
      }
    }
  }

  lemma MoreThanOne<V>(m: map<string, V>)
    ensures |m| > 1 <==> exists a, b :: a in m && b in m && a != b
  {
    if |m| > 1 {
      var a :| a in m;
      assert |m.Keys - {a}| == |m| - 1;
      var b :| b in m.Keys - {a};
    }
    if a, b :| a in m && b in m && a != b {
      assert |m.Keys - {a, b}| == |m| - 2;
    }
  }

  ghost predicate SameAnswer(holders: Holders, asked: Plugin -> Option<string>) {
    forall t, u | t in holders && u in holders ::
      asked(holders[t]).Some? && asked(holders[u]).Some? ==> asked(holders[t]) == asked(holders[u])
  }

  lemma OneEntryMeans(order: seq<TargetSession>, holders: Holders, asked: Plugin -> Option<string>)
    requires Taken(order, |order|) == holders.Keys
    ensures |Tally(order, |order|, holders, asked)| <= 1 <==> SameAnswer(holders, asked)
  {
    var tally := Tally(order, |order|, holders, asked);
    MoreThanOne(tally);
    forall answer
      ensures answer in tally <==> exists t :: t in holders && asked(holders[t]) == Some(answer)
    {
      TallyMeans(order, |order|, holders, asked, answer);
    }
    if t, u :| t in holders && u in holders && asked(holders[t]).Some? && asked(holders[u]).Some?
               && asked(holders[t]) != asked(holders[u]) {
      assert asked(holders[t]).value in tally && asked(holders[u]).value in tally;
    }
  }

  /** Nothing is said of a plugin exactly when every answering host holds the same enabled copy. */
  ghost predicate SameEverywhere(answered: set<TargetSession>, holders: Holders) {
    && answered <= holders.Keys
    && SameAnswer(holders, VersionOf) && SameAnswer(holders, CommitOf)
    && forall t | t in holders :: holders[t].enabled
  }

  lemma SourceDriftMeans(source: PluginSource, answered: seq<TargetSession>, holders: Holders)
    ensures SourceDrift(source, answered, holders) == [] <==> SameEverywhere(Taken(answered, |answered|), holders)
  {
    var order := SessionOrder(holders.Keys);
    AbsentMeans(answered, |answered|, holders);
    OffMeans(order, |order|, holders);
    OneEntryMeans(order, holders, VersionOf);
    OneEntryMeans(order, holders, CommitOf);
  }

  /** Under each answer stand exactly the hosts whose copy gives it. */
  ghost predicate Lists(tally: map<string, seq<TargetSession>>, holders: Holders, asked: Plugin -> Option<string>) {
    forall answer, t :: Listed(tally, answer, t) <==> t in holders && asked(holders[t]) == Some(answer)
  }

  predicate Listed(tally: map<string, seq<TargetSession>>, answer: string, t: TargetSession) {
    answer in tally && t in tally[answer]
  }

  lemma ListedMeans(
    order: seq<TargetSession>, holders: Holders, asked: Plugin -> Option<string>, answer: string, t: TargetSession)
    requires Taken(order, |order|) == holders.Keys
    ensures Listed(Tally(order, |order|, holders, asked), answer, t)
       <==> t in holders && asked(holders[t]) == Some(answer)
  {
    TallyMeans(order, |order|, holders, asked, answer);
  }

  lemma TallyLists(order: seq<TargetSession>, holders: Holders, asked: Plugin -> Option<string>)
    requires Taken(order, |order|) == holders.Keys
    ensures Lists(Tally(order, |order|, holders, asked), holders, asked)
  {
    forall answer, t
      ensures Listed(Tally(order, |order|, holders, asked), answer, t)
         <==> t in holders && asked(holders[t]) == Some(answer)
    {
      ListedMeans(order, holders, asked, answer, t);
    }
  }

  /** What one finding about one plugin claims of the hosts that answered. */
  ghost predicate Says(d: Drift, source: PluginSource, answered: set<TargetSession>, holders: Holders) {
    match d
    case Missing(s, on, absent) =>
      && s == source && absent != []
      && (forall t :: t in on <==> t in holders) && forall t :: t in absent <==> t in answered && t !in holders
    case Versions(s, versions) => s == source && |versions| > 1 && Lists(versions, holders, VersionOf)
    case Commits(s, commits) =>
      s == source && |commits| > 1 && Lists(commits, holders, CommitOf) && SameAnswer(holders, VersionOf)
    case Disabled(s, off) =>
      s == source && off != [] && forall t :: t in off <==> t in holders && !holders[t].enabled
    case LocalOnly(_, _, _) => false
  }

  lemma MissingIsTrue(source: PluginSource, answered: seq<TargetSession>, holders: Holders)
    ensures var order, absent := SessionOrder(holders.Keys), Absent(answered, |answered|, holders);
      absent != [] ==> Says(Missing(source, order, absent), source, Taken(answered, |answered|), holders)
  {
    AbsentMeans(answered, |answered|, holders);
    OrderLists(SessionOrder(holders.Keys));
  }

  lemma CopiesAreTrue(
    source: PluginSource, order: seq<TargetSession>, answered: set<TargetSession>, holders: Holders, d: Drift)
    requires Taken(order, |order|) == holders.Keys && d in CopiesDiffer(source, order, holders)
    ensures Says(d, source, answered, holders)
  {
    TallyLists(order, holders, VersionOf);
    TallyLists(order, holders, CommitOf);
    OneEntryMeans(order, holders, VersionOf);
  }

  /** Every finding about a plugin is true of the hosts that hold it. */
  lemma FindingsAreTrue(source: PluginSource, answered: seq<TargetSession>, holders: Holders, d: Drift)
    requires d in SourceDrift(source, answered, holders)
    ensures Says(d, source, Taken(answered, |answered|), holders)
  {
    var order := SessionOrder(holders.Keys);
    MissingIsTrue(source, answered, holders);
    OffMeans(order, |order|, holders);
    if d in CopiesDiffer(source, order, holders) {
      CopiesAreTrue(source, order, Taken(answered, |answered|), holders, d);
    }
  }

  lemma OrderLists(order: seq<TargetSession>)
    ensures forall t :: t in order <==> t in Taken(order, |order|)
  {
    forall t
      ensures t in order <==> t in Taken(order, |order|)
    {
      TakenMember(order, |order|, t);
    }
  }

  // ----- the fleet -----

  lemma {:induction false} ComparedMeans(
    grouped: Grouped, sources: seq<PluginSource>, n: nat, answered: seq<TargetSession>)
    requires n <= |sources| && Taken(sources, n) <= grouped.Keys
    ensures Compared(grouped, sources, n, answered) == []
       <==> forall s | s in Taken(sources, n) :: SameEverywhere(Taken(answered, |answered|), grouped[s])
  {
    if n > 0 {
      ComparedMeans(grouped, sources, n - 1, answered);
      SourceDriftMeans(sources[n - 1], answered, grouped[sources[n - 1]]);
    }
  }

  ghost predicate AllSourced(plugins: seq<Plugin>) {
    forall i | 0 <= i < |plugins| :: plugins[i].source.Some?
  }

  lemma {:induction false} LocalPluginsMeans(target: TargetSession, plugins: seq<Plugin>)
    ensures LocalPlugins(target, plugins) == [] <==> AllSourced(plugins)
  {
    if plugins != [] {
      var front := plugins[..|plugins| - 1];
      LocalPluginsMeans(target, front);
      assert plugins == front + [plugins[|plugins| - 1]];
    }
  }

  lemma {:induction false} LocalsMeans(installed: Installed, order: seq<TargetSession>, n: nat)
    requires n <= |order| && Taken(order, n) <= installed.Keys
    ensures Locals(installed, order, n) == [] <==> forall t | t in Taken(order, n) :: AllSourced(installed[t])
  {
    if n > 0 {
      LocalsMeans(installed, order, n - 1);
      LocalPluginsMeans(order[n - 1], installed[order[n - 1]]);
    }
  }

  /** Two hosts' copies of one plugin are the same: enabled, of one version, of no two known commits. */
  predicate SameCopy(a: Plugin, b: Plugin) {
    && a.enabled && b.enabled && a.version == b.version
    && (a.resolvedCommit.Some? && b.resolvedCommit.Some? ==> a.resolvedCommit == b.resolvedCommit)
  }

  ghost predicate HeldSomewhere(installed: Installed, source: PluginSource) {
    exists t :: t in installed && LastFrom(installed[t], source).Some?
  }

  ghost predicate SameOn(installed: Installed, source: PluginSource) {
    forall t, u | t in installed && u in installed ::
      && LastFrom(installed[t], source).Some? && LastFrom(installed[u], source).Some?
      && SameCopy(LastFrom(installed[t], source).value, LastFrom(installed[u], source).value)
  }

  /** Nothing is unsourced, and what any answering host holds they all hold, as the same copy. */
  ghost predicate Agree(installed: Installed) {
    && (forall t | t in installed :: AllSourced(installed[t]))
    && forall source | HeldSomewhere(installed, source) :: SameOn(installed, source)
  }

  lemma HeldMeans(installed: Installed, grouped: Grouped, source: PluginSource)
    requires IsGrouping(grouped, installed, installed.Keys)
    ensures source in grouped <==> HeldSomewhere(installed, source)
    ensures source in grouped ==> forall t ::
      t in grouped[source] <==> t in installed && LastFrom(installed[t], source).Some?
    ensures source in grouped ==> forall t | t in grouped[source] ::
      Some(grouped[source][t]) == LastFrom(installed[t], source)
  {
    forall t
      ensures Lookup(grouped, source, t) == if t in installed then LastFrom(installed[t], source) else None
    {
      assert Lookup(grouped, source, t) == Holder(installed, installed.Keys, source, t);
    }
    if source in grouped {
      var t :| t in grouped[source];
      assert Lookup(grouped, source, t).Some?;
    }
  }

  lemma SourceAgrees(installed: Installed, grouped: Grouped, source: PluginSource)
    requires IsGrouping(grouped, installed, installed.Keys) && source in grouped
    ensures SameEverywhere(installed.Keys, grouped[source]) <==> SameOn(installed, source)
  {
    HeldMeans(installed, grouped, source);
    var holders := grouped[source];
    if SameEverywhere(installed.Keys, holders) {
      forall t, u | t in installed && u in installed
        ensures LastFrom(installed[t], source).Some? && LastFrom(installed[u], source).Some?
        ensures SameCopy(LastFrom(installed[t], source).value, LastFrom(installed[u], source).value)
      {
        assert t in holders && u in holders;
        assert VersionOf(holders[t]) == VersionOf(holders[u]);
        assert CommitOf(holders[t]).Some? && CommitOf(holders[u]).Some?
          ==> CommitOf(holders[t]) == CommitOf(holders[u]);
      }
    }
  }

  /** No drift is reported exactly when the hosts that answered agree. */
  lemma NoDriftMeansAgreement(installed: Installed, grouped: Grouped)
    requires IsGrouping(grouped, installed, installed.Keys)
    ensures DriftOf(installed, grouped) == [] <==> Agree(installed)
  {
    var answered, sources := SessionOrder(installed.Keys), SourceOrder(grouped.Keys);
    ComparedAgree(installed, grouped, answered, sources);
    LocalsMeans(installed, answered, |answered|);
  }

  lemma ComparedAgree(
    installed: Installed, grouped: Grouped, answered: seq<TargetSession>, sources: seq<PluginSource>)
    requires IsGrouping(grouped, installed, installed.Keys)
    requires Taken(answered, |answered|) == installed.Keys && Taken(sources, |sources|) == grouped.Keys
    ensures Compared(grouped, sources, |sources|, answered) == []
       <==> forall source | HeldSomewhere(installed, source) :: SameOn(installed, source)
  {
    ComparedMeans(grouped, sources, |sources|, answered);
    forall source
      ensures source in grouped <==> HeldSomewhere(installed, source)
      ensures source in grouped ==> (SameEverywhere(installed.Keys, grouped[source]) <==> SameOn(installed, source))
    {
      HeldMeans(installed, grouped, source);
      if source in grouped {
        SourceAgrees(installed, grouped, source);
      }
    }
  }

  lemma {:induction false} ComparedHas(
    grouped: Grouped, sources: seq<PluginSource>, n: nat, answered: seq<TargetSession>, d: Drift)
    requires n <= |sources| && Taken(sources, n) <= grouped.Keys
    ensures d in Compared(grouped, sources, n, answered)
       <==> exists s :: s in Taken(sources, n) && d in SourceDrift(s, answered, grouped[s])
  {
    if n > 0 {
      ComparedHas(grouped, sources, n - 1, answered, d);
    }
  }

  ghost predicate Local(plugins: seq<Plugin>, target: TargetSession, d: Drift) {
    exists p :: p in plugins && p.source.None? && d == LocalOnly(target, p.id, p.name)
  }

  lemma {:induction false} LocalPluginsHas(target: TargetSession, plugins: seq<Plugin>, d: Drift)
    ensures d in LocalPlugins(target, plugins) <==> Local(plugins, target, d)
  {
    if plugins != [] {
      var front, last := plugins[..|plugins| - 1], plugins[|plugins| - 1];
      LocalPluginsHas(target, front, d);
      assert plugins == front + [last];
    }
  }

  lemma {:induction false} LocalsHas(installed: Installed, order: seq<TargetSession>, n: nat, d: Drift)
    requires n <= |order| && Taken(order, n) <= installed.Keys
    ensures d in Locals(installed, order, n) <==> exists t :: t in Taken(order, n) && Local(installed[t], t, d)
  {
    if n > 0 {
      LocalsHas(installed, order, n - 1, d);
      LocalPluginsHas(order[n - 1], installed[order[n - 1]], d);
    }
  }

  /**
   * The report is true: each finding is a plugin without a source on the host it names, or says of
   * one plugin exactly which of the hosts that answered lack it, differ, or have it off.
   */
  lemma ReportIsTrue(installed: Installed, grouped: Grouped, d: Drift)
    requires IsGrouping(grouped, installed, installed.Keys) && d in DriftOf(installed, grouped)
    ensures (exists t :: t in installed && Local(installed[t], t, d))
         || (exists source :: source in grouped && Says(d, source, installed.Keys, grouped[source]))
  {
    var answered, sources := SessionOrder(installed.Keys), SourceOrder(grouped.Keys);
    if d in Compared(grouped, sources, |sources|, answered) {
      ComparedHas(grouped, sources, |sources|, answered, d);
      var source :| source in grouped && d in SourceDrift(source, answered, grouped[source]);
      FindingsAreTrue(source, answered, grouped[source], d);
    } else {
      LocalsHas(installed, answered, |answered|, d);
    }
  }

  /** No host lists two plugins from one source. */
  ghost predicate Distinct(plugins: seq<Plugin>) {
    forall i, j | 0 <= i < j < |plugins| :: plugins[i].source.Some? ==> plugins[i].source != plugins[j].source
  }

  lemma {:induction false} OnlyOneFrom(plugins: seq<Plugin>, k: nat, source: PluginSource)
    requires Distinct(plugins) && k < |plugins| && plugins[k].source == Some(source)
    ensures LastFrom(plugins, source) == Some(plugins[k])
  {
    if k < |plugins| - 1 {
      OnlyOneFrom(plugins[..|plugins| - 1], k, source);
    }
  }

  lemma {:induction false} FromIsListed(plugins: seq<Plugin>, source: PluginSource)
    ensures LastFrom(plugins, source).Some? ==>
      LastFrom(plugins, source).value in plugins && LastFrom(plugins, source).value.source == Some(source)
  {
    if plugins != [] && plugins[|plugins| - 1].source != Some(source) {
      FromIsListed(plugins[..|plugins| - 1], source);
    }
  }

  ghost predicate HasSame(plugins: seq<Plugin>, p: Plugin) {
    exists q :: q in plugins && q.source == p.source && SameCopy(p, q)
  }

  /** Plugin by plugin: each has a source, and the same copy of it is on every host. */
  ghost predicate EachIsEverywhere(installed: Installed) {
    && (forall t | t in installed :: AllSourced(installed[t]))
    && forall t, u | t in installed && u in installed :: EachIsOn(installed[t], installed[u])
  }

  ghost predicate EachIsOn(ours: seq<Plugin>, theirs: seq<Plugin>) {
    forall p {:trigger HasSame(theirs, p)} | p in ours :: HasSame(theirs, p)
  }

  lemma ListedIsLast(plugins: seq<Plugin>, p: Plugin)
    requires Distinct(plugins) && p in plugins && p.source.Some?
    ensures LastFrom(plugins, p.source.value) == Some(p)
  {
    var k :| 0 <= k < |plugins| && plugins[k] == p;
    OnlyOneFrom(plugins, k, p.source.value);
  }

  /** When no host lists a source twice, agreement is about every plugin listed. */
  lemma AgreementIsEachPlugin(installed: Installed)
    requires forall t | t in installed :: Distinct(installed[t])
    ensures Agree(installed) <==> EachIsEverywhere(installed)
  {
    if Agree(installed) {
      forall t, u | t in installed && u in installed
        ensures EachIsOn(installed[t], installed[u])
      {
        forall p | p in installed[t]
          ensures HasSame(installed[u], p)
        {
          var k :| 0 <= k < |installed[t]| && installed[t][k] == p;
          ListedIsLast(installed[t], p);
          assert HeldSomewhere(installed, p.source.value);
          FromIsListed(installed[u], p.source.value);
          assert SameCopy(p, LastFrom(installed[u], p.source.value).value);
        }
      }
    }
    if EachIsEverywhere(installed) {
      forall source | HeldSomewhere(installed, source)
        ensures SameOn(installed, source)
      {
        EachMeansSame(installed, source);
      }
    }
  }

  lemma EachPairSame(ours: seq<Plugin>, theirs: seq<Plugin>, source: PluginSource)
    requires LastFrom(ours, source).Some? && EachIsOn(ours, theirs) && Distinct(theirs)
    ensures LastFrom(theirs, source).Some?
    ensures SameCopy(LastFrom(ours, source).value, LastFrom(theirs, source).value)
  {
    var p := LastFrom(ours, source).value;
    FromIsListed(ours, source);
    assert HasSame(theirs, p);
    var q :| q in theirs && q.source == p.source && SameCopy(p, q);
    ListedIsLast(theirs, q);
  }

  lemma EachMeansSame(installed: Installed, source: PluginSource)
    requires forall t | t in installed :: Distinct(installed[t])
    requires EachIsEverywhere(installed) && HeldSomewhere(installed, source)
    ensures SameOn(installed, source)
  {
    var t0 :| t0 in installed && LastFrom(installed[t0], source).Some?;
    forall t, u | t in installed && u in installed
      ensures LastFrom(installed[t], source).Some? && LastFrom(installed[u], source).Some?
      ensures SameCopy(LastFrom(installed[t], source).value, LastFrom(installed[u], source).value)
    {
      EachPairSame(installed[t0], installed[t], source);
      EachPairSame(installed[t], installed[u], source);
    }
  }

  // ----- plans -----

  lemma {:induction false} StepsForMeans(
    target: TargetSession, plugins: seq<Plugin>, lock: seq<LockedPlugin>, step: PlanStep)
    ensures step in StepsFor(target, plugins, lock) <==>
      exists l :: l in lock && !Holds(plugins, l) && step == StepFor(target, plugins, l)
  {
    if lock != [] {
      var front, last := lock[..|lock| - 1], lock[|lock| - 1];
      assert lock == front + [last];
      StepsForMeans(target, plugins, front, step);
    }
  }

  /** A plan holds exactly one kind of step: for a reached target that does not hold what is locked. */
  lemma {:induction false} PlanMeans(
    installed: Installed, lock: seq<LockedPlugin>, targets: seq<TargetSession>, step: PlanStep)
    ensures step in PlanOf(installed, lock, targets) <==>
      && step.target in targets && step.target in installed
      && exists l ::
           l in lock && !Holds(installed[step.target], l) && step == StepFor(step.target, installed[step.target], l)
  {
    if targets != [] {
      var front, last := targets[..|targets| - 1], targets[|targets| - 1];
      assert targets == front + [last];
      PlanMeans(installed, lock, front, step);
      if last in installed {
        StepsForMeans(last, installed[last], lock, step);
      }
    }
  }

  ghost predicate AllHold(installed: Installed, lock: seq<LockedPlugin>, targets: seq<TargetSession>) {
    forall t, l | t in targets && t in installed && l in lock :: Holds(installed[t], l)
  }

  /** A plan is empty exactly when every target that was reached holds everything locked. */
  lemma EmptyPlanMeansHeld(installed: Installed, lock: seq<LockedPlugin>, targets: seq<TargetSession>)
    ensures PlanOf(installed, lock, targets) == [] <==> AllHold(installed, lock, targets)
  {
    var plan := PlanOf(installed, lock, targets);
    if plan != [] {
      PlanMeans(installed, lock, targets, plan[0]);
    }
    forall t, l | t in targets && t in installed && l in lock && !Holds(installed[t], l)
      ensures plan != []
    {
      PlanMeans(installed, lock, targets, StepFor(t, installed[t], l));
    }
  }

  lemma {:induction false} PinnedComesFrom(plugins: seq<Plugin>, l: LockedPlugin)
    ensures l in AllPinned(plugins) <==> exists k :: 0 <= k < |plugins| && Pinned(plugins[k]) == Some(l)
  {
    if plugins != [] {
      PinnedComesFrom(plugins[1..], l);
      if k :| 0 <= k < |plugins| && Pinned(plugins[k]) == Some(l) {
        assert k > 0 ==> plugins[1..][k - 1] == plugins[k];
      }
      if k :| 0 <= k < |plugins[1..]| && Pinned(plugins[1..][k]) == Some(l) {
        assert Pinned(plugins[k + 1]) == Some(l);
      }
    }
  }

  lemma {:induction false} FirstIs(plugins: seq<Plugin>, k: nat, source: PluginSource)
    requires k < |plugins| && plugins[k].source == Some(source)
    requires forall j | 0 <= j < k :: plugins[j].source != Some(source)
    ensures FirstFrom(plugins, source) == Some(plugins[k])
  {
    if k > 0 {
      FirstIs(plugins[1..], k - 1, source);
    }
  }

  /** Every copy that is pinned is pinned to what the host's first copy from its source is at. */
  ghost predicate PinnedAsFirst(plugins: seq<Plugin>) {
    forall k | 0 <= k < |plugins| && Pinned(plugins[k]).Some? ::
      var first := FirstFrom(plugins, plugins[k].source.value); first.Some? && first.value.At() == plugins[k].At()
  }

  /** What one host wrote down asks nothing of that host, exactly when its copies are pinned as its first ones are. */
  lemma OwnLockfileNeedsNothing(installed: Installed, host: TargetSession)
    requires host in installed
    ensures PlanOf(installed, Lockfile(installed, host).value, [host]) == [] <==> PinnedAsFirst(installed[host])
  {
    var plugins := installed[host];
    var lock := AllPinned(plugins);
    EmptyPlanMeansHeld(installed, lock, [host]);
    forall l ensures l in lock <==> exists k :: 0 <= k < |plugins| && Pinned(plugins[k]) == Some(l) {
      PinnedComesFrom(plugins, l);
    }
    forall k | 0 <= k < |plugins| && Pinned(plugins[k]).Some?
      ensures Pinned(plugins[k]).value in lock
    {
      assert Pinned(plugins[k]) == Some(Pinned(plugins[k]).value);
    }
    assert host in [host];
  }

  /** A host that lists no source twice is always in that case. */
  lemma DistinctIsPinnedAsFirst(plugins: seq<Plugin>)
    requires Distinct(plugins)
    ensures PinnedAsFirst(plugins)
  {
    forall k | 0 <= k < |plugins| && Pinned(plugins[k]).Some?
      ensures FirstFrom(plugins, plugins[k].source.value) == Some(plugins[k])
    {
      FirstIs(plugins, k, plugins[k].source.value);
    }
  }

  /** Two copies from one source, asked for by two references: the host's own lockfile plans an update for it. */
  lemma SourceListedTwice(host: TargetSession, source: PluginSource, p: Plugin, q: Plugin)
    requires p.source == q.source == Some(source) && p.resolvedCommit == q.resolvedCommit == None
    requires p.requestedRef == Some("r1") && q.requestedRef == Some("r2")
    ensures var installed: Installed := map[host := [p, q]];
      PlanOf(installed, Lockfile(installed, host).value, [host]) != []
  {
    var installed: Installed := map[host := [p, q]];
    OwnLockfileNeedsNothing(installed, host);
    FirstIs([p, q], 0, source);
    assert [p, q][1] == q && Pinned(q).Some?;
    assert "r1"[1] != "r2"[1];
  }

  // ----- carrying a plan out -----

  /** The copy a host reports once it has run one step's command. */
  type Reports = PlanStep -> Plugin

  /** That copy, of the source and for the reference the command named. */
  function Copy(step: PlanStep, reports: Reports): Plugin {
    reports(step).(source := Some(step.source), requestedRef := Some(step.reference))
  }

  /** A new copy in place of the first from its source, or added. */
  function Installing(plugins: seq<Plugin>, copy: Plugin): seq<Plugin> {
    if plugins == [] then [copy]
    else if plugins[0].source == copy.source then [copy] + plugins[1..]
    else [plugins[0]] + Installing(plugins[1..], copy)
  }

  /** The fleet after the commands of a plan, in order. */
  function CarriedOut(installed: Installed, steps: seq<PlanStep>, reports: Reports): Installed {
    if steps == [] then installed
    else
      var last, before := steps[|steps| - 1], CarriedOut(installed, steps[..|steps| - 1], reports);
      if last.target !in before then before
      else before[last.target := Installing(before[last.target], Copy(last, reports))]
  }

  lemma {:induction false} InstalledIsFirst(plugins: seq<Plugin>, copy: Plugin, source: PluginSource)
    ensures FirstFrom(Installing(plugins, copy), source)
         == if copy.source == Some(source) then Some(copy) else FirstFrom(plugins, source)
  {
    if plugins == [] {
      assert [copy][1..] == [];
    } else if plugins[0].source != copy.source {
      var rest := Installing(plugins[1..], copy);
      InstalledIsFirst(plugins[1..], copy, source);
      assert ([plugins[0]] + rest)[1..] == rest;
    }
  }

  /** When every step for one source on one target is this step, the copy found there is this step's or the old one. */
  lemma {:induction false} AfterSteps(installed: Installed, steps: seq<PlanStep>, reports: Reports, step: PlanStep)
    requires step.target in installed
    requires forall other | other in steps && other.target == step.target && other.source == step.source ::
      other == step
    ensures var after := CarriedOut(installed, steps, reports);
      && after.Keys == installed.Keys
      && FirstFrom(after[step.target], step.source)
         == if step in steps then Some(Copy(step, reports)) else FirstFrom(installed[step.target], step.source)
  {
    if steps != [] {
      var front, last := steps[..|steps| - 1], steps[|steps| - 1];
      assert steps == front + [last];
      AfterSteps(installed, front, reports, step);
      var before := CarriedOut(installed, front, reports);
      if last.target == step.target {
        InstalledIsFirst(before[step.target], Copy(last, reports), step.source);
      }
    }
  }

  /** A lockfile that gives one source one reference, however often it names it. */
  ghost predicate OneReference(lock: seq<LockedPlugin>) {
    forall a, b | a in lock && b in lock && a.source == b.source :: a.reference == b.reference
  }

  /** The host names no commit other than the reference it was asked for. */
  predicate AsAsked(step: PlanStep, reports: Reports) {
    var commit := reports(step).resolvedCommit;
    commit.None? || commit == Some(step.reference)
  }

  lemma HeldAfter(
    installed: Installed, lock: seq<LockedPlugin>, targets: seq<TargetSession>, reports: Reports,
    t: TargetSession, l: LockedPlugin)
    requires OneReference(lock) && t in targets && t in installed && l in lock
    ensures var step, after := StepFor(t, installed[t], l),
            CarriedOut(installed, PlanOf(installed, lock, targets), reports);
      && after.Keys == installed.Keys
      && (Holds(after[t], l) <==> Holds(installed[t], l) || AsAsked(step, reports))
  {
    var plan, step := PlanOf(installed, lock, targets), StepFor(t, installed[t], l);
    forall other | other in plan && other.target == t && other.source == l.source
      ensures other == step
    {
      PlanMeans(installed, lock, targets, other);
    }
    PlanMeans(installed, lock, targets, step);
    AfterSteps(installed, plan, reports, step);
  }

  ghost predicate SomeReached(installed: Installed, targets: seq<TargetSession>) {
    exists t :: t in targets && t in installed
  }

  /** A reached target can hold everything locked only where each source has one reference. */
  lemma AllHeldIsOneReference(installed: Installed, lock: seq<LockedPlugin>, targets: seq<TargetSession>)
    requires AllHold(installed, lock, targets) && SomeReached(installed, targets)
    ensures OneReference(lock)
  {
    var t :| t in targets && t in installed;
    forall a, b | a in lock && b in lock && a.source == b.source ensures a.reference == b.reference {
      assert Holds(installed[t], a) && Holds(installed[t], b);
    }
  }

  /** With one reference a source, what is held after a plan is what was held and what came as asked. */
  lemma SettlesAsAsked(installed: Installed, lock: seq<LockedPlugin>, targets: seq<TargetSession>, reports: Reports)
    requires OneReference(lock)
    ensures var plan := PlanOf(installed, lock, targets);
      PlanOf(CarriedOut(installed, plan, reports), lock, targets) == []
      <==> forall step | step in plan :: AsAsked(step, reports)
  {
    var plan := PlanOf(installed, lock, targets);
    var after := CarriedOut(installed, plan, reports);
    EmptyPlanMeansHeld(after, lock, targets);
    TargetsStay(installed, plan, reports);
    forall t, l | t in targets && t in installed && l in lock
      ensures Holds(after[t], l) <==> (Holds(installed[t], l) || AsAsked(StepFor(t, installed[t], l), reports))
    {
      HeldAfter(installed, lock, targets, reports, t, l);
    }
    forall step
      ensures step in plan <==>
        && step.target in targets && step.target in installed
        && exists l ::
             l in lock && !Holds(installed[step.target], l) && step == StepFor(step.target, installed[step.target], l)
    {
      PlanMeans(installed, lock, targets, step);
    }
    forall t, l | t in targets && t in installed && l in lock && !Holds(installed[t], l)
      ensures StepFor(t, installed[t], l) in plan
    {
      assert StepFor(t, installed[t], l).target == t;
    }
  }

  /**
   * Once a plan is carried out nothing more is planned, exactly when the lockfile gives each source
   * one reference, if any target was reached at all, and each host that was given a command names no
   * commit other than the reference it was asked for.
   */
  lemma CarryingOutSettles(installed: Installed, lock: seq<LockedPlugin>, targets: seq<TargetSession>, reports: Reports)
    ensures var plan := PlanOf(installed, lock, targets);
      PlanOf(CarriedOut(installed, plan, reports), lock, targets) == []
      <==> (SomeReached(installed, targets) ==> OneReference(lock))
           && forall step | step in plan :: AsAsked(step, reports)
  {
    var plan := PlanOf(installed, lock, targets);
    var after := CarriedOut(installed, plan, reports);
    TargetsStay(installed, plan, reports);
    EmptyPlanMeansHeld(after, lock, targets);
    if SomeReached(after, targets) && PlanOf(after, lock, targets) == [] {
      AllHeldIsOneReference(after, lock, targets);
    }
    if OneReference(lock) {
      SettlesAsAsked(installed, lock, targets, reports);
    } else if !SomeReached(installed, targets) {
      EmptyPlanMeansHeld(installed, lock, targets);
    }
  }

  /** A lockfile that gives one source two references is planned again, whatever the host then reports. */
  lemma SourceLockedTwice(host: TargetSession, source: PluginSource, version: string, reports: Reports)
    ensures var installed: Installed := map[host := []];
      var lock := [LockedPlugin(source, "r1", version), LockedPlugin(source, "r2", version)];
      PlanOf(CarriedOut(installed, PlanOf(installed, lock, [host]), reports), lock, [host]) != []
  {
    var installed: Installed := map[host := []];
    var lock := [LockedPlugin(source, "r1", version), LockedPlugin(source, "r2", version)];
    assert "r1"[1] != "r2"[1];
    assert lock[0] in lock && lock[1] in lock && host in [host];
    assert !OneReference(lock);
    assert SomeReached(installed, [host]);
    CarryingOutSettles(installed, lock, [host], reports);
  }

  /** A lockfile that names a tag is planned again on a host that reports the tag's commit. */
  lemma TagIsPlannedAgain(host: TargetSession, source: PluginSource, id: string, version: string)
    ensures var installed: Installed := map[host := []];
      var lock := [LockedPlugin(source, "v1.0", version)];
      var reports := (step: PlanStep) => Plugin(id, id, version, true, Some(source), Some("v1.0"), Some("4f2a9c1"));
      PlanOf(CarriedOut(installed, PlanOf(installed, lock, [host]), reports), lock, [host]) != []
  {
    var installed: Installed := map[host := []];
    var l := LockedPlugin(source, "v1.0", version);
    var reports := (step: PlanStep) => Plugin(id, id, version, true, Some(source), Some("v1.0"), Some("4f2a9c1"));
    CarryingOutSettles(installed, [l], [host], reports);
    assert l in [l] && !Holds(installed[host], l);
    PlanMeans(installed, [l], [host], StepFor(host, [], l));
    assert "4f2a9c1"[0] != "v1.0"[0];
    assert !AsAsked(StepFor(host, [], l), reports);
  }

  lemma {:induction false} TargetsStay(installed: Installed, steps: seq<PlanStep>, reports: Reports)
    ensures CarriedOut(installed, steps, reports).Keys == installed.Keys
  {
    if steps != [] {
      TargetsStay(installed, steps[..|steps| - 1], reports);
    }
  }
}
