/**
 * The federation a daemon projects: targets, their snapshots, and the identities that
 * qualify what a snapshot lists.
 */
module Federation {
  import opened Base
  import opened Ordering

  datatype TargetSession = TargetSession(target: string, session: string) {
    function Path(): seq<string> { [target, session] }
  }

  datatype QualifiedId = QualifiedId(target: string, session: string, resource: string) {
    function Owner(): TargetSession { TargetSession(target, session) }

    function Path(): seq<string> { [target, session, resource] }
  }

  type PaneId = QualifiedId
  type AgentId = QualifiedId

  predicate IdLess(a: QualifiedId, b: QualifiedId) { PathLess(a.Path(), b.Path()) }

  predicate SessionLess(a: TargetSession, b: TargetSession) { PathLess(a.Path(), b.Path()) }

  lemma IdLessTotal()
    ensures StrictTotal(IdLess)
  {
    PathLessTotal();
    forall a: QualifiedId, b: QualifiedId | a != b ensures IdLess(a, b) || IdLess(b, a) {
      assert a == QualifiedId(a.Path()[0], a.Path()[1], a.Path()[2]);
      assert b == QualifiedId(b.Path()[0], b.Path()[1], b.Path()[2]);
    }
  }

  lemma SessionLessTotal()
    ensures StrictTotal(SessionLess)
  {
    PathLessTotal();
    forall a: TargetSession, b: TargetSession | a != b ensures SessionLess(a, b) || SessionLess(b, a) {
      assert a == TargetSession(a.Path()[0], a.Path()[1]);
      assert b == TargetSession(b.Path()[0], b.Path()[1]);
    }
  }

  /** Ids are ordered by their target, then by their session, then by what they name. */
  lemma IdLessMeans(a: QualifiedId, b: QualifiedId)
    ensures IdLess(a, b) <==>
      || StringLess(a.target, b.target)
      || (a.target == b.target
          && (StringLess(a.session, b.session) || (a.session == b.session && StringLess(a.resource, b.resource))))
  {
    LexCons(StringLess, a.target, [a.session, a.resource], b.target, [b.session, b.resource]);
    LexCons(StringLess, a.session, [a.resource], b.session, [b.resource]);
    LexCons(StringLess, a.resource, [], b.resource, []);
    assert a.Path() == [a.target] + [a.session, a.resource] && b.Path() == [b.target] + [b.session, b.resource];
    assert [a.session, a.resource] == [a.session] + [a.resource];
    assert [b.session, b.resource] == [b.session] + [b.resource];
    assert [a.resource] == [a.resource] + [] && [b.resource] == [b.resource] + [];
  }

  /** The order a map keyed by qualified ids yields its keys in. */
  function IdOrder(ids: set<QualifiedId>): (r: seq<QualifiedId>)
    ensures Increasing(r, IdLess)
    ensures |r| == |ids|
    ensures Taken(r, |r|) == ids
  {
    IdLessTotal();
    Ascending(ids, IdLess)
  }

  function SessionOrder(sessions: set<TargetSession>): (r: seq<TargetSession>)
    ensures Increasing(r, SessionLess)
    ensures |r| == |sessions|
    ensures Taken(r, |r|) == sessions
  {
    SessionLessTotal();
    Ascending(sessions, SessionLess)
  }

  lemma IdStep(s: seq<QualifiedId>, n: nat)
    requires Increasing(s, IdLess) && n < |s|
    ensures s[n] !in Taken(s, n) && s[n] in Taken(s, |s|)
    ensures forall x | x in Taken(s, n) :: IdLess(x, s[n])
  {
    IdLessTotal();
    TakenStep(s, n, IdLess);
  }

  lemma SessionStep(s: seq<TargetSession>, n: nat)
    requires Increasing(s, SessionLess) && n < |s|
    ensures s[n] !in Taken(s, n) && s[n] in Taken(s, |s|)
  {
    SessionLessTotal();
    TakenStep(s, n, SessionLess);
  }

  datatype Connection = Connecting | Live | Backoff(attempt: nat) | Incompatible

  datatype WorkspaceState = WorkspaceState(caption: Option<string>)

  datatype TabState = TabState(caption: Option<string>)

  datatype PaneState = PaneState(
    workspace: Option<QualifiedId>, tab: Option<QualifiedId>, caption: Option<string>,
    agent: Option<string>, agentStatus: Option<string>)

  datatype AgentSessionRef = AgentSessionRef(source: string, agent: string, kind: string, value: string)

  datatype AgentState = AgentState(
    pane: PaneId, name: Option<string>, agent: Option<string>, status: Option<string>,
    interactiveReady: Option<bool>, session: Option<AgentSessionRef>)

  datatype Snapshot = Snapshot(
    workspaces: map<QualifiedId, WorkspaceState>, tabs: map<QualifiedId, TabState>,
    panes: map<PaneId, PaneState>, agents: map<PaneId, AgentState>)

  datatype Target = Target(
    key: TargetSession, connection: Connection, generation: nat, snapshot: Option<Snapshot>)

  datatype FederationState = FederationState(targets: map<TargetSession, Target>) {
    /**
     * Values carry their own keys, and a snapshot qualifies what it lists with its own
     * target's key.
     */
    ghost predicate Qualified() {
      forall t | t in targets ::
        && targets[t].key == t
        && (targets[t].snapshot.Some? ==>
              forall p | p in targets[t].snapshot.value.agents ::
                p.Owner() == t && targets[t].snapshot.value.agents[p].pane == p)
    }

    /** What the owner of `id` reports, when it reports anything. */
    function AgentsAt(t: TargetSession): map<PaneId, AgentState> {
      if t in targets && targets[t].snapshot.Some? then targets[t].snapshot.value.agents else map[]
    }

    predicate LiveAt(t: TargetSession) {
      t in targets && targets[t].connection == Live
    }
  }

  const AGENT_KEY_SEPARATOR: char := '\U{001F}'

  function Tagged(tag: string, rest: string): string { tag + [AGENT_KEY_SEPARATOR] + rest }

  function PaneAgentKey(pane: PaneId): AgentId {
    QualifiedId(pane.target, pane.session, Tagged("pane", pane.resource))
  }

  /** The identity of one agent: its reported session when there is one, else its pane. */
  function AgentKey(agent: AgentState): AgentId {
    match agent.session
    case None => PaneAgentKey(agent.pane)
    case Some(s) =>
      QualifiedId(agent.pane.target, agent.pane.session,
                  Tagged("session", Tagged(s.kind, Tagged(s.value, Tagged(s.source, s.agent)))))
  }

  /** What `bounded_identity` guarantees of a session reference read off a snapshot. */
  predicate SeparatorFree(s: AgentSessionRef) {
    AGENT_KEY_SEPARATOR !in s.kind && AGENT_KEY_SEPARATOR !in s.value && AGENT_KEY_SEPARATOR !in s.source
  }

  lemma {:induction false} TaggedInjective(a: string, x: string, b: string, y: string)
    requires AGENT_KEY_SEPARATOR !in a && AGENT_KEY_SEPARATOR !in b
    requires Tagged(a, x) == Tagged(b, y)
    ensures a == b && x == y
  {
    var whole := Tagged(a, x);
    assert whole[|a|] == AGENT_KEY_SEPARATOR && whole[|b|] == AGENT_KEY_SEPARATOR;
    assert forall i | 0 <= i < |a| :: whole[i] == a[i];
    assert forall i | 0 <= i < |b| :: whole[i] == b[i];
    assert |a| == |b|;
    assert a == whole[..|a|] && x == whole[|a| + 1..];
    assert b == whole[..|b|] && y == whole[|b| + 1..];
  }

  /**
   * Two agents answer to one identity exactly when they are on one target and Herdr session
   * and either report the same agent session or, reporting none, occupy the same pane.
   */
  lemma AgentKeyIdentifies(a: AgentState, b: AgentState)
    requires a.session.Some? ==> SeparatorFree(a.session.value)
    requires b.session.Some? ==> SeparatorFree(b.session.value)
    ensures AgentKey(a) == AgentKey(b) <==>
            && a.pane.Owner() == b.pane.Owner()
            && a.session == b.session
            && (a.session.None? ==> a.pane == b.pane)
  {
    if AgentKey(a) == AgentKey(b) {
      assert AgentKey(a).resource[0] == if a.session.None? then 'p' else 's';
      assert AgentKey(b).resource[0] == if b.session.None? then 'p' else 's';
      if a.session.None? && b.session.None? {
        TaggedInjective("pane", a.pane.resource, "pane", b.pane.resource);
      } else if a.session.Some? && b.session.Some? {
        var s, t := a.session.value, b.session.value;
        var v, w := Tagged(s.source, s.agent), Tagged(t.source, t.agent);
        TaggedInjective("session", Tagged(s.kind, Tagged(s.value, v)), "session", Tagged(t.kind, Tagged(t.value, w)));
        TaggedInjective(s.kind, Tagged(s.value, v), t.kind, Tagged(t.value, w));
        TaggedInjective(s.value, v, t.value, w);
        TaggedInjective(s.source, s.agent, t.source, t.agent);
      }
    }
  }
}
