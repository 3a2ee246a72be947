/** The inbox as the object a daemon keeps and updates in place on every federation. */
module InboxIndex {
  import opened Base
  import opened Ordering
  import opened Federation
  import Attention
  import opened Inbox

  // ----- gathering the cards a federation shows, in iteration order -----

  datatype Gathered = Gathered(seen: map<AgentId, Card>, ambiguous: set<AgentId>)

  function GatherOne(g: Gathered, agent: AgentState, snapshot: Snapshot, live: bool, build: Builder): Gathered {
    var id := AgentKey(agent);
    Gathered(g.seen[id := build(agent, snapshot, live)], if id in g.seen then g.ambiguous + {id} else g.ambiguous)
  }

  function GatherTarget(g: Gathered, target: Target, order: seq<PaneId>, n: nat, build: Builder): Gathered
    requires target.snapshot.Some? && n <= |order| && Taken(order, n) <= target.snapshot.value.agents.Keys
  {
    if n == 0 then g
    else GatherOne(GatherTarget(g, target, order, n - 1, build), target.snapshot.value.agents[order[n - 1]],
                   target.snapshot.value, target.connection == Live, build)
  }

  function Visit(g: Gathered, target: Target, build: Builder): Gathered {
    if target.snapshot.None? then g
    else
      var panes := IdOrder(target.snapshot.value.agents.Keys);
      GatherTarget(g, target, panes, |panes|, build)
  }

  function GatherTargets(
    targets: map<TargetSession, Target>, order: seq<TargetSession>, n: nat, build: Builder): Gathered
    requires n <= |order| && Taken(order, n) <= targets.Keys
  {
    if n == 0 then Gathered(map[], {})
    else Visit(GatherTargets(targets, order, n - 1, build), targets[order[n - 1]], build)
  }

  /** Both cards of an ambiguous identity stay visible, and neither is offered. */
  function Withheld(g: Gathered): map<AgentId, Card> {
    map id | id in g.seen :: if id in g.ambiguous then g.seen[id].(actionable := false) else g.seen[id]
  }

  function WithholdOne(seen: map<AgentId, Card>, id: AgentId): map<AgentId, Card> {
    if id in seen then seen[id := seen[id].(actionable := false)] else seen
  }

  function WithholdAll(seen: map<AgentId, Card>, order: seq<AgentId>, n: nat): map<AgentId, Card>
    requires n <= |order|
  {
    if n == 0 then seen else WithholdOne(WithholdAll(seen, order, n - 1), order[n - 1])
  }

  lemma {:induction false} WithholdAllMeans(seen: map<AgentId, Card>, order: seq<AgentId>, n: nat, id: AgentId)
    requires n <= |order|
    ensures var after := WithholdAll(seen, order, n);
      && (id in after <==> id in seen)
      && (id in seen ==> after[id] == if id in Taken(order, n) then seen[id].(actionable := false) else seen[id])
  {
    if n > 0 {
      WithholdAllMeans(seen, order, n - 1, id);
    }
  }

  lemma WithholdAllIsWithheld(g: Gathered)
    ensures var order := IdOrder(g.ambiguous); WithholdAll(g.seen, order, |order|) == Withheld(g)
  {
    var order := IdOrder(g.ambiguous);
    forall id
      ensures var after := WithholdAll(g.seen, order, |order|);
        (id in after <==> id in Withheld(g)) && (id in after ==> after[id] == Withheld(g)[id])
    {
      WithholdAllMeans(g.seen, order, |order|, id);
    }
    MapsAgree(WithholdAll(g.seen, order, |order|), Withheld(g));
  }

  // ----- what the gathering amounts to -----

  /** The panes among `met` that answer to `id`. */
  ghost function Answering(agents: map<PaneId, AgentState>, met: set<PaneId>, id: AgentId): set<PaneId> {
    set p | p in met && p in agents && AgentKey(agents[p]) == id
  }

  function GreatestId(ids: set<QualifiedId>): (m: QualifiedId)
    requires ids != {}
    ensures m in ids && forall x | x in ids :: x == m || IdLess(x, m)
  {
    IdLessTotal();
    Greatest(ids, IdLess)
  }

  lemma {:induction false} AnsweringStep(agents: map<PaneId, AgentState>, order: seq<PaneId>, n: nat, id: AgentId)
    requires n < |order| && Increasing(order, IdLess) && Taken(order, |order|) == agents.Keys
    ensures order[n] in agents
    ensures var before, after := Answering(agents, Taken(order, n), id), Answering(agents, Taken(order, n + 1), id);
            if AgentKey(agents[order[n]]) == id
            then after != {} && |after| == |before| + 1 && GreatestId(after) == order[n]
            else after == before
  {
    IdStep(order, n);
    var before, after := Answering(agents, Taken(order, n), id), Answering(agents, Taken(order, n + 1), id);
    if AgentKey(agents[order[n]]) == id {
      assert after == before + {order[n]};
      GreatestIsNewest(before, order[n]);
    } else {
      assert after == before;
    }
  }

  lemma GreatestIsNewest(met: set<PaneId>, p: PaneId)
    requires forall x | x in met :: IdLess(x, p)
    ensures GreatestId(met + {p}) == p
  {
    IdLessTotal();
  }

  /** The card of the last pane met that answers to `id`, before ambiguity is judged. */
  ghost function LastCard(target: Target, met: set<PaneId>, id: AgentId, build: Builder): Card
    requires target.snapshot.Some? && Answering(target.snapshot.value.agents, met, id) != {}
  {
    var snapshot := target.snapshot.value;
    build(snapshot.agents[GreatestId(Answering(snapshot.agents, met, id))], snapshot, target.connection == Live)
  }

  /** What gathering has done about one identity, given how many of the panes met answer to it. */
  ghost predicate Accounted(g: Gathered, after: Gathered, id: AgentId, answering: nat, card: Option<Card>) {
    && (answering == 0 ==> (id in after.seen <==> id in g.seen) && (id in after.ambiguous <==> id in g.ambiguous)
                            && (id in g.seen ==> after.seen[id] == g.seen[id]))
    && (answering > 0 ==> id in after.seen && Some(after.seen[id]) == card)
    && (answering > 0 && id !in g.seen && id !in g.ambiguous ==> (id in after.ambiguous <==> answering > 1))
  }

  lemma GatherOneMeans(
    g: Gathered, before: Gathered, agent: AgentState, snapshot: Snapshot, live: bool, build: Builder,
    id: AgentId, met: nat, card: Option<Card>)
    requires Accounted(g, before, id, met, card)
    ensures var after := GatherOne(before, agent, snapshot, live, build);
      if AgentKey(agent) == id then Accounted(g, after, id, met + 1, Some(build(agent, snapshot, live)))
      else Accounted(g, after, id, met, card)
  {
  }

  /** One more answers, with the card just built; or what there is stays. */
  ghost predicate Moves(answers: bool, built: Card, met: nat, card: Option<Card>, more: nat, next: Option<Card>) {
    if answers then more == met + 1 && next == Some(built) else more == met && next == card
  }

  /** Gathering pane by pane accounts for whatever is counted pane by pane. */
  lemma {:induction false} GatherCounts(
    g: Gathered, target: Target, order: seq<PaneId>, n: nat, build: Builder, id: AgentId,
    counts: nat -> nat, cards: nat -> Option<Card>)
    requires target.snapshot.Some? && n <= |order| && Taken(order, n) <= target.snapshot.value.agents.Keys
    requires counts(0) == 0
    requires forall k | 0 <= k < n ::
      && order[k] in target.snapshot.value.agents
      && var agent := target.snapshot.value.agents[order[k]];
      Moves(AgentKey(agent) == id, build(agent, target.snapshot.value, target.connection == Live),
            counts(k), cards(k), counts(k + 1), cards(k + 1))
    ensures Accounted(g, GatherTarget(g, target, order, n, build), id, counts(n), cards(n))
  {
    if n > 0 {
      var agent := target.snapshot.value.agents[order[n - 1]];
      GatherCounts(g, target, order, n - 1, build, id, counts, cards);
      GatherOneMeans(g, GatherTarget(g, target, order, n - 1, build), agent, target.snapshot.value,
                     target.connection == Live, build, id, counts(n - 1), cards(n - 1));
    }
  }

  ghost function LastCardIfAny(target: Target, met: set<PaneId>, id: AgentId, build: Builder): Option<Card>
    requires target.snapshot.Some?
  {
    if Answering(target.snapshot.value.agents, met, id) == {} then None else Some(LastCard(target, met, id, build))
  }

  /** How many of the first `k` panes answer to `id`. */
  ghost function AnswersMet(target: Target, order: seq<PaneId>, id: AgentId, k: nat): nat
    requires target.snapshot.Some?
  {
    if k <= |order| then |Answering(target.snapshot.value.agents, Taken(order, k), id)| else 0
  }

  /** The card of the last of them. */
  ghost function CardMet(target: Target, order: seq<PaneId>, id: AgentId, build: Builder, k: nat): Option<Card>
    requires target.snapshot.Some?
  {
    if k <= |order| then LastCardIfAny(target, Taken(order, k), id, build) else None
  }

  lemma AnswersMove(target: Target, order: seq<PaneId>, n: nat, build: Builder, id: AgentId)
    requires target.snapshot.Some? && n < |order| && Increasing(order, IdLess)
    requires Taken(order, |order|) == target.snapshot.value.agents.Keys
    ensures order[n] in target.snapshot.value.agents
    ensures var snapshot := target.snapshot.value;
      Moves(AgentKey(snapshot.agents[order[n]]) == id,
            build(snapshot.agents[order[n]], snapshot, target.connection == Live),
            AnswersMet(target, order, id, n), CardMet(target, order, id, build, n),
            AnswersMet(target, order, id, n + 1), CardMet(target, order, id, build, n + 1))
  {
    AnsweringStep(target.snapshot.value.agents, order, n, id);
  }

  lemma GatherTargetMeans(g: Gathered, target: Target, order: seq<PaneId>, build: Builder, id: AgentId)
    requires target.snapshot.Some? && Increasing(order, IdLess)
    requires Taken(order, |order|) == target.snapshot.value.agents.Keys
    ensures Accounted(g, GatherTarget(g, target, order, |order|, build), id,
                      AnswersMet(target, order, id, |order|), CardMet(target, order, id, build, |order|))
  {
    forall k | 0 <= k < |order|
      ensures order[k] in target.snapshot.value.agents
      ensures Moves(AgentKey(target.snapshot.value.agents[order[k]]) == id,
                    build(target.snapshot.value.agents[order[k]], target.snapshot.value, target.connection == Live),
                    AnswersMet(target, order, id, k), CardMet(target, order, id, build, k),
                    AnswersMet(target, order, id, k + 1), CardMet(target, order, id, build, k + 1))
    {
      AnswersMove(target, order, k, build, id);
    }
    assert AnswersMet(target, order, id, 0) == 0;
    GatherCounts(g, target, order, |order|, build, id,
                 (k: nat) => AnswersMet(target, order, id, k), (k: nat) => CardMet(target, order, id, build, k));
  }

  /** A target's agents only answer to identities of that target. */
  lemma OthersAnswerNothing(state: FederationState, t: TargetSession, id: AgentId)
    requires state.Qualified() && t in state.targets && id.Owner() != t
    ensures Answering(state.AgentsAt(t), state.AgentsAt(t).Keys, id) == {}
  {
  }

  lemma HoldersAnswer(state: FederationState, id: AgentId)
    ensures Answering(state.AgentsAt(id.Owner()), state.AgentsAt(id.Owner()).Keys, id) == Holders(state, id)
  {
  }

  /** What has been gathered for one identity: its card, if any, and whether another agent answers to it too. */
  ghost function GatheredFor(g: Gathered, id: AgentId): (Option<Card>, bool) {
    (if id in g.seen then Some(g.seen[id]) else None, id in g.ambiguous)
  }

  /** What is to be gathered for it: the last card of whoever answers, and whether more than one does. */
  ghost function Verdict(state: FederationState, id: AgentId, build: Builder): (Option<Card>, bool) {
    var agents := state.AgentsAt(id.Owner());
    var answering := Answering(agents, agents.Keys, id);
    if answering == {} then (None, false)
    else (Some(LastCard(state.targets[id.Owner()], agents.Keys, id, build)), |answering| > 1)
  }

  /** Visiting a target settles its own identities and leaves every other one as it was. */
  lemma VisitSettles(g: Gathered, state: FederationState, t: TargetSession, build: Builder, id: AgentId)
    requires state.Qualified() && t in state.targets
    ensures var after := GatheredFor(Visit(g, state.targets[t], build), id);
      && (id.Owner() != t ==> after == GatheredFor(g, id))
      && (id.Owner() == t && GatheredFor(g, id) == (None, false) ==> after == Verdict(state, id, build))
  {
    if state.targets[t].snapshot.Some? {
      var panes := IdOrder(state.AgentsAt(t).Keys);
      GatherTargetMeans(g, state.targets[t], panes, build, id);
      if id.Owner() != t {
        OthersAnswerNothing(state, t, id);
      }
    } else if id.Owner() == t {
      assert Answering(state.AgentsAt(id.Owner()), {}, id) == {};
    }
  }

  /** The visit that takes the gathering to `n` targets. */
  lemma GatherTargetsStep(state: FederationState, order: seq<TargetSession>, n: nat, build: Builder)
    returns (t: TargetSession, before: Gathered)
    requires 0 < n <= |order| && Increasing(order, SessionLess)
    requires Taken(order, |order|) == state.targets.Keys && Taken(order, n) <= state.targets.Keys
    ensures t in state.targets && t !in Taken(order, n - 1) && Taken(order, n) == Taken(order, n - 1) + {t}
    ensures Taken(order, n - 1) <= state.targets.Keys && before == GatherTargets(state.targets, order, n - 1, build)
    ensures GatherTargets(state.targets, order, n, build) == Visit(before, state.targets[t], build)
  {
    SessionStep(order, n - 1);
    t, before := order[n - 1], GatherTargets(state.targets, order, n - 1, build);
  }

  lemma {:induction false} GatherTargetsMeans(
    state: FederationState, order: seq<TargetSession>, n: nat, build: Builder, id: AgentId)
    requires state.Qualified() && n <= |order| && Increasing(order, SessionLess)
    requires Taken(order, |order|) == state.targets.Keys && Taken(order, n) <= state.targets.Keys
    ensures GatheredFor(GatherTargets(state.targets, order, n, build), id)
         == if id.Owner() in Taken(order, n) then Verdict(state, id, build) else (None, false)
  {
    if n > 0 {
      var t, before := GatherTargetsStep(state, order, n, build);
      GatherTargetsMeans(state, order, n - 1, build, id);
      VisitSettles(before, state, t, build, id);
    }
  }

  lemma WithheldIsSeen(state: FederationState, build: Builder)
    requires state.Qualified()
    ensures var order := SessionOrder(state.targets.Keys);
            Withheld(GatherTargets(state.targets, order, |order|, build)) == Seen(state, build)
  {
    var order := SessionOrder(state.targets.Keys);
    var withheld, seen := Withheld(GatherTargets(state.targets, order, |order|, build)), Seen(state, build);
    forall id ensures (id in withheld <==> id in seen) && (id in withheld ==> withheld[id] == seen[id]) {
      WithheldAt(state, build, id);
    }
    MapsAgree(withheld, seen);
  }

  lemma WithheldAt(state: FederationState, build: Builder, id: AgentId)
    requires state.Qualified()
    ensures var order := SessionOrder(state.targets.Keys);
            var g := GatherTargets(state.targets, order, |order|, build);
      && (id in g.seen <==> id in Seen(state, build))
      && (id in g.seen ==> Withheld(g)[id] == Seen(state, build)[id])
  {
    var order := SessionOrder(state.targets.Keys);
    GatherTargetsMeans(state, order, |order|, build, id);
    HoldersAnswer(state, id);
    assert Holders(state, id) != {} ==> |Holders(state, id)| > 0;
  }

  // ----- sweeping out what is no longer there -----

  function Kept(
    tracked: map<AgentId, Tracked>, seen: map<AgentId, Card>, state: FederationState): map<AgentId, Tracked> {
    map id | id in tracked && (id in seen || Unaskable(state, id.Owner())) :: tracked[id]
  }

  function StaleOne(tracked: map<AgentId, Tracked>, seen: map<AgentId, Card>, id: AgentId): map<AgentId, Tracked> {
    if id in tracked && id !in seen then tracked[id := Staled(tracked[id])] else tracked
  }

  function StaleAll(tracked: map<AgentId, Tracked>, seen: map<AgentId, Card>, order: seq<AgentId>, n: nat)
    : map<AgentId, Tracked>
    requires n <= |order|
  {
    if n == 0 then tracked else StaleOne(StaleAll(tracked, seen, order, n - 1), seen, order[n - 1])
  }

  lemma {:induction false} StaleAllMeans(
    tracked: map<AgentId, Tracked>, seen: map<AgentId, Card>, order: seq<AgentId>, n: nat, id: AgentId)
    requires n <= |order|
    ensures var after := StaleAll(tracked, seen, order, n);
      && (id in after <==> id in tracked)
      && (id in tracked ==>
            after[id] == if id in Taken(order, n) && id !in seen then Staled(tracked[id]) else tracked[id])
  {
    if n > 0 {
      StaleAllMeans(tracked, seen, order, n - 1, id);
    }
  }

  lemma StaledIsRetained(tracked: map<AgentId, Tracked>, seen: map<AgentId, Card>, state: FederationState)
    ensures var kept := Kept(tracked, seen, state); var order := IdOrder(kept.Keys);
      StaleAll(kept, seen, order, |order|) == Retained(tracked, seen, state)
  {
    var kept, retained := Kept(tracked, seen, state), Retained(tracked, seen, state);
    var order := IdOrder(kept.Keys);
    var staled := StaleAll(kept, seen, order, |order|);
    forall id
      ensures (id in staled <==> id in retained) && (id in staled ==> staled[id] == retained[id])
    {
      StaleAllMeans(kept, seen, order, |order|, id);
    }
    MapsAgree(staled, retained);
  }

  // ----- the object -----

  /** An index with what is no longer there swept out. */
  function Swept(index: Index, seen: map<AgentId, Card>, state: FederationState): Index {
    var gone := IdOrder(Vanishing(index.tracked, seen, state));
    index.(tracked := Retained(index.tracked, seen, state),
           history := RetireAll(index.history, gone, |gone|, index.tracked))
  }

  /** An index with the cards seen taken in. */
  function TakenIn(index: Index, seen: map<AgentId, Card>): Index {
    var order := IdOrder(seen.Keys);
    var queue := AdmitAll(Queue(index.tracked, index.nextRank), seen, order, |order|);
    index.(tracked := queue.tracked, nextRank := queue.next)
  }

  /** Sweeping, taking in and publishing is the projection. */
  lemma ProjectedInSteps(index: Index, state: FederationState, build: Builder)
    requires state.Qualified()
    ensures var taken := TakenIn(Swept(index, Seen(state, build), state), Seen(state, build));
      Publish(taken, Shown(taken.tracked, taken.history)) == Projected(index, state, build)
  {
  }

  class AgentCardIndex {
    var tracked: map<AgentId, Tracked>
    var history: seq<Card>
    var nextRank: nat
    var revision: nat
    var published: Option<Published>

    ghost function View(): Index
      reads this
    {
      Index(tracked, history, nextRank, revision, published)
    }

    constructor ()
      ensures View() == EMPTY
    {
      tracked, history, nextRank, revision, published := map[], [], 0, 0, None;
    }

    /** Every card the federation shows, with ambiguous identities withheld. */
    static method Collect(state: FederationState, build: Builder) returns (seen: map<AgentId, Card>)
      requires state.Qualified()
      ensures seen == Seen(state, build)
    {
      var ambiguous: set<AgentId> := {};
      seen := map[];
      var targets := SessionOrder(state.targets.Keys);
      ghost var gathered := Gathered(map[], {});
      for i := 0 to |targets|
        invariant Taken(targets, i) <= state.targets.Keys
        invariant gathered == GatherTargets(state.targets, targets, i, build)
        invariant seen == gathered.seen && ambiguous == gathered.ambiguous
      {
        SessionStep(targets, i);
        var target := state.targets[targets[i]];
        if target.snapshot.Some? {
          seen, ambiguous := CollectTarget(target, seen, ambiguous, build);
        }
        gathered := Visit(gathered, target, build);
      }
      seen := Withhold(seen, ambiguous);
      WithheldIsSeen(state, build);
    }

    static method CollectTarget(target: Target, seen0: map<AgentId, Card>, ambiguous0: set<AgentId>, build: Builder)
      returns (seen: map<AgentId, Card>, ambiguous: set<AgentId>)
      requires target.snapshot.Some?
      ensures Gathered(seen, ambiguous) == Visit(Gathered(seen0, ambiguous0), target, build)
    {
      seen, ambiguous := seen0, ambiguous0;
      var snapshot := target.snapshot.value;
      var panes := IdOrder(snapshot.agents.Keys);
      for i := 0 to |panes|
        invariant Taken(panes, i) <= snapshot.agents.Keys
        invariant Gathered(seen, ambiguous) == GatherTarget(Gathered(seen0, ambiguous0), target, panes, i, build)
      {
        IdStep(panes, i);
        var agent := snapshot.agents[panes[i]];
        var id := AgentKey(agent);
        if id in seen {
          ambiguous := ambiguous + {id};
        }
        seen := seen[id := build(agent, snapshot, target.connection == Live)];
      }
    }

    static method Withhold(seen0: map<AgentId, Card>, ambiguous: set<AgentId>) returns (seen: map<AgentId, Card>)
      ensures seen == Withheld(Gathered(seen0, ambiguous))
    {
      seen := seen0;
      var order := IdOrder(ambiguous);
      for i := 0 to |order|
        invariant seen == WithholdAll(seen0, order, i)
      {
        if order[i] in seen {
          seen := seen[order[i] := seen[order[i]].(actionable := false)];
        }
      }
      WithholdAllIsWithheld(Gathered(seen0, ambiguous));
    }

    /** Retire the agents a live target stopped listing, and mark the ones that cannot be asked about. */
    method Sweep(seen: map<AgentId, Card>, state: FederationState)
      modifies `tracked, `history
      ensures View() == Swept(old(View()), seen, state)
    {
      ghost var index := View();
      var before := tracked;
      var vanished := IdOrder(Vanishing(before, seen, state));
      tracked := Kept(before, seen, state);
      StaleUnseen(seen);
      StaledIsRetained(before, seen, state);
      assert tracked == Retained(index.tracked, seen, state);
      RetireEach(vanished, before);
    }

    method RetireEach(order: seq<AgentId>, gone: map<AgentId, Tracked>)
      requires Taken(order, |order|) <= gone.Keys && Increasing(order, IdLess)
      modifies `history
      ensures history == RetireAll(old(history), order, |order|, gone)
    {
      ghost var before := history;
      for i := 0 to |order|
        invariant Taken(order, i) <= gone.Keys
        invariant history == RetireAll(before, order, i, gone)
      {
        IdStep(order, i);
        RetireCard(gone[order[i]].card);
      }
    }

    method StaleUnseen(seen: map<AgentId, Card>)
      modifies `tracked
      ensures var order := IdOrder(old(tracked).Keys); tracked == StaleAll(old(tracked), seen, order, |order|)
    {
      var before := tracked;
      var order := IdOrder(before.Keys);
      var now := before;
      for i := 0 to |order|
        invariant now == StaleAll(before, seen, order, i)
      {
        if order[i] in now && order[i] !in seen {
          var entry := now[order[i]];
          now := now[order[i] := entry.(card := entry.card.(stale := true, actionable := false))];
        }
      }
      tracked := now;
    }

    method RetireCard(card: Card)
      modifies `history
      ensures history == Retire(old(history), card)
    {
      history := [card.(pane := None, activity := Gone, section := Recent, actionable := false, stale := false)]
        + history;
      if |history| > MAX_HISTORY_CARDS {
        history := history[..MAX_HISTORY_CARDS];
      }
    }

    /** Take in one card: in place if it stays in its section, and otherwise behind everything ranked so far. */
    method TakeOne(id: AgentId, card: Card)
      modifies `tracked, `nextRank
      ensures Queue(tracked, nextRank) == Admit(old(Queue(tracked, nextRank)), id, card)
    {
      if id in tracked && tracked[id].section == card.section {
        tracked := tracked[id := tracked[id].(card := card)];
      } else {
        var rank := nextRank;
        nextRank := nextRank + 1;
        tracked := tracked[id := Tracked(rank, card.section, card)];
      }
    }

    /** Take in the cards just seen, identity by identity. */
    method TakeIn(seen: map<AgentId, Card>)
      modifies `tracked, `nextRank
      ensures View() == TakenIn(old(View()), seen)
    {
      var order := IdOrder(seen.Keys);
      ghost var before := Queue(tracked, nextRank);
      for i := 0 to |order|
        invariant Taken(order, i) <= seen.Keys
        invariant Queue(tracked, nextRank) == AdmitAll(before, seen, order, i)
      {
        IdStep(order, i);
        TakeOne(order[i], seen[order[i]]);
      }
    }

    /** The index becomes its projection; what it then publishes and numbers is returned. */
    method Project(state: FederationState, events: seq<Attention.Event>, local: LocalView)
      returns (shown: Published, number: nat)
      requires state.Qualified()
      modifies this
      ensures View() == Projected(old(View()), state, CardBuilder(events, local))
      ensures published == Some(shown) && number == revision
    {
      ghost var before := View();
      var build := CardBuilder(events, local);
      var seen := Collect(state, build);
      Sweep(seen, state);
      TakeIn(seen);
      ProjectedInSteps(before, state, build);
      shown, number := Announce();
    }

    /** Publish the sections as they stand, and count the change if they are not what was published before. */
    method Announce() returns (shown: Published, number: nat)
      modifies `published, `revision
      ensures View() == Publish(old(View()), Shown(tracked, history))
      ensures published == Some(shown) && number == revision
    {
      shown := Published(SectionCards(tracked, NeedsYou), SectionCards(tracked, Working),
                         SectionCards(tracked, Recent) + history);
      if published != Some(shown) {
        revision := revision + 1;
      }
      published := Some(shown);
      number := revision;
    }
  }
}
