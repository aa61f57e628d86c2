/**
 The assignment protocol: the registrar subscribes to changes of the assignment table, then reads the
 table and starts what is assigned to this node, then works through the changes, while the table may
 change at any time.
 */
module Assignment {
  import opened Wrappers

  type Id = nat
  type NodeId = nat

  // ------------------------------------------------------------------ the provider

  /** What the provider tells the instance manager. */
  datatype Call = StartSubgraph(id: Id) | StopSubgraph(id: Id)

  datatype Provider = Provider(running: set<Id>, calls: seq<Call>)

  datatype StartResult = Started | AlreadyRunning | ResolveError
  datatype StopResult = Stopped | NotRunning

  function AfterStart(p: Provider, id: Id, resolves: bool): Provider {
    if id in p.running then p
    else Provider(p.running + {id}, if resolves then p.calls + [StartSubgraph(id)] else p.calls)
  }

  function AfterStop(p: Provider, id: Id): Provider {
    if id in p.running then Provider(p.running - {id}, p.calls + [StopSubgraph(id)]) else p
  }

  class SubgraphAssignmentProvider {
    var subgraphsRunning: set<Id>
    var calls: seq<Call>

    ghost function Abstract(): Provider
      reads this
    {
      Provider(subgraphsRunning, calls)
    }

    constructor ()
      ensures Abstract() == Provider({}, [])
    {
      subgraphsRunning := {};
      calls := [];
    }

    method Start(id: Id, resolves: bool) returns (r: StartResult)
      modifies this
      ensures Abstract() == AfterStart(old(Abstract()), id, resolves)
      ensures r == if id in old(subgraphsRunning) then AlreadyRunning else if resolves then Started else ResolveError
      ensures id in subgraphsRunning
    {
      if id in subgraphsRunning {
        return AlreadyRunning;
      }
      subgraphsRunning := subgraphsRunning + {id};
      if !resolves {
        return ResolveError;
      }
      calls := calls + [StartSubgraph(id)];
      return Started;
    }

    method Stop(id: Id) returns (r: StopResult)
      modifies this
      ensures Abstract() == AfterStop(old(Abstract()), id)
      ensures r == if id in old(subgraphsRunning) then Stopped else NotRunning
      ensures id !in subgraphsRunning
    {
      if id in subgraphsRunning {
        subgraphsRunning := subgraphsRunning - {id};
        calls := calls + [StopSubgraph(id)];
        return Stopped;
      }
      return NotRunning;
    }
  }

  // ------------------------------------------------------------------ the protocol

  datatype Operation = Set | Removed
  datatype Change = Change(id: Id, operation: Operation)
  datatype AssignmentEvent = Add(id: Id) | Remove(id: Id)

  /** `Starting` still has to start the deployments in `todo`, in any order. */
  datatype Phase = NotSubscribed | Subscribed | Starting(todo: set<Id>) | Serving

  /** `queue` holds the changes since the subscription, `pending` the event being handled. */
  datatype State = State(
    table: map<Id, NodeId>,
    phase: Phase,
    queue: seq<Change>,
    pending: Option<AssignmentEvent>,
    provider: Provider
  )

  predicate AssignedHere(me: NodeId, table: map<Id, NodeId>, id: Id) {
    id in table && table[id] == me
  }

  function Assigned(me: NodeId, table: map<Id, NodeId>): set<Id> {
    set id | id in table && table[id] == me
  }

  /** What `assignment_events` makes of a change when it gets to it. */
  function Translate(me: NodeId, table: map<Id, NodeId>, c: Change): Option<AssignmentEvent> {
    match c.operation
    case Set =>
      if c.id !in table then None // a separate remove event comes later
      else if table[c.id] == me then Some(Add(c.id)) else Some(Remove(c.id))
    case Removed => Some(Remove(c.id))
  }

  function Handle(p: Provider, e: AssignmentEvent, resolves: bool): Provider {
    match e
    case Add(id) => AfterStart(p, id, resolves)
    case Remove(id) => AfterStop(p, id)
  }

  function Announce(s: State, c: Change): seq<Change> {
    if s.phase.NotSubscribed? then s.queue else s.queue + [c]
  }

  /** `resolves` says whether the manifest resolves, should the step start a deployment; it may differ each time. */
  datatype Action =
    | Assign(id: Id, node: NodeId)
    | Unassign(id: Id)
    | Subscribe
    | ReadTable
    | StartOne(id: Id, resolves: bool)
    | BeginServing
    | Pull
    | HandlePending(resolves: bool)

  ghost predicate Enabled(s: State, a: Action) {
    match a
    case Assign(_, _) => true
    case Unassign(id) => id in s.table
    case Subscribe => s.phase.NotSubscribed?
    case ReadTable => s.phase.Subscribed?
    case StartOne(id, _) => s.phase.Starting? && id in s.phase.todo
    case BeginServing => s.phase == Starting({})
    case Pull => s.phase.Serving? && s.pending.None? && s.queue != []
    case HandlePending(_) => s.phase.Serving? && s.pending.Some?
  }

  ghost function Do(me: NodeId, s: State, a: Action): State
    requires Enabled(s, a)
  {
    match a
    case Assign(id, node) => s.(table := s.table[id := node], queue := Announce(s, Change(id, Set)))
    case Unassign(id) => s.(table := s.table - {id}, queue := Announce(s, Change(id, Removed)))
    case Subscribe => s.(phase := Subscribed)
    case ReadTable => s.(phase := Starting(Assigned(me, s.table)))
    case StartOne(id, resolves) =>
      s.(phase := Starting(s.phase.todo - {id}), provider := AfterStart(s.provider, id, resolves))
    case BeginServing => s.(phase := Serving)
    case Pull => s.(queue := s.queue[1..], pending := Translate(me, s.table, s.queue[0]))
    case HandlePending(resolves) => s.(pending := None, provider := Handle(s.provider, s.pending.value, resolves))
  }

  ghost predicate Init(s: State) {
    s.phase.NotSubscribed? && s.queue == [] && s.pending.None? && s.provider == Provider({}, [])
  }

  ghost predicate Run(me: NodeId, states: seq<State>, actions: seq<Action>) {
    && |states| == |actions| + 1 && Init(states[0])
    && forall i :: 0 <= i < |actions| ==> Enabled(states[i], actions[i]) && states[i + 1] == Do(me, states[i], actions[i])
  }

  // ------------------------------------------------------------------ the invariant

  predicate Mentions(queue: seq<Change>, id: Id) {
    exists i :: 0 <= i < |queue| && queue[i].id == id
  }

  /** The last queued change of a deployment is a removal iff the deployment is not in the table. */
  ghost predicate LastChangeFits(table: map<Id, NodeId>, queue: seq<Change>, id: Id)
    decreases |queue|
  {
    queue == [] ||
    if queue[|queue| - 1].id == id then queue[|queue| - 1].operation.Removed? <==> id !in table
    else LastChangeFits(table, queue[..|queue| - 1], id)
  }

  predicate About(e: Option<AssignmentEvent>, id: Id) {
    e.Some? && e.value.id == id
  }

  /** What is known of a deployment with no queued change. */
  ghost predicate Settled(me: NodeId, s: State, id: Id) {
    var here := AssignedHere(me, s.table, id);
    match s.phase
    case NotSubscribed => true
    case Subscribed => true
    case Starting(todo) => here <==> id in s.provider.running || id in todo
    case Serving => if About(s.pending, id) then s.pending.value.Add? <==> here else id in s.provider.running <==> here
  }

  ghost predicate IdInv(me: NodeId, s: State, id: Id) {
    LastChangeFits(s.table, s.queue, id) && (!Mentions(s.queue, id) ==> Settled(me, s, id))
  }

  ghost predicate Inv(me: NodeId, s: State) {
    && (s.phase.NotSubscribed? ==> s.queue == [])
    && (s.phase.NotSubscribed? || s.phase.Subscribed? ==> s.provider.running == {})
    && (!s.phase.Serving? ==> s.pending.None?)
    && forall id :: IdInv(me, s, id)
  }

  lemma MentionsPush(queue: seq<Change>, c: Change, id: Id)
    ensures Mentions(queue + [c], id) <==> Mentions(queue, id) || c.id == id
  {
    assert (queue + [c])[|queue|] == c;
    if Mentions(queue, id) {
      var i :| 0 <= i < |queue| && queue[i].id == id;
      assert (queue + [c])[i].id == id;
    }
  }

  lemma MentionsTail(queue: seq<Change>, id: Id)
    requires queue != []
    ensures Mentions(queue, id) <==> queue[0].id == id || Mentions(queue[1..], id)
  {
    if Mentions(queue, id) {
      var i :| 0 <= i < |queue| && queue[i].id == id;
      assert i > 0 ==> queue[1..][i - 1].id == id;
    }
    if Mentions(queue[1..], id) {
      var i :| 0 <= i < |queue[1..]| && queue[1..][i].id == id;
      assert queue[i + 1].id == id;
    }
  }

  lemma {:induction false} LastChangeTail(table: map<Id, NodeId>, queue: seq<Change>, id: Id)
    requires queue != [] && LastChangeFits(table, queue, id)
    ensures LastChangeFits(table, queue[1..], id)
    ensures !Mentions(queue[1..], id) && queue[0].id == id ==> (queue[0].operation.Removed? <==> id !in table)
    decreases |queue|
  {
    if |queue| == 1 {
      assert queue[1..] == [];
    } else {
      var last, front := queue[|queue| - 1], queue[..|queue| - 1];
      assert queue[1..][|queue[1..]| - 1] == last;
      assert queue[1..][..|queue[1..]| - 1] == front[1..];
      if last.id != id {
        LastChangeTail(table, front, id);
        assert queue[1..] == front[1..] + [last];
        MentionsPush(front[1..], last, id);
      }
    }
  }

  lemma {:induction false} LastChangeOfOther(table: map<Id, NodeId>, table': map<Id, NodeId>, queue: seq<Change>, id: Id)
    requires LastChangeFits(table, queue, id) && (id in table <==> id in table')
    ensures LastChangeFits(table', queue, id)
    decreases |queue|
  {
    if queue != [] && queue[|queue| - 1].id != id {
      LastChangeOfOther(table, table', queue[..|queue| - 1], id);
    }
  }

  /** A change of the table keeps the invariant: the changed deployment gets a queued change that fits. */
  lemma TableChangeInv(me: NodeId, s: State, c: Change, table': map<Id, NodeId>, id: Id)
    requires Inv(me, s)
    requires id != c.id ==> (id in s.table <==> id in table') && (id in s.table ==> s.table[id] == table'[id])
    requires id == c.id ==> (c.operation.Removed? <==> id !in table')
    ensures IdInv(me, s.(table := table', queue := Announce(s, c)), id)
  {
    assert IdInv(me, s, id);
    if s.phase.NotSubscribed? {
      assert LastChangeFits(table', s.queue, id);
    } else {
      MentionsPush(s.queue, c, id);
      assert (s.queue + [c])[..|s.queue + [c]| - 1] == s.queue;
      if id != c.id {
        LastChangeOfOther(s.table, table', s.queue, id);
      }
    }
  }

  lemma ReadTableInv(me: NodeId, s: State, id: Id)
    requires Inv(me, s) && s.phase.Subscribed?
    ensures IdInv(me, Do(me, s, ReadTable), id)
  {
    assert IdInv(me, s, id);
  }

  lemma StartOneInv(me: NodeId, s: State, started: Id, resolves: bool, id: Id)
    requires Inv(me, s) && Enabled(s, StartOne(started, resolves))
    ensures IdInv(me, Do(me, s, StartOne(started, resolves)), id)
  {
    assert IdInv(me, s, id);
  }

  lemma BeginServingInv(me: NodeId, s: State, id: Id)
    requires Inv(me, s) && s.phase == Starting({})
    ensures IdInv(me, Do(me, s, BeginServing), id)
  {
    assert IdInv(me, s, id);
  }

  lemma PullInv(me: NodeId, s: State, id: Id)
    requires Inv(me, s) && Enabled(s, Pull)
    ensures IdInv(me, Do(me, s, Pull), id)
  {
    assert IdInv(me, s, id);
    LastChangeTail(s.table, s.queue, id);
    MentionsTail(s.queue, id);
  }

  lemma HandleInv(me: NodeId, s: State, resolves: bool, id: Id)
    requires Inv(me, s) && Enabled(s, HandlePending(resolves))
    ensures IdInv(me, Do(me, s, HandlePending(resolves)), id)
  {
    assert IdInv(me, s, id);
  }

  lemma DoInv(me: NodeId, s: State, a: Action)
    requires Inv(me, s) && Enabled(s, a)
    ensures Inv(me, Do(me, s, a))
  {
    var s' := Do(me, s, a);
    forall id ensures IdInv(me, s', id) {
      assert IdInv(me, s, id);
      match a
      case Assign(i, n) => TableChangeInv(me, s, Change(i, Set), s'.table, id);
      case Unassign(i) => TableChangeInv(me, s, Change(i, Removed), s'.table, id);
      case Subscribe =>
      case ReadTable => ReadTableInv(me, s, id);
      case StartOne(i, resolves) => StartOneInv(me, s, i, resolves, id);
      case BeginServing => BeginServingInv(me, s, id);
      case Pull => PullInv(me, s, id);
      case HandlePending(resolves) => HandleInv(me, s, resolves, id);
    }
  }

  lemma {:induction false} RunInv(me: NodeId, states: seq<State>, actions: seq<Action>, i: nat)
    requires Run(me, states, actions) && i < |states|
    ensures Inv(me, states[i])
  {
    if i == 0 {
      forall id ensures IdInv(me, states[0], id) {
      }
    } else {
      RunInv(me, states, actions, i - 1);
      DoInv(me, states[i - 1], actions[i - 1]);
    }
  }

  // ------------------------------------------------------------------ convergence

  ghost predicate Drained(s: State) {
    s.phase.Serving? && s.queue == [] && s.pending.None?
  }

  /** Whenever no change is queued or in handling, exactly the deployments assigned to this node run. */
  lemma DrainedRunsAssigned(me: NodeId, states: seq<State>, actions: seq<Action>, i: nat)
    requires Run(me, states, actions) && i < |states| && Drained(states[i])
    ensures states[i].provider.running == Assigned(me, states[i].table)
  {
    RunInv(me, states, actions, i);
    InvDrained(me, states[i]);
  }

  lemma InvDrained(me: NodeId, s: State)
    requires Inv(me, s) && Drained(s)
    ensures s.provider.running == Assigned(me, s.table)
  {
    forall id ensures id in s.provider.running <==> id in Assigned(me, s.table) {
      assert IdInv(me, s, id);
    }
  }

  /** Once the table stops changing, serving goes on until everything is handled, whichever manifests resolve. */
  ghost function Drain(me: NodeId, s: State, resolves: nat -> bool): State
    requires s.phase.Serving?
    decreases |s.queue|, if s.pending.Some? then 1 else 0
  {
    if s.pending.Some? then Drain(me, Do(me, s, HandlePending(resolves(|s.queue|))), resolves)
    else if s.queue != [] then Drain(me, Do(me, s, Pull), resolves)
    else s
  }

  /** From any reachable serving state, draining ends with exactly the assigned deployments running. */
  lemma {:induction false} DrainConverges(me: NodeId, s: State, resolves: nat -> bool)
    requires Inv(me, s) && s.phase.Serving?
    ensures Drained(Drain(me, s, resolves)) && Drain(me, s, resolves).table == s.table
    ensures Drain(me, s, resolves).provider.running == Assigned(me, s.table)
    decreases |s.queue|, if s.pending.Some? then 1 else 0
  {
    if s.pending.Some? {
      var handle := HandlePending(resolves(|s.queue|));
      DoInv(me, s, handle);
      DrainConverges(me, Do(me, s, handle), resolves);
    } else if s.queue != [] {
      DoInv(me, s, Pull);
      DrainConverges(me, Do(me, s, Pull), resolves);
    } else {
      InvDrained(me, s);
    }
  }

  // ------------------------------------------------------------------ alternation

  /** The calls about one deployment, in order. */
  function CallsOf(calls: seq<Call>, id: Id): seq<Call> {
    if calls == [] then []
    else CallsOf(calls[..|calls| - 1], id) + if calls[|calls| - 1].id == id then [calls[|calls| - 1]] else []
  }

  /** Start, stop, start, stop and so on. */
  ghost predicate Alternates(calls: seq<Call>) {
    forall i :: 0 <= i < |calls| ==> (calls[i].StartSubgraph? <==> i % 2 == 0)
  }

  lemma CallsOfPush(calls: seq<Call>, c: Call, id: Id)
    ensures CallsOf(calls + [c], id) == CallsOf(calls, id) + if c.id == id then [c] else []
  {
    assert (calls + [c])[..|calls + [c]| - 1] == calls;
  }

  lemma AlternatesPush(calls: seq<Call>, c: Call)
    requires Alternates(calls) && (c.StartSubgraph? <==> |calls| % 2 == 0)
    ensures Alternates(calls + [c])
    ensures |calls + [c]| % 2 == 1 <==> |calls| % 2 == 0
  {
    forall i | 0 <= i < |calls + [c]| ensures (calls + [c])[i].StartSubgraph? <==> i % 2 == 0 {
      assert (calls + [c])[i] == if i < |calls| then calls[i] else c;
    }
  }

  /** The step starts the deployment, which does not run. */
  predicate Starts(s: State, a: Action, id: Id) {
    id !in s.provider.running &&
    ((a.StartOne? && a.id == id) || (a.HandlePending? && s.pending == Some(Add(id))))
  }

  /** The step stops the deployment, which runs. */
  predicate Stops(s: State, a: Action, id: Id) {
    id in s.provider.running && a.HandlePending? && s.pending == Some(Remove(id))
  }

  /** The last start of the deployment failed to resolve, and it was not stopped since. */
  ghost predicate Hollow(states: seq<State>, actions: seq<Action>, i: nat, id: Id)
    requires |states| == |actions| + 1 && i < |states|
  {
    i > 0 &&
    var s, a := states[i - 1], actions[i - 1];
    if Starts(s, a, id) then !a.resolves else !Stops(s, a, id) && Hollow(states, actions, i - 1, id)
  }

  /** Step `i` stops a deployment that was not started. */
  ghost predicate StopsHollow(states: seq<State>, actions: seq<Action>, i: nat, id: Id)
    requires |states| == |actions| + 1 && i < |actions|
  {
    Stops(states[i], actions[i], id) && Hollow(states, actions, i, id)
  }

  ghost predicate NoneHollow(states: seq<State>, actions: seq<Action>, i: nat, id: Id)
    requires |states| == |actions| + 1 && i < |states|
  {
    forall j :: 0 <= j < i ==> !StopsHollow(states, actions, j, id)
  }

  /** What one step adds to the calls about the deployment. */
  function Added(s: State, a: Action, id: Id): seq<Call> {
    if Starts(s, a, id) && a.resolves then [StartSubgraph(id)]
    else if Stops(s, a, id) then [StopSubgraph(id)]
    else []
  }

  lemma StartCalls(p: Provider, started: Id, resolves: bool, id: Id)
    ensures CallsOf(AfterStart(p, started, resolves).calls, id)
         == CallsOf(p.calls, id) + if started == id && id !in p.running && resolves then [StartSubgraph(id)] else []
  {
    CallsOfPush(p.calls, StartSubgraph(started), id);
    assert CallsOf(p.calls, id) + [] == CallsOf(p.calls, id);
  }

  lemma StopCalls(p: Provider, stopped: Id, id: Id)
    ensures CallsOf(AfterStop(p, stopped).calls, id)
         == CallsOf(p.calls, id) + if stopped == id && id in p.running then [StopSubgraph(id)] else []
  {
    CallsOfPush(p.calls, StopSubgraph(stopped), id);
    assert CallsOf(p.calls, id) + [] == CallsOf(p.calls, id);
  }

  lemma StepCalls(me: NodeId, s: State, a: Action, id: Id)
    requires Enabled(s, a)
    ensures CallsOf(Do(me, s, a).provider.calls, id) == CallsOf(s.provider.calls, id) + Added(s, a, id)
    ensures id in Do(me, s, a).provider.running <==> Starts(s, a, id) || (id in s.provider.running && !Stops(s, a, id))
  {
    var p := s.provider;
    if a.StartOne? {
      StartCalls(p, a.id, a.resolves, id);
    } else if a.HandlePending? && s.pending.value.Add? {
      StartCalls(p, s.pending.value.id, a.resolves, id);
    } else if a.HandlePending? {
      StopCalls(p, s.pending.value.id, id);
    } else {
      assert CallsOf(p.calls, id) + [] == CallsOf(p.calls, id);
    }
  }

  lemma BrokenStays(calls: seq<Call>, more: seq<Call>)
    requires !Alternates(calls)
    ensures !Alternates(calls + more)
  {
    var i :| 0 <= i < |calls| && !(calls[i].StartSubgraph? <==> i % 2 == 0);
    assert (calls + more)[i] == calls[i];
  }

  lemma BrokenByStop(calls: seq<Call>, id: Id)
    requires |calls| % 2 == 0
    ensures !Alternates(calls + [StopSubgraph(id)])
  {
    assert (calls + [StopSubgraph(id)])[|calls|] == StopSubgraph(id);
  }

  /**
   In every state of every run, whichever starts resolve, the calls about a deployment alternate between
   start and stop iff it was never stopped after a start that failed to resolve: such a start leaves it in
   the running set although nothing was started.
   */
  lemma {:induction false} CallsAlternateIff(me: NodeId, states: seq<State>, actions: seq<Action>, i: nat, id: Id)
    requires Run(me, states, actions) && i < |states|
    ensures var calls := CallsOf(states[i].provider.calls, id);
            && (Alternates(calls) <==> NoneHollow(states, actions, i, id))
            && (Alternates(calls) ==>
                  (|calls| % 2 == 1 <==> id in states[i].provider.running && !Hollow(states, actions, i, id)))
    ensures Hollow(states, actions, i, id) ==> id in states[i].provider.running
  {
    if i == 0 {
    } else {
      CallsAlternateIff(me, states, actions, i - 1, id);
      var s, a := states[i - 1], actions[i - 1];
      StepCalls(me, s, a, id);
      var calls := CallsOf(s.provider.calls, id);
      assert NoneHollow(states, actions, i, id) <==>
             NoneHollow(states, actions, i - 1, id) && !StopsHollow(states, actions, i - 1, id);
      if !Alternates(calls) {
        BrokenStays(calls, Added(s, a, id));
      } else if StopsHollow(states, actions, i - 1, id) {
        BrokenByStop(calls, id);
      } else if Added(s, a, id) != [] {
        AlternatesPush(calls, Added(s, a, id)[0]);
      } else {
        assert calls + [] == calls;
      }
    }
  }

  lemma {:induction false} ResolvedAreNotHollow(states: seq<State>, actions: seq<Action>, i: nat, id: Id)
    requires |states| == |actions| + 1 && i < |states|
    requires forall j :: 0 <= j < i && Starts(states[j], actions[j], id) ==> actions[j].resolves
    ensures !Hollow(states, actions, i, id) && NoneHollow(states, actions, i, id)
  {
    if i == 0 {
    } else {
      ResolvedAreNotHollow(states, actions, i - 1, id);
    }
  }

  /** In particular they alternate in every run in which every start of the deployment resolves. */
  lemma ResolvingCallsAlternate(me: NodeId, states: seq<State>, actions: seq<Action>, i: nat, id: Id)
    requires Run(me, states, actions) && i < |states|
    requires forall j :: 0 <= j < i && Starts(states[j], actions[j], id) ==> actions[j].resolves
    ensures Alternates(CallsOf(states[i].provider.calls, id))
  {
    CallsAlternateIff(me, states, actions, i, id);
    ResolvedAreNotHollow(states, actions, i, id);
  }

  lemma RunPush(me: NodeId, states: seq<State>, actions: seq<Action>, a: Action)
    requires Run(me, states, actions) && Enabled(states[|states| - 1], a)
    ensures Run(me, states + [Do(me, states[|states| - 1], a)], actions + [a])
  {
    var states', actions' := states + [Do(me, states[|states| - 1], a)], actions + [a];
    forall i | 0 <= i < |actions'|
      ensures Enabled(states'[i], actions'[i]) && states'[i + 1] == Do(me, states'[i], actions'[i])
    {
      if i < |actions| {
        assert states'[i] == states[i] && states'[i + 1] == states[i + 1] && actions'[i] == actions[i];
      }
    }
  }

  /** Some run ends in this state. */
  ghost predicate Reachable(me: NodeId, s: State) {
    exists states, actions :: Run(me, states, actions) && states[|states| - 1] == s
  }

  lemma ReachableNext(me: NodeId, s: State, a: Action)
    requires Reachable(me, s) && Enabled(s, a)
    ensures Reachable(me, Do(me, s, a))
  {
    var states, actions :| Run(me, states, actions) && states[|states| - 1] == s;
    RunPush(me, states, actions, a);
    var states' := states + [Do(me, s, a)];
    assert states'[|states'| - 1] == Do(me, s, a);
  }

  /** A deployment whose manifest does not resolve stays in the running set although nothing was started. */
  lemma RunsWithoutStart(me: NodeId, id: Id)
    ensures Reachable(me, State(map[id := me], Serving, [], None, Provider({id}, [])))
  {
    var s := State(map[], NotSubscribed, [], None, Provider({}, []));
    assert Run(me, [s], []);
    ReachableNext(me, s, Assign(id, me));
    s := s.(table := map[id := me]);
    ReachableNext(me, s, Subscribe);
    s := s.(phase := Subscribed);
    ReachableNext(me, s, ReadTable);
    s := s.(phase := Starting({id}));
    assert Assigned(me, s.table) == {id};
    ReachableNext(me, s, StartOne(id, false));
    s := s.(phase := Starting({}), provider := Provider({id}, []));
    assert {id} - {id} == {} && {} + {id} == {id};
    ReachableNext(me, s, BeginServing);
  }

  /** When it is unassigned, it is stopped. */
  lemma StoppedWithoutStart(me: NodeId, id: Id) returns (s: State)
    ensures Reachable(me, s) && CallsOf(s.provider.calls, id) == [StopSubgraph(id)]
  {
    RunsWithoutStart(me, id);
    s := State(map[id := me], Serving, [], None, Provider({id}, []));
    ReachableNext(me, s, Unassign(id));
    s := Do(me, s, Unassign(id));
    assert s.queue == [Change(id, Removed)];
    ReachableNext(me, s, Pull);
    s := Do(me, s, Pull);
    ReachableNext(me, s, HandlePending(true));
    s := Do(me, s, HandlePending(true));
    CallsOfPush([], StopSubgraph(id), id);
    assert [] + [StopSubgraph(id)] == [StopSubgraph(id)];
  }
}
