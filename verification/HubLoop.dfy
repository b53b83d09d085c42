/**
 The objects of internal/hub/hub.go: the two consumer sets, and one method per case
 of the select in run. Each method takes steps of the protocol in Hub, so whatever is
 proved there of runs holds of any sequence of calls.
 */
module HubLoop {
  import opened Models
  import opened Channels
  import opened Hub

  class Client {
    const send: Chan<Message>
    var filter: Option<MessageFilter>

    constructor (capacity: nat)
      ensures fresh(send) && send.capacity == capacity && send.buffer == [] && !send.closed && filter == None
    {
      send := new Chan(capacity);
      filter := None;
    }

    /** A set_filter message. */
    method SetFilter(f: MessageFilter)
      modifies this
      ensures filter == Chosen(f)
      ensures filter.None? <==> f.moduleName == "" && f.severity == "" && f.tenantId == ""
      ensures filter.Some? ==> filter.value == f
    {
      filter := if f.moduleName == "" && f.severity == "" && f.tenantId == "" then None else Some(f);
    }

    method AllowsMessage(m: Message) returns (allowed: bool)
      ensures allowed == Allows(filter, m)
      ensures allowed <==> filter.Some? && m.parses && m.kind == "event" ==>
        && (filter.value.moduleName != "" ==> m.moduleName == filter.value.moduleName)
        && (filter.value.severity != "" ==> m.severity == filter.value.severity)
        && (filter.value.tenantId != "" ==> m.tenantId == filter.value.tenantId)
    {
      if filter.None? || !m.parses || m.kind != "event" {
        return true;
      }
      var f := filter.value;
      if f.moduleName != "" && m.moduleName != f.moduleName {
        return false;
      }
      if f.severity != "" && m.severity != f.severity {
        return false;
      }
      return f.tenantId == "" || m.tenantId == f.tenantId;
    }
  }

  class Subscription {
    const ch: Chan<Message>

    constructor (capacity: nat)
      ensures fresh(ch) && ch.capacity == capacity && ch.buffer == [] && !ch.closed
    {
      ch := new Chan(capacity);
    }
  }

  /** The step is enabled in s and leads to t. */
  ghost predicate Moves(s: State, a: Action, t: State) {
    Enabled(s, a) && t == Step(s, a)
  }

  /** These steps lead from s to t. */
  ghost predicate Leads(s: State, actions: seq<Action>, t: State) {
    Runs(s, actions) && t == After(s, actions)
  }

  lemma {:induction false} LeadsOn(s: State, actions: seq<Action>, t: State, a: Action, u: State)
    requires Leads(s, actions, t) && Moves(t, a, u)
    ensures Leads(s, actions + [a], u)
    decreases |actions|
  {
    hide Enabled, Step;
    if actions == [] {
      var none: seq<Action> := [];
      assert Runs(u, none) && After(u, none) == u;
      assert [a][1..] == none && actions + [a] == [a];
    } else {
      LeadsOn(Step(s, actions[0]), actions[1..], t, a, u);
      assert (actions + [a])[1..] == actions[1..] + [a];
    }
  }

  lemma {:induction false} LeadsFurther(s: State, actions: seq<Action>, t: State, more: seq<Action>, u: State)
    requires Leads(s, actions, t) && Leads(t, more, u)
    ensures Leads(s, actions + more, u)
    decreases |actions|
  {
    hide Enabled, Step;
    if actions == [] {
      assert actions + more == more;
    } else {
      LeadsFurther(Step(s, actions[0]), actions[1..], t, more, u);
      assert (actions + more)[1..] == actions[1..] + more;
    }
  }

  lemma ReachableOn(s: State, a: Action, t: State, bufferSize: nat)
    requires Reachable(s, bufferSize) && Moves(s, a, t)
    ensures Reachable(t, bufferSize)
  {
    hide Moves;
    var actions :| Runs(Init(bufferSize), actions) && After(Init(bufferSize), actions) == s;
    LeadsOn(Init(bufferSize), actions, s, a, t);
    assert Leads(Init(bufferSize), actions + [a], t);
  }

  lemma StartReachable(bufferSize: nat)
    ensures Reachable(Init(bufferSize), bufferSize)
  {
    var none: seq<Action> := [];
    assert Runs(Init(bufferSize), none) && After(Init(bufferSize), none) == Init(bufferSize);
  }

  lemma {:induction false} SizeKept(s: State, actions: seq<Action>)
    requires Runs(s, actions)
    ensures After(s, actions).bufferSize == s.bufferSize
    decreases |actions|
  {
    if actions != [] {
      SizeKept(Step(s, actions[0]), actions[1..]);
    }
  }

  /** What the loop relies on in a reachable state. */
  lemma Facts(s: State, bufferSize: nat)
    requires Reachable(s, bufferSize)
    ensures s.bufferSize == bufferSize && s.taken <= |s.accepted| && !s.panicked
    ensures s.left <= s.registered <= s.consumers.Keys
    ensures forall id <- s.consumers :: id in s.registered <==> !s.consumers[id].closed
  {
    ReachableInv(s, bufferSize);
    var actions :| Runs(Init(bufferSize), actions) && After(Init(bufferSize), actions) == s;
    SizeKept(Init(bufferSize), actions);
    forall id <- s.consumers
      ensures id in s.registered <==> !s.consumers[id].closed
    {
      assert ConsumerInv(s, id);
    }
  }

  /** What a set_filter message asks for: one with no field set clears the filter. */
  function Chosen(f: MessageFilter): Option<MessageFilter> {
    if f == MessageFilter("", "", "") then None else Some(f)
  }

  /** What others may do while a message is handed round: read a channel, set a filter, broadcast. */
  datatype Act = Read(ch: Chan<Message>) | Choose(c: Client, f: MessageFilter) | Say(m: Message)

  predicate IsOthers(a: Action) {
    a.Receive? || a.SetFilter? || a.Broadcast?
  }

  /** The steps of one round: a message is taken, and then offered, with steps of others in between. */
  ghost predicate IsRound(actions: seq<Action>) {
    && actions != [] && actions[0] == Action.Take
    && (forall k :: 1 <= k < |actions| ==> actions[k].Offer? || IsOthers(actions[k]))
  }

  /** Nothing of the round itself has changed. */
  ghost predicate SameRound(s: State, t: State) {
    && s.accepted <= t.accepted && t.taken == s.taken && t.left == s.left && t.registered == s.registered
    && t.consumers.Keys == s.consumers.Keys
  }

  lemma OthersStep(s: State, a: Action, t: State)
    requires IsOthers(a) && Moves(s, a, t)
    ensures SameRound(s, t)
  {
  }

  /**
   Which object each consumer of the protocol is, and whose each channel is: every
   consumer that was ever registered, by number.
   */
  datatype Names = Names(
    clientAt: map<nat, Client>, subAt: map<nat, Subscription>, idOf: map<Chan<Message>, nat>, next: nat) {

    /** This hub's: registered now or before. */
    ghost predicate IsClient(c: Client) {
      c.send in idOf && idOf[c.send] in clientAt && clientAt[idOf[c.send]] == c
    }

    ghost predicate IsSub(u: Subscription) {
      u.ch in idOf && idOf[u.ch] in subAt && subAt[idOf[u.ch]] == u
    }

    ghost function WithClient(c: Client): Names {
      Names(clientAt[next := c], subAt, idOf[c.send := next], next + 1)
    }

    ghost function WithSub(u: Subscription): Names {
      Names(clientAt, subAt[next := u], idOf[u.ch := next], next + 1)
    }

    /** The consumer's channel. */
    ghost predicate Owns(id: nat, ch: Chan<Message>) {
      (id in clientAt && clientAt[id].send == ch) || (id in subAt && subAt[id].ch == ch)
    }

    ghost predicate Covers(ids: set<nat>) {
      && (forall id <- ids :: id < next)
      && clientAt.Keys + subAt.Keys == ids && clientAt.Keys !! subAt.Keys
      && (forall id <- clientAt :: clientAt[id].send in idOf && idOf[clientAt[id].send] == id)
      && (forall id <- subAt :: subAt[id].ch in idOf && idOf[subAt[id].ch] == id)
      && (forall ch <- idOf :: idOf[ch] in ids && Owns(idOf[ch], ch))
    }

    /** The two sets hold those that are registered now. */
    ghost predicate Members(clients: set<Client>, subs: set<Subscription>, registered: set<nat>) {
      && (forall c <- clients :: IsClient(c) && idOf[c.send] in registered)
      && (forall u <- subs :: IsSub(u) && idOf[u.ch] in registered)
      && (forall id <- registered ::
            if id in clientAt then clientAt[id] in clients else id in subAt && subAt[id] in subs)
    }

    /** The objects show what the protocol says of their consumers. */
    ghost predicate Mirrored(consumers: map<nat, Consumer>)
      reads idOf.Keys, clientAt.Values
    {
      Queues(consumers) && Filters(consumers)
    }

    ghost predicate Queues(consumers: map<nat, Consumer>)
      reads idOf.Keys
    {
      forall ch <- idOf :: idOf[ch] in consumers && Holds(ch, consumers[idOf[ch]])
    }

    ghost predicate Filters(consumers: map<nat, Consumer>)
      reads clientAt.Values
    {
      && (forall id <- consumers :: consumers[id].isClient <==> id in clientAt)
      && (forall id <- consumers :: consumers[id].filter == if id in clientAt then clientAt[id].filter else None)
    }

    /** No two consumers share a channel. */
    ghost predicate Unshared() {
      forall a, b :: a in idOf && b in idOf && idOf[a] == idOf[b] ==> a == b
    }
  }

  ghost predicate Holds(ch: Chan<Message>, c: Consumer)
    reads ch
  {
    ch.buffer == c.queue && ch.capacity == c.capacity && ch.closed == c.closed
  }

  lemma CoversClient(n: Names, ids: set<nat>, c: Client)
    requires n.Covers(ids) && c.send !in n.idOf
    ensures n.next !in ids && n.WithClient(c).Covers(ids + {n.next}) && n.WithClient(c).IsClient(c)
  {
  }

  lemma CoversSub(n: Names, ids: set<nat>, u: Subscription)
    requires n.Covers(ids) && u.ch !in n.idOf
    ensures n.next !in ids && n.WithSub(u).Covers(ids + {n.next}) && n.WithSub(u).IsSub(u)
  {
  }

  lemma MembersClient(
    n: Names, ids: set<nat>, clients: set<Client>, subs: set<Subscription>, registered: set<nat>, c: Client)
    requires n.Covers(ids) && c.send !in n.idOf && n.Members(clients, subs, registered)
    ensures n.WithClient(c).Members(clients + {c}, subs, registered + {n.next})
  {
  }

  lemma MembersSub(
    n: Names, ids: set<nat>, clients: set<Client>, subs: set<Subscription>, registered: set<nat>, u: Subscription)
    requires n.Covers(ids) && u.ch !in n.idOf && n.Members(clients, subs, registered)
    ensures n.WithSub(u).Members(clients, subs + {u}, registered + {n.next})
  {
  }

  lemma MembersLeave(n: Names, ids: set<nat>, clients: set<Client>, subs: set<Subscription>, registered: set<nat>)
    requires n.Covers(ids) && n.Members(clients, subs, registered)
    ensures forall c :: n.IsClient(c) ==> n.Members(clients - {c}, subs, registered - {n.idOf[c.send]})
    ensures forall u :: n.IsSub(u) ==> n.Members(clients, subs - {u}, registered - {n.idOf[u.ch]})
    ensures forall c :: n.IsClient(c) ==> (c in clients <==> n.idOf[c.send] in registered)
    ensures forall u :: n.IsSub(u) ==> (u in subs <==> n.idOf[u.ch] in registered)
  {
  }

  lemma MirroredClient(n: Names, consumers: map<nat, Consumer>, c: Client, x: Consumer)
    requires n.Covers(consumers.Keys) && n.Mirrored(consumers) && c.send !in n.idOf
    requires Holds(c.send, x) && x.isClient && x.filter == c.filter
    ensures n.WithClient(c).Mirrored(consumers[n.next := x])
  {
  }

  lemma MirroredSub(n: Names, consumers: map<nat, Consumer>, u: Subscription, x: Consumer)
    requires n.Covers(consumers.Keys) && n.Mirrored(consumers) && u.ch !in n.idOf
    requires Holds(u.ch, x) && !x.isClient && x.filter == None
    ensures n.WithSub(u).Mirrored(consumers[n.next := x])
  {
    assert n.WithSub(u).Filters(consumers[n.next := x]);
    hide Names.Filters;
  }

  /** Only what the channel holds has changed: the queue, and the history that goes with it. */
  ghost predicate SameBut(c: Consumer, x: Consumer, queue: seq<Message>) {
    x == c.(queue := queue, verdicts := x.verdicts, filters := x.filters, received := x.received)
  }

  /** A send that does not block, on one channel; every other one keeps its content. */
  method TrySendTo(
    ch: Chan<Message>, m: Message, ghost n: Names, ghost consumers: map<nat, Consumer>, ghost x: Consumer)
    requires n.Unshared() && n.Mirrored(consumers) && ch in n.idOf && !ch.closed
    requires SameBut(consumers[n.idOf[ch]], x, if |ch.buffer| < ch.capacity then ch.buffer + [m] else ch.buffer)
    modifies ch
    ensures n.Mirrored(consumers[n.idOf[ch] := x])
  {
    hide Names.Filters;
    SameFilters(n, consumers, n.idOf[ch], x);
    var sent := ch.TrySend(m);
  }

  lemma SameFilters(n: Names, consumers: map<nat, Consumer>, id: nat, x: Consumer)
    requires n.Filters(consumers) && id in consumers
    requires x.isClient == consumers[id].isClient && x.filter == consumers[id].filter
    ensures n.Filters(consumers[id := x])
  {
  }

  lemma Unsent(ch: Chan<Message>, n: Names, consumers: map<nat, Consumer>, x: Consumer)
    requires n.Unshared() && n.Mirrored(consumers) && ch in n.idOf
    requires SameBut(consumers[n.idOf[ch]], x, ch.buffer)
    ensures n.Mirrored(consumers[n.idOf[ch] := x])
  {
    hide Names.Filters;
    SameFilters(n, consumers, n.idOf[ch], x);
  }

  method ReceiveFrom(ch: Chan<Message>, ghost n: Names, ghost consumers: map<nat, Consumer>, ghost x: Consumer)
    returns (m: Message)
    requires n.Unshared() && n.Mirrored(consumers) && ch in n.idOf && ch.buffer != []
    requires SameBut(consumers[n.idOf[ch]], x, ch.buffer[1..])
    modifies ch
    ensures n.Mirrored(consumers[n.idOf[ch] := x]) && m == old(ch.buffer)[0]
  {
    hide Names.Filters;
    SameFilters(n, consumers, n.idOf[ch], x);
    m := ch.Receive();
  }

  method CloseOne(ch: Chan<Message>, ghost n: Names, ghost consumers: map<nat, Consumer>)
    requires n.Unshared() && n.Mirrored(consumers) && ch in n.idOf && !ch.closed
    modifies ch
    ensures n.Mirrored(consumers[n.idOf[ch] := consumers[n.idOf[ch]].(closed := true)])
  {
    hide Names.Filters;
    SameFilters(n, consumers, n.idOf[ch], consumers[n.idOf[ch]].(closed := true));
    ch.Close();
  }

  method FilterOne(c: Client, f: MessageFilter, ghost n: Names, ghost consumers: map<nat, Consumer>)
    requires n.Covers(consumers.Keys) && n.Mirrored(consumers) && n.IsClient(c)
    modifies c
    ensures n.Mirrored(consumers[n.idOf[c.send] := consumers[n.idOf[c.send]].(filter := Chosen(f))])
  {
    SameQueues(n, consumers, n.idOf[c.send], consumers[n.idOf[c.send]].(filter := Chosen(f)));
    hide Names.Queues, Chosen;
    c.SetFilter(f);
  }

  lemma SameQueues(n: Names, consumers: map<nat, Consumer>, id: nat, x: Consumer)
    requires n.Queues(consumers) && id in consumers
      && SameBut(consumers[id].(filter := x.filter), x, consumers[id].queue)
    ensures n.Queues(consumers[id := x])
  {
  }

  lemma OneChannel(n: Names, ids: set<nat>)
    requires n.Covers(ids)
    ensures n.Unshared()
  {
  }

  /** What a channel and a client show. */
  lemma Shown(n: Names, consumers: map<nat, Consumer>)
    requires n.Covers(consumers.Keys) && n.Mirrored(consumers)
    ensures n.Unshared() && forall ch <- n.idOf :: n.idOf[ch] in consumers && Holds(ch, consumers[n.idOf[ch]])
    ensures forall c :: n.IsClient(c) ==>
      && n.idOf[c.send] in consumers
      && consumers[n.idOf[c.send]].isClient && consumers[n.idOf[c.send]].filter == c.filter
    ensures forall u :: n.IsSub(u) ==>
      && n.idOf[u.ch] in consumers
      && !consumers[n.idOf[u.ch]].isClient && consumers[n.idOf[u.ch]].filter == None
  {
    OneChannel(n, consumers.Keys);
  }

  /** A consumer as it is entered. */
  function Entered(s: State, isClient: bool, capacity: nat): Consumer {
    Consumer(isClient, capacity, None, [], false, s.taken, [], [], [])
  }

  lemma RegisterStep(s: State, id: nat, isClient: bool, capacity: nat)
    requires s.left == {} && id !in s.consumers
    ensures Enabled(s, Register(id, isClient, capacity))
    ensures var t := Step(s, Register(id, isClient, capacity));
      && t == s.(consumers := s.consumers[id := Entered(s, isClient, capacity)], registered := s.registered + {id})
      && t.consumers.Keys == s.consumers.Keys + {id}
  {
  }

  /** Entering a client. */
  lemma EnterClient(s: State, n: Names, clients: set<Client>, subs: set<Subscription>, c: Client, capacity: nat)
    requires s.left == {} && n.Covers(s.consumers.Keys) && n.Members(clients, subs, s.registered)
    requires n.Mirrored(s.consumers) && c.send !in n.idOf
    requires Holds(c.send, Entered(s, true, capacity)) && c.filter == None
    ensures Enabled(s, Register(n.next, true, capacity))
    ensures var t, m := Step(s, Register(n.next, true, capacity)), n.WithClient(c);
      && m.Covers(t.consumers.Keys) && m.Members(clients + {c}, subs, t.registered) && m.Mirrored(t.consumers)
      && m.idOf.Keys == n.idOf.Keys + {c.send}
      && t.accepted == s.accepted && t.taken == s.taken
  {
    hide Names.Covers, Names.Members, Names.Mirrored, Names.IsClient, Step, Enabled, Holds;
    CoversClient(n, s.consumers.Keys, c);
    MembersClient(n, s.consumers.Keys, clients, subs, s.registered, c);
    RegisterStep(s, n.next, true, capacity);
    MirroredClient(n, s.consumers, c, Entered(s, true, capacity));
  }

  lemma EnterSub(s: State, n: Names, clients: set<Client>, subs: set<Subscription>, u: Subscription, capacity: nat)
    requires s.left == {} && n.Covers(s.consumers.Keys) && n.Members(clients, subs, s.registered)
    requires n.Mirrored(s.consumers) && u.ch !in n.idOf && Holds(u.ch, Entered(s, false, capacity))
    ensures Enabled(s, Register(n.next, false, capacity))
    ensures var t, m := Step(s, Register(n.next, false, capacity)), n.WithSub(u);
      && m.Covers(t.consumers.Keys) && m.Members(clients, subs + {u}, t.registered) && m.Mirrored(t.consumers)
      && m.idOf.Keys == n.idOf.Keys + {u.ch}
      && t.accepted == s.accepted && t.taken == s.taken
  {
    hide Names.Covers, Names.Members, Names.Mirrored, Names.IsSub, Step, Enabled, Holds;
    CoversSub(n, s.consumers.Keys, u);
    MembersSub(n, s.consumers.Keys, clients, subs, s.registered, u);
    RegisterStep(s, n.next, false, capacity);
    MirroredSub(n, s.consumers, u, Entered(s, false, capacity));
  }

  /** Removing a consumer from its set. */
  lemma UnregisterStep(s: State, id: nat)
    requires Enabled(s, Unregister(id)) && !s.panicked
    requires id in s.registered <==> !s.consumers[id].closed
    ensures Step(s, Unregister(id)) == if id in s.registered
      then s.(consumers := s.consumers[id := s.consumers[id].(closed := true)], registered := s.registered - {id})
      else s
  {
  }

  lemma OfferStep(s: State, id: nat, m: Message)
    requires Enabled(s, Offer(id)) && !s.panicked && !s.consumers[id].closed && Handing(s, m)
    ensures Step(s, Offer(id))
      == s.(consumers := s.consumers[id := Offered(s.consumers[id], m)], left := s.left - {id})
    ensures var c := s.consumers[id];
      SameBut(c, Offered(c, m), if Allows(c.filter, m) && |c.queue| < c.capacity then c.queue + [m] else c.queue)
  {
    hide Allows;
  }

  /** The message being handed round. */
  ghost predicate Handing(s: State, m: Message) {
    0 < s.taken <= |s.accepted| && s.accepted[s.taken - 1] == m
  }

  lemma {:induction false} RestOfRound(s: State, actions: seq<Action>, t: State, id: nat)
    requires Leads(s, actions, t) && (forall a <- actions :: a.Offer? || IsOthers(a))
    ensures t.taken == s.taken && t.registered == s.registered
    ensures id in s.consumers ==> id in t.consumers && t.consumers[id].joined == s.consumers[id].joined
    decreases |actions|
  {
    if actions != [] {
      var u := Step(s, actions[0]);
      assert actions[0] in actions;
      hide Runs, Enabled, Step;
      assert Leads(u, actions[1..], t) by { LeadsTail(s, actions, t); }
      StepInRound(s, actions[0], u, id);
      RestOfRound(u, actions[1..], t, id);
    }
  }

  lemma LeadsTail(s: State, actions: seq<Action>, t: State)
    requires Leads(s, actions, t) && actions != []
    ensures Moves(s, actions[0], Step(s, actions[0])) && Leads(Step(s, actions[0]), actions[1..], t)
  {
    hide Enabled, Step;
  }

  lemma StepInRound(s: State, a: Action, t: State, id: nat)
    requires Moves(s, a, t) && (a.Offer? || IsOthers(a))
    ensures t.taken == s.taken && t.registered == s.registered
    ensures id in s.consumers ==> id in t.consumers && t.consumers[id].joined == s.consumers[id].joined
  {
    hide Allows;
  }

  /** A round that is over has judged its one message exactly once for each registered consumer. */
  lemma RoundIsComplete(s: State, bufferSize: nat, actions: seq<Action>, t: State, id: nat)
    requires Reachable(s, bufferSize) && IsRound(actions) && Leads(s, actions, t)
    requires s.left == t.left == {} && id in s.registered
    ensures id in s.consumers && id in t.consumers
    ensures |t.consumers[id].verdicts| == |s.consumers[id].verdicts| + 1
  {
    var u := Step(s, actions[0]);
    LeadsTail(s, actions, t);
    RestOfRound(u, actions[1..], t, id);
    ReachableInv(s, bufferSize);
    RunKeepsInv(s, actions);
    assert ConsumerInv(s, id) && ConsumerInv(t, id);
  }

  /** The ones still to be offered the message, after one more offer. */
  lemma OfferedOne(n: Names, ids: set<nat>, clients: set<Client>, subs: set<Subscription>, s: State, id: nat, t: State)
    requires n.Covers(ids) && n.Members(clients, subs, s.left) && Moves(s, Offer(id), t)
    ensures forall c :: n.IsClient(c) && n.idOf[c.send] == id ==> n.Members(clients - {c}, subs, t.left)
    ensures forall u :: n.IsSub(u) && n.idOf[u.ch] == id ==> n.Members(clients, subs - {u}, t.left)
    ensures t.taken == s.taken && t.accepted == s.accepted
  {
    MembersLeave(n, ids, clients, subs, s.left);
    hide Names.Members, Names.Covers;
  }

  /** Clients first, and then the subscriptions. */
  lemma OfferEnabled(n: Names, clients: set<Client>, subs: set<Subscription>, s: State, m: Message)
    requires n.Covers(s.consumers.Keys) && n.Mirrored(s.consumers) && n.Members(clients, subs, s.left)
    requires Handing(s, m)
    ensures forall c <- clients :: n.IsClient(c) && Enabled(s, Offer(n.idOf[c.send]))
    ensures clients == {} ==> forall u <- subs :: n.IsSub(u) && Enabled(s, Offer(n.idOf[u.ch]))
  {
    hide Names.Queues;
  }

  lemma TakenOne(s: State, n: Names, clients: set<Client>, subs: set<Subscription>, t: State)
    requires Moves(s, Action.Take, t) && n.Members(clients, subs, t.registered)
    ensures n.Members(clients, subs, t.left) && Leads(s, [Action.Take], t)
  {
    hide Names.Members;
    var none: seq<Action> := [];
    assert Runs(t, none) && After(t, none) == t;
    assert [Action.Take][1..] == none;
  }

  lemma NobodyLeft(n: Names, left: set<nat>)
    requires n.Members({}, {}, left)
    ensures left == {}
  {
  }

  class Broadcaster {
    const bufferSize: nat
    const broadcast: Chan<Message>
    var clients: set<Client>
    var subs: set<Subscription>
    /** The state of the protocol, and what its consumers are here. */
    ghost var state: State
    ghost var names: Names

    ghost predicate Valid()
      reads this, broadcast, names.idOf.Keys, names.clientAt.Values
    {
      && Reachable(state, bufferSize)
      && names.Covers(state.consumers.Keys) && broadcast !in names.idOf
      && names.Members(clients, subs, state.registered)
      && Queued(state.accepted, state.taken)
      && names.Mirrored(state.consumers)
    }

    /** The broadcast channel holds what has not been taken yet. */
    ghost predicate Queued(accepted: seq<Message>, taken: nat)
      reads broadcast
    {
      && !broadcast.closed && broadcast.capacity == bufferSize
      && taken <= |accepted| && broadcast.buffer == accepted[taken..]
    }

    ghost predicate Known(a: Act)
      reads this`names
    {
      match a
      case Read(ch) => ch in names.idOf
      case Choose(c, _) => names.IsClient(c)
      case Say(_) => true
    }

    constructor (bufferSize: int)
      ensures Valid() && fresh(broadcast) && names == Names(map[], map[], map[], 0)
      ensures this.bufferSize == if bufferSize <= 0 then 256 else bufferSize
      ensures state == Init(this.bufferSize)
    {
      var n := if bufferSize <= 0 then 256 else bufferSize;
      this.bufferSize := n;
      broadcast := new Chan(n);
      clients, subs := {}, {};
      state, names := Init(n), Names(map[], map[], map[], 0);
      StartReachable(n);
    }

    /** Broadcast never blocks: a full channel drops the message. */
    method Broadcast(m: Message)
      requires Valid()
      modifies this`state, broadcast
      ensures Valid() && Moves(old(state), Action.Broadcast(m), state)
    {
      hide Reachable, Names.Covers, Names.Members, Names.Mirrored, Names.Unshared;
      Facts(state, bufferSize);
      ghost var s := state;
      var sent := broadcast.TrySend(m);
      state := Step(s, Action.Broadcast(m));
      ReachableOn(s, Action.Broadcast(m), state, bufferSize);
      assert sent ==> state.accepted[state.taken..] == s.accepted[s.taken..] + [m];
    }

    /** A new client is entered between rounds. */
    method Connect() returns (c: Client)
      requires Valid() && state.left == {}
      modifies this`clients, this`state, this`names
      ensures Valid() && fresh(c) && fresh(c.send) && names == old(names).WithClient(c)
      ensures clients == old(clients) + {c}
      ensures Moves(old(state), Register(old(names).next, true, bufferSize), state)
    {
      hide Reachable, Names.Covers, Names.Members, Names.Mirrored, Names.WithClient, Step, Enabled, Queued;
      c := new Client(bufferSize);
      ghost var s, n := state, names;
      EnterClient(s, n, clients, subs, c, bufferSize);
      state := Step(s, Register(n.next, true, bufferSize));
      ReachableOn(s, Register(n.next, true, bufferSize), state, bufferSize);
      clients := clients + {c};
      names := n.WithClient(c);
    }

    method Subscribe(bufSize: int) returns (sub: Subscription)
      requires Valid() && state.left == {}
      modifies this`subs, this`state, this`names
      ensures Valid() && fresh(sub) && fresh(sub.ch) && names == old(names).WithSub(sub)
      ensures subs == old(subs) + {sub}
      ensures Moves(old(state), Register(old(names).next, false, if bufSize <= 0 then bufferSize else bufSize), state)
    {
      hide Reachable, Names.Covers, Names.Members, Names.Mirrored, Names.WithSub, Step, Enabled, Queued;
      var capacity: nat := if bufSize <= 0 then bufferSize else bufSize;
      sub := new Subscription(capacity);
      ghost var s, n := state, names;
      EnterSub(s, n, clients, subs, sub, capacity);
      state := Step(s, Register(n.next, false, capacity));
      ReachableOn(s, Register(n.next, false, capacity), state, bufferSize);
      subs := subs + {sub};
      names := n.WithSub(sub);
    }

    /** A consumer leaves the set and its channel is closed, the first time only. */
    method Disconnect(c: Client)
      requires Valid() && state.left == {} && names.IsClient(c)
      modifies this`clients, this`state, c.send
      ensures Valid() && clients == old(clients) - {c}
      ensures Moves(old(state), Unregister(names.idOf[c.send]), state)
    {
      hide Reachable, Names.Covers, Names.Members, Names.Mirrored, Names.Unshared, Step, SameBut;
      Facts(state, bufferSize);
      Shown(names, state.consumers);
      MembersLeave(names, state.consumers.Keys, clients, subs, state.registered);
      ghost var s, id := state, names.idOf[c.send];
      UnregisterStep(s, id);
      state := Step(s, Unregister(id));
      ReachableOn(s, Unregister(id), state, bufferSize);
      if c in clients {
        clients := clients - {c};
        CloseOne(c.send, names, s.consumers);
        assert state.consumers.Keys == s.consumers.Keys;
      } else {
        assert clients - {c} == clients;
      }
    }

    method Unsubscribe(sub: Subscription)
      requires Valid() && state.left == {} && names.IsSub(sub)
      modifies this`subs, this`state, sub.ch
      ensures Valid() && subs == old(subs) - {sub}
      ensures Moves(old(state), Unregister(names.idOf[sub.ch]), state)
    {
      hide Reachable, Names.Covers, Names.Members, Names.Mirrored, Names.Unshared, Step, SameBut;
      Facts(state, bufferSize);
      Shown(names, state.consumers);
      MembersLeave(names, state.consumers.Keys, clients, subs, state.registered);
      ghost var s, id := state, names.idOf[sub.ch];
      UnregisterStep(s, id);
      state := Step(s, Unregister(id));
      ReachableOn(s, Unregister(id), state, bufferSize);
      if sub in subs {
        subs := subs - {sub};
        CloseOne(sub.ch, names, s.consumers);
        assert state.consumers.Keys == s.consumers.Keys;
      } else {
        assert subs - {sub} == subs;
      }
    }

    /** A consumer reads from its channel, open or closed. */
    method Receive(ch: Chan<Message>) returns (m: Message)
      requires Valid() && ch in names.idOf && ch.buffer != []
      modifies this`state, ch
      ensures Valid() && Moves(old(state), Action.Receive(names.idOf[ch]), state)
      ensures m == old(ch.buffer)[0]
    {
      hide Reachable, Names.Covers, Names.Members, Names.Mirrored, Names.Unshared;
      Shown(names, state.consumers);
      ghost var s, id := state, names.idOf[ch];
      state := Step(s, Action.Receive(id));
      m := ReceiveFrom(ch, names, s.consumers, state.consumers[id]);
      ReachableOn(s, Action.Receive(id), state, bufferSize);
      assert state.consumers.Keys == s.consumers.Keys;
    }

    /** A set_filter message arrives from a client. */
    method SetFilter(c: Client, f: MessageFilter)
      requires Valid() && names.IsClient(c)
      modifies this`state, c
      ensures Valid() && Moves(old(state), Action.SetFilter(names.idOf[c.send], Chosen(f)), state)
    {
      hide Reachable, Names.Covers, Names.Members, Names.Mirrored, Names.Unshared;
      Shown(names, state.consumers);
      ghost var s, id := state, names.idOf[c.send];
      state := Step(s, Action.SetFilter(id, Chosen(f)));
      FilterOne(c, f, names, s.consumers);
      ReachableOn(s, Action.SetFilter(id, Chosen(f)), state, bufferSize);
      assert state.consumers.Keys == s.consumers.Keys;
    }

    /** The loop picks up the next message. */
    method Take() returns (m: Message)
      requires Valid() && state.left == {} && broadcast.buffer != []
      modifies this`state, broadcast
      ensures Valid() && Moves(old(state), Action.Take, state)
      ensures m == old(broadcast.buffer)[0] && Handing(state, m)
    {
      hide Reachable, Names.Covers, Names.Members, Names.Mirrored, Names.Unshared;
      ghost var s := state;
      m := broadcast.Receive();
      state := Step(s, Action.Take);
      ReachableOn(s, Action.Take, state, bufferSize);
    }

    /** The select in the loop over the clients. */
    method OfferClient(c: Client, m: Message)
      requires Valid() && c in clients && names.IsClient(c)
      requires Enabled(state, Offer(names.idOf[c.send])) && Handing(state, m)
      modifies this`state, c.send
      ensures Valid() && Moves(old(state), Offer(names.idOf[c.send]), state)
    {
      hide Reachable, Names.Covers, Names.Members, Names.Mirrored, Names.Unshared, Step, Allows, SameBut;
      Facts(state, bufferSize);
      Shown(names, state.consumers);
      ghost var s, id := state, names.idOf[c.send];
      OfferStep(s, id, m);
      state := Step(s, Offer(id));
      ReachableOn(s, Offer(id), state, bufferSize);
      assert state.consumers.Keys == s.consumers.Keys;
      var allowed := c.AllowsMessage(m);
      if allowed {
        TrySendTo(c.send, m, names, s.consumers, state.consumers[id]);
      } else {
        Unsent(c.send, names, s.consumers, state.consumers[id]);
      }
    }

    /** And the one over the subscriptions. */
    method OfferSub(u: Subscription, m: Message)
      requires Valid() && u in subs && names.IsSub(u)
      requires Enabled(state, Offer(names.idOf[u.ch])) && Handing(state, m)
      modifies this`state, u.ch
      ensures Valid() && Moves(old(state), Offer(names.idOf[u.ch]), state)
    {
      hide Reachable, Names.Covers, Names.Members, Names.Mirrored, Names.Unshared, Step, SameBut;
      Facts(state, bufferSize);
      Shown(names, state.consumers);
      ghost var s, id := state, names.idOf[u.ch];
      OfferStep(s, id, m);
      state := Step(s, Offer(id));
      ReachableOn(s, Offer(id), state, bufferSize);
      assert state.consumers.Keys == s.consumers.Keys;
      TrySendTo(u.ch, m, names, s.consumers, state.consumers[id]);
    }

    /** One of the things others may do; a read of an empty channel waits. */
    method OneAct(act: Act) returns (ghost a: Option<Action>)
      requires Valid() && Known(act)
      modifies this`state, broadcast, names.idOf.Keys, names.clientAt.Values
      ensures Valid()
      ensures if a.None? then state == old(state) else IsOthers(a.value) && Moves(old(state), a.value, state)
    {
      hide Reachable, Step, Enabled, Names.Covers, Names.Members, Names.Mirrored;
      assert act.Read? ==> act.ch in names.idOf;
      a := None;
      match act {
        case Read(ch) =>
          if ch.buffer != [] {
            var m := Receive(ch);
            a := Some(Action.Receive(names.idOf[ch]));
          }
        case Choose(c, f) =>
          SetFilter(c, f);
          a := Some(Action.SetFilter(names.idOf[c.send], Chosen(f)));
        case Say(m) =>
          Broadcast(m);
          a := Some(Action.Broadcast(m));
      }
    }

    /** What others do at some moment of a round. */
    method Others(acts: seq<Act>, ghost start: State, ghost sofar: seq<Action>) returns (ghost actions: seq<Action>)
      requires Valid() && (forall a <- acts :: Known(a)) && Leads(start, sofar, state) && IsRound(sofar)
      modifies this`state, broadcast, names.idOf.Keys, names.clientAt.Values
      ensures Valid() && Leads(start, actions, state) && IsRound(actions) && SameRound(old(state), state)
    {
      hide Leads, Moves, Reachable, Names.Covers, Names.Members, Names.Mirrored;
      actions := sofar;
      for k := 0 to |acts|
        invariant Valid() && Leads(start, actions, state) && IsRound(actions) && SameRound(old(state), state)
      {
        ghost var s := state;
        ghost var a := OneAct(acts[k]);
        if a.Some? {
          OthersStep(s, a.value, state);
          LeadsOn(start, actions, s, a.value, state);
          actions := actions + [a.value];
        }
      }
    }

    /** In a round: everything but `clients` and `subs` has been offered the message. */
    ghost predicate Midway(
      start: State, actions: seq<Action>, m: Message, leftClients: set<Client>, leftSubs: set<Subscription>)
      reads this, broadcast, names.idOf.Keys, names.clientAt.Values
    {
      && Valid() && Leads(start, actions, state) && IsRound(actions) && Handing(state, m)
      && leftClients <= clients && leftSubs <= subs && names.Members(leftClients, leftSubs, state.left)
    }

    method ToClient(left: set<Client>, m: Message, acts: seq<Act>, ghost start: State, ghost sofar: seq<Action>)
      returns (rest: set<Client>, ghost actions: seq<Action>)
      requires Midway(start, sofar, m, left, subs) && left != {} && forall a <- acts :: Known(a)
      modifies this`state, broadcast, names.idOf.Keys, names.clientAt.Values
      ensures Midway(start, actions, m, rest, subs) && rest < left
    {
      hide Leads, Moves, Reachable, Names.Covers, Names.Members, Names.Mirrored, Enabled;
      actions := Others(acts, start, sofar);
      OfferEnabled(names, left, subs, state, m);
      var c: Client :| c in left;
      ghost var s, a := state, Offer(names.idOf[c.send]);
      OfferClient(c, m);
      OfferedOne(names, s.consumers.Keys, left, subs, s, a.id, state);
      LeadsOn(start, actions, s, a, state);
      actions := actions + [a];
      rest := left - {c};
    }

    method ToSub(left: set<Subscription>, m: Message, acts: seq<Act>, ghost start: State, ghost sofar: seq<Action>)
      returns (rest: set<Subscription>, ghost actions: seq<Action>)
      requires Midway(start, sofar, m, {}, left) && left != {} && forall a <- acts :: Known(a)
      modifies this`state, broadcast, names.idOf.Keys, names.clientAt.Values
      ensures Midway(start, actions, m, {}, rest) && rest < left
    {
      hide Leads, Moves, Reachable, Names.Covers, Names.Members, Names.Mirrored, Enabled;
      actions := Others(acts, start, sofar);
      OfferEnabled(names, {}, left, state, m);
      var u: Subscription :| u in left;
      ghost var s, a := state, Offer(names.idOf[u.ch]);
      OfferSub(u, m);
      OfferedOne(names, s.consumers.Keys, {}, left, s, a.id, state);
      LeadsOn(start, actions, s, a, state);
      actions := actions + [a];
      rest := left - {u};
    }

    /**
     The case of the select in run that hands a message round: it is taken and offered
     to everyone in the two sets, in whatever order they are ranged over. Before the
     k-th offer others do what others(k) says. This is a run of the protocol in Hub
     that ends with nobody left to be offered the message.
     */
    method HandRound(others: nat -> seq<Act>) returns (m: Message, ghost actions: seq<Action>)
      requires Valid() && state.left == {} && broadcast.buffer != []
      requires forall k, a :: a in others(k) ==> Known(a)
      modifies this`state, broadcast, names.idOf.Keys, names.clientAt.Values
      ensures Valid() && m == old(broadcast.buffer)[0]
      ensures IsRound(actions) && Leads(old(state), actions, state) && state.left == {}
    {
      hide Leads, Moves, Reachable, Names.Covers, Names.Members, Names.Mirrored, Enabled, Known;
      ghost var start := state;
      m := Take();
      TakenOne(start, names, clients, subs, state);
      actions := [Action.Take];
      var k, left, leftSubs := 0, clients, subs;
      while left != {}
        invariant Midway(start, actions, m, left, subs)
      {
        left, actions := ToClient(left, m, others(k), start, actions);
        k := k + 1;
      }
      while leftSubs != {}
        invariant Midway(start, actions, m, {}, leftSubs)
      {
        leftSubs, actions := ToSub(leftSubs, m, others(k), start, actions);
        k := k + 1;
      }
      NobodyLeft(names, state.left);
    }
  }
}
