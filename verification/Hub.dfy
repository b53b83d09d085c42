/**
 The broadcast hub of internal/hub/hub.go as a step system: one loop takes
 registrations and messages in turn, and while it hands a message round, consumers
 receive and change their filters.
 */
module Hub {
  import opened Models
  import opened Seqs

  /** What allowsMessage sees of a message; `parses` is whether it decodes at all. */
  datatype Message = Message(
    parses: bool, kind: string, moduleName: string, severity: string, tenantId: string, body: string)

  datatype MessageFilter = MessageFilter(moduleName: string, severity: string, tenantId: string)

  predicate Allows(filter: Option<MessageFilter>, m: Message) {
    if filter.None? || !m.parses || m.kind != "event" then true
    else
      var f := filter.value;
      && (f.moduleName == "" || m.moduleName == f.moduleName)
      && (f.severity == "" || m.severity == f.severity)
      && (f.tenantId == "" || m.tenantId == f.tenantId)
  }

  datatype Verdict = Delivered | Dropped | Filtered

  /** What happens to a message offered to a queue. */
  function Judge(filter: Option<MessageFilter>, m: Message, queued: nat, capacity: nat): Verdict {
    if !Allows(filter, m) then Filtered
    else if queued < capacity then Delivered
    else Dropped
  }

  /** A queue after an offer. */
  function Enqueue(filter: Option<MessageFilter>, m: Message, queue: seq<Message>, capacity: nat): seq<Message> {
    if Judge(filter, m, |queue|, capacity) == Delivered then queue + [m] else queue
  }

  /** A WebSocket client or a channel subscription; the latter has no filter. */
  datatype Consumer = Consumer(
    isClient: bool,
    capacity: nat,
    filter: Option<MessageFilter>,
    queue: seq<Message>,
    closed: bool,
    /** How many messages the hub had taken when it was registered. */
    joined: nat,
    /** The fate of each message offered to it since, and the filter it had then. */
    verdicts: seq<Verdict>,
    filters: seq<Option<MessageFilter>>,
    received: seq<Message>)

  datatype State = State(
    bufferSize: nat,
    /** Every message Broadcast has accepted, in order; the first `taken` have been picked up by the loop. */
    accepted: seq<Message>,
    taken: nat,
    consumers: map<nat, Consumer>,
    /** The keys of the two sets of the hub. */
    registered: set<nat>,
    /** Who is still to be offered the message being handed round. */
    left: set<nat>,
    /** A send on a closed channel, or a second close. */
    panicked: bool)

  datatype Action =
    | Broadcast(m: Message)
    | Register(id: nat, isClient: bool, capacity: nat)
    | Unregister(id: nat)
    | Take
    | Offer(id: nat)
    | Receive(id: nat)
    | SetFilter(id: nat, filter: Option<MessageFilter>)

  function Init(bufferSize: nat): State {
    State(bufferSize, [], 0, map[], {}, {}, false)
  }

  /** The broadcast channel. */
  function Backlog(s: State): nat {
    if s.taken <= |s.accepted| then |s.accepted| - s.taken else 0
  }

  predicate Enabled(s: State, a: Action) {
    match a
    case Broadcast(m) => true
    case Register(id, isClient, capacity) => s.left == {} && id !in s.consumers
    case Unregister(id) => s.left == {} && id in s.consumers
    case Take => s.left == {} && s.taken < |s.accepted|
    case Offer(id) =>
      id in s.left && id in s.consumers && 0 < s.taken <= |s.accepted|
      && (s.consumers[id].isClient || forall other <- s.left :: other in s.consumers ==> !s.consumers[other].isClient)
    case Receive(id) => id in s.consumers && s.consumers[id].queue != []
    case SetFilter(id, filter) => id in s.consumers && s.consumers[id].isClient
  }

  function Offered(c: Consumer, m: Message): Consumer {
    c.(
      queue := Enqueue(c.filter, m, c.queue, c.capacity),
      verdicts := c.verdicts + [Judge(c.filter, m, |c.queue|, c.capacity)],
      filters := c.filters + [c.filter])
  }

  /** Whether offering m to c sends on its channel. */
  predicate Sends(c: Consumer, m: Message) {
    Allows(c.filter, m)
  }

  function Step(s: State, a: Action): State
    requires Enabled(s, a)
  {
    match a
    case Broadcast(m) =>
      if Backlog(s) < s.bufferSize then s.(accepted := s.accepted + [m]) else s
    case Register(id, isClient, capacity) =>
      s.(
        consumers := s.consumers[id := Consumer(isClient, capacity, None, [], false, s.taken, [], [], [])],
        registered := s.registered + {id})
    case Unregister(id) =>
      if id in s.registered then
        s.(
          consumers := s.consumers[id := s.consumers[id].(closed := true)],
          registered := s.registered - {id},
          panicked := s.panicked || s.consumers[id].closed)
      else s
    case Take =>
      s.(taken := s.taken + 1, left := s.registered)
    case Offer(id) =>
      var c, m := s.consumers[id], s.accepted[s.taken - 1];
      s.(
        consumers := s.consumers[id := Offered(c, m)],
        left := s.left - {id},
        panicked := s.panicked || (Sends(c, m) && c.closed))
    case Receive(id) =>
      var c := s.consumers[id];
      s.(consumers := s.consumers[id := c.(queue := c.queue[1..], received := c.received + [c.queue[0]])])
    case SetFilter(id, filter) =>
      s.(consumers := s.consumers[id := s.consumers[id].(filter := filter)])
  }

  // Runs

  ghost predicate Runs(s: State, actions: seq<Action>)
    decreases |actions|
  {
    actions == [] || (Enabled(s, actions[0]) && Runs(Step(s, actions[0]), actions[1..]))
  }

  function After(s: State, actions: seq<Action>): State
    requires Runs(s, actions)
    decreases |actions|
  {
    if actions == [] then s else After(Step(s, actions[0]), actions[1..])
  }

  // Streams

  /** The messages from position `from` on whose verdict is Delivered, in order. */
  function Picked(log: seq<Message>, from: nat, verdicts: seq<Verdict>): seq<Message>
    requires from + |verdicts| <= |log|
  {
    if verdicts == [] then []
    else
      var n := |verdicts| - 1;
      Picked(log, from, verdicts[..n]) + if verdicts[n] == Delivered then [log[from + n]] else []
  }

  /** What has reached a consumer: received already, or waiting in its channel. */
  function Stream(c: Consumer): seq<Message> {
    c.received + c.queue
  }

  ghost predicate ConsumerInv(s: State, id: nat)
    requires id in s.consumers
  {
    var c := s.consumers[id];
    && |c.queue| <= c.capacity
    && c.joined + |c.verdicts| <= s.taken <= |s.accepted|
    && (id in s.registered ==> c.joined + |c.verdicts| == s.taken - if id in s.left then 1 else 0)
    && (id in s.registered <==> !c.closed)
    && Stream(c) == Picked(s.accepted, c.joined, c.verdicts)
    && Judged(s.accepted, c.joined, c.filters, c.verdicts)
  }

  /** A message was filtered out exactly if the filter of that moment did not let it pass. */
  ghost predicate Judged(log: seq<Message>, from: nat, filters: seq<Option<MessageFilter>>, verdicts: seq<Verdict>)
    requires from + |verdicts| <= |log|
  {
    && |filters| == |verdicts|
    && (forall k :: 0 <= k < |verdicts| ==> (verdicts[k] == Filtered <==> !Allows(filters[k], log[from + k])))
  }

  ghost predicate Inv(s: State) {
    && !s.panicked
    && s.left <= s.registered <= s.consumers.Keys
    && s.taken <= |s.accepted| <= s.taken + s.bufferSize
    && (forall id <- s.consumers :: ConsumerInv(s, id))
  }

  lemma {:induction false} PickedAgree(a: seq<Message>, b: seq<Message>, from: nat, verdicts: seq<Verdict>)
    requires from + |verdicts| <= |a| && a <= b
    ensures Picked(a, from, verdicts) == Picked(b, from, verdicts)
  {
    if verdicts != [] {
      PickedAgree(a, b, from, verdicts[..|verdicts| - 1]);
    }
  }

  lemma PickedSnoc(log: seq<Message>, from: nat, verdicts: seq<Verdict>, v: Verdict)
    requires from + |verdicts| < |log|
    ensures Picked(log, from, verdicts + [v])
      == Picked(log, from, verdicts) + if v == Delivered then [log[from + |verdicts|]] else []
  {
    assert (verdicts + [v])[..|verdicts|] == verdicts;
  }

  lemma JudgedAgree(
    a: seq<Message>, b: seq<Message>, from: nat, filters: seq<Option<MessageFilter>>, verdicts: seq<Verdict>)
    requires from + |verdicts| <= |a| && a <= b && Judged(a, from, filters, verdicts)
    ensures Judged(b, from, filters, verdicts)
  {
    hide Allows;
  }

  lemma JudgedSnoc(
    log: seq<Message>, from: nat, filters: seq<Option<MessageFilter>>, verdicts: seq<Verdict>,
    f: Option<MessageFilter>, v: Verdict)
    requires from + |verdicts| < |log| && Judged(log, from, filters, verdicts)
    requires v == Filtered <==> !Allows(f, log[from + |verdicts|])
    ensures Judged(log, from, filters + [f], verdicts + [v])
  {
    hide Allows;
  }

  /** A consumer that a step leaves alone keeps its invariant. */
  lemma Untouched(s: State, s': State, id: nat)
    requires id in s.consumers && id in s'.consumers && s'.consumers[id] == s.consumers[id]
    requires ConsumerInv(s, id)
    requires s.accepted <= s'.accepted && s.taken <= s'.taken <= |s'.accepted|
    requires id in s'.registered <==> id in s.registered
    requires id in s.registered ==>
      s'.taken - (if id in s'.left then 1 else 0) == s.taken - if id in s.left then 1 else 0
    ensures ConsumerInv(s', id)
  {
    var c := s.consumers[id];
    hide Picked, Judged;
    PickedAgree(s.accepted, s'.accepted, c.joined, c.verdicts);
    JudgedAgree(s.accepted, s'.accepted, c.joined, c.filters, c.verdicts);
  }

  lemma OfferKeeps(s: State, id: nat)
    requires Inv(s) && Enabled(s, Offer(id))
    ensures ConsumerInv(Step(s, Offer(id)), id) && !Step(s, Offer(id)).panicked
  {
    hide Picked, Allows, Judged;
    var c, m := s.consumers[id], s.accepted[s.taken - 1];
    assert ConsumerInv(s, id);
    var v := Judge(c.filter, m, |c.queue|, c.capacity);
    PickedSnoc(s.accepted, c.joined, c.verdicts, v);
    JudgedSnoc(s.accepted, c.joined, c.filters, c.verdicts, c.filter, v);
    OfferedStream(c, m);
  }

  lemma OfferedStream(c: Consumer, m: Message)
    ensures Stream(Offered(c, m))
      == Stream(c) + if Judge(c.filter, m, |c.queue|, c.capacity) == Delivered then [m] else []
  {
    assert c.received + (c.queue + [m]) == (c.received + c.queue) + [m];
    assert (c.received + c.queue) + [] == c.received + c.queue;
  }

  lemma ReceiveKeeps(s: State, id: nat)
    requires Inv(s) && Enabled(s, Receive(id))
    ensures ConsumerInv(Step(s, Receive(id)), id)
  {
    var c := s.consumers[id];
    assert ConsumerInv(s, id);
    assert c.queue == [c.queue[0]] + c.queue[1..];
    assert (c.received + [c.queue[0]]) + c.queue[1..] == c.received + ([c.queue[0]] + c.queue[1..]);
  }

  lemma StepKeepsInv(s: State, a: Action)
    requires Inv(s) && Enabled(s, a)
    ensures Inv(Step(s, a))
  {
    hide Enabled, Step, ConsumerInv;
    LoopKeeps(s, a);
    forall id <- Step(s, a).consumers
      ensures ConsumerInv(Step(s, a), id)
    {
      ConsumerKeeps(s, a, id);
    }
  }

  /** All but the consumers. */
  lemma LoopKeeps(s: State, a: Action)
    requires Inv(s) && Enabled(s, a)
    ensures var s' := Step(s, a);
      && !s'.panicked
      && s'.left <= s'.registered <= s'.consumers.Keys
      && s'.taken <= |s'.accepted| <= s'.taken + s'.bufferSize
  {
    hide Picked, Judged, Stream, Allows;
    match a {
      case Offer(id) => OfferKeeps(s, id);
      case Unregister(id) => assert ConsumerInv(s, id);
      case _ =>
    }
  }

  lemma ConsumerKeeps(s: State, a: Action, id: nat)
    requires Inv(s) && Enabled(s, a) && id in Step(s, a).consumers
    ensures ConsumerInv(Step(s, a), id)
  {
    hide ConsumerInv, Allows;
    var s' := Step(s, a);
    if id in s.consumers && s'.consumers[id] == s.consumers[id] && a != Unregister(id) && a != Offer(id) {
      Untouched(s, s', id);
    } else {
      Touched(s, a, id);
    }
  }

  lemma Touched(s: State, a: Action, id: nat)
    requires Inv(s) && Enabled(s, a) && id in Step(s, a).consumers
    requires id !in s.consumers || Step(s, a).consumers[id] != s.consumers[id] || a == Unregister(id) || a == Offer(id)
    ensures ConsumerInv(Step(s, a), id)
  {
    hide Allows;
    assert id in s.consumers ==> ConsumerInv(s, id);
    match a {
      case Offer(i) => OfferKeeps(s, id);
      case Receive(i) => ReceiveKeeps(s, id);
      case _ =>
    }
  }

  lemma {:induction false} RunKeepsInv(s: State, actions: seq<Action>)
    requires Inv(s) && Runs(s, actions)
    ensures Inv(After(s, actions))
    decreases |actions|
  {
    hide Inv, Enabled, Step;
    if actions != [] {
      StepKeepsInv(s, actions[0]);
      RunKeepsInv(Step(s, actions[0]), actions[1..]);
    }
  }

  ghost predicate Reachable(s: State, bufferSize: nat) {
    exists actions :: Runs(Init(bufferSize), actions) && After(Init(bufferSize), actions) == s
  }

  lemma ReachableInv(s: State, bufferSize: nat)
    requires Reachable(s, bufferSize)
    ensures Inv(s)
  {
    var actions :| Runs(Init(bufferSize), actions) && After(Init(bufferSize), actions) == s;
    RunKeepsInv(Init(bufferSize), actions);
  }

  /** In no run is a channel sent to after its close, or closed twice. */
  lemma NeverPanics(s: State, bufferSize: nat)
    requires Reachable(s, bufferSize)
    ensures !s.panicked
  {
    hide Reachable;
    ReachableInv(s, bufferSize);
  }

  // Order

  /** The positions in the accepted order of what reached a consumer. */
  function Positions(from: nat, verdicts: seq<Verdict>): seq<nat> {
    if verdicts == [] then []
    else
      var n := |verdicts| - 1;
      Positions(from, verdicts[..n]) + if verdicts[n] == Delivered then [from + n] else []
  }

  ghost predicate Increasing(p: seq<nat>) {
    forall i, j :: 0 <= i < j < |p| ==> p[i] < p[j]
  }

  lemma {:induction false} PositionsOf(log: seq<Message>, from: nat, verdicts: seq<Verdict>)
    requires from + |verdicts| <= |log|
    ensures var p := Positions(from, verdicts);
      && Increasing(p)
      && |Picked(log, from, verdicts)| == |p|
      && (forall k :: 0 <= k < |p| ==> from <= p[k] < from + |verdicts| && Picked(log, from, verdicts)[k] == log[p[k]])
  {
    if verdicts != [] {
      PositionsOf(log, from, verdicts[..|verdicts| - 1]);
    }
  }

  /** A consumer's stream is an order-preserving subsequence of the accepted broadcasts. */
  lemma StreamInOrder(s: State, bufferSize: nat, id: nat)
    requires Reachable(s, bufferSize) && id in s.consumers
    ensures var c := s.consumers[id];
      var p := Positions(c.joined, c.verdicts);
      && Increasing(p)
      && |Stream(c)| == |p|
      && (forall k :: 0 <= k < |p| ==> c.joined <= p[k] < |s.accepted| && Stream(c)[k] == s.accepted[p[k]])
  {
    hide Reachable, Increasing, Picked, Positions;
    ReachableInv(s, bufferSize);
    assert ConsumerInv(s, id);
    var c := s.consumers[id];
    PositionsOf(s.accepted, c.joined, c.verdicts);
  }

  /** Any two consumers agree on the order of the broadcasts that reach both. */
  lemma OrderAgrees(s: State, bufferSize: nat, a: nat, b: nat, i: nat, j: nat, k: nat, l: nat)
    requires Reachable(s, bufferSize) && a in s.consumers && b in s.consumers
    requires var p := Positions(s.consumers[a].joined, s.consumers[a].verdicts);
             var q := Positions(s.consumers[b].joined, s.consumers[b].verdicts);
      i < |p| && j < |p| && k < |q| && l < |q| && p[i] == q[k] && p[j] == q[l]
    ensures i < j <==> k < l
  {
    hide Reachable, Positions;
    StreamInOrder(s, bufferSize, a);
    StreamInOrder(s, bufferSize, b);
  }

  // Accounting

  function Count(verdicts: seq<Verdict>, v: Verdict): nat {
    if verdicts == [] then 0
    else Count(verdicts[..|verdicts| - 1], v) + if verdicts[|verdicts| - 1] == v then 1 else 0
  }

  lemma {:induction false} CountsAddUp(verdicts: seq<Verdict>)
    ensures Count(verdicts, Delivered) + Count(verdicts, Dropped) + Count(verdicts, Filtered) == |verdicts|
  {
    if verdicts != [] {
      CountsAddUp(verdicts[..|verdicts| - 1]);
    }
  }

  lemma {:induction false} PickedCount(log: seq<Message>, from: nat, verdicts: seq<Verdict>)
    requires from + |verdicts| <= |log|
    ensures |Picked(log, from, verdicts)| == Count(verdicts, Delivered)
  {
    if verdicts != [] {
      PickedCount(log, from, verdicts[..|verdicts| - 1]);
    }
  }

  /**
   Conservation: between rounds, the messages taken since a consumer was registered
   are those that reached it, those dropped on a full channel and those filtered out.
   */
  lemma MessagesAccountedFor(s: State, bufferSize: nat, id: nat)
    requires Reachable(s, bufferSize) && id in s.registered && id !in s.left
    ensures id in s.consumers
    ensures var c := s.consumers[id];
      s.taken - c.joined == |c.received| + |c.queue| + Count(c.verdicts, Dropped) + Count(c.verdicts, Filtered)
  {
    hide Reachable, Picked, Count;
    ReachableInv(s, bufferSize);
    assert ConsumerInv(s, id);
    var c := s.consumers[id];
    CountsAddUp(c.verdicts);
    PickedCount(s.accepted, c.joined, c.verdicts);
  }

  // What a consumer misses

  /** The consumer is offered a message that passes its filter while its channel is full. */
  predicate Overflows(s: State, a: Action, id: nat)
    requires Enabled(s, a)
  {
    && a == Offer(id)
    && Allows(s.consumers[id].filter, s.accepted[s.taken - 1])
    && |s.consumers[id].queue| >= s.consumers[id].capacity
  }

  /** That never happens in a run. */
  ghost predicate KeepsUp(s: State, actions: seq<Action>, id: nat)
    requires Runs(s, actions)
    decreases |actions|
  {
    actions != [] ==> !Overflows(s, actions[0], id) && KeepsUp(Step(s, actions[0]), actions[1..], id)
  }

  function DroppedBy(s: State, id: nat): nat {
    if id in s.consumers then Count(s.consumers[id].verdicts, Dropped) else 0
  }

  /** The messages from position `from` on that passed the filter of their moment, in order. */
  function Passed(log: seq<Message>, from: nat, filters: seq<Option<MessageFilter>>): seq<Message>
    requires from + |filters| <= |log|
  {
    if filters == [] then []
    else
      var n := |filters| - 1;
      Passed(log, from, filters[..n]) + if Allows(filters[n], log[from + n]) then [log[from + n]] else []
  }

  /** What is picked of those that passed: all but the dropped ones, and hence all of them when none was dropped. */
  lemma {:induction false} PickedOfPassed(
    log: seq<Message>, from: nat, filters: seq<Option<MessageFilter>>, verdicts: seq<Verdict>)
    requires from + |verdicts| <= |log| && Judged(log, from, filters, verdicts)
    ensures |Passed(log, from, filters)| == |Picked(log, from, verdicts)| + Count(verdicts, Dropped)
    ensures Count(verdicts, Dropped) == 0 ==> Passed(log, from, filters) == Picked(log, from, verdicts)
  {
    hide Allows;
    if verdicts != [] {
      var n := |verdicts| - 1;
      PickedOfPassed(log, from, filters[..n], verdicts[..n]);
    }
  }

  lemma {:induction false} PickedConcat(log: seq<Message>, from: nat, a: seq<Verdict>, b: seq<Verdict>)
    requires from + |a| + |b| <= |log|
    ensures Picked(log, from, a + b) == Picked(log, from, a) + Picked(log, from + |a|, b)
    ensures Count(a + b, Dropped) == Count(a, Dropped) + Count(b, Dropped)
  {
    if b == [] {
      assert a + b == a;
    } else {
      var n := |b| - 1;
      PickedConcat(log, from, a, b[..n]);
      hide Picked, Count;
      assert a + b == (a + b[..n]) + [b[n]] && b == b[..n] + [b[n]];
      PickedSnoc(log, from, a + b[..n], b[n]);
      PickedSnoc(log, from + |a|, b[..n], b[n]);
      CountSnoc(a + b[..n], b[n], Dropped);
      CountSnoc(b[..n], b[n], Dropped);
    }
  }

  lemma CountSnoc(verdicts: seq<Verdict>, last: Verdict, v: Verdict)
    ensures Count(verdicts + [last], v) == Count(verdicts, v) + if last == v then 1 else 0
  {
    assert (verdicts + [last])[..|verdicts|] == verdicts;
  }

  /** What a consumer has been offered only grows, and so do the accepted messages. */
  ghost predicate Grows(s: State, t: State, id: nat) {
    && s.accepted <= t.accepted
    && (id in s.consumers ==>
          && id in t.consumers
          && t.consumers[id].joined == s.consumers[id].joined
          && s.consumers[id].verdicts <= t.consumers[id].verdicts
          && s.consumers[id].filters <= t.consumers[id].filters)
  }

  lemma StepGrows(s: State, a: Action, id: nat)
    requires Enabled(s, a)
    ensures Grows(s, Step(s, a), id)
  {
    hide Allows, Judge, Enqueue;
  }

  lemma {:induction false} RunGrows(s: State, actions: seq<Action>, id: nat)
    requires Runs(s, actions)
    ensures Grows(s, After(s, actions), id)
    decreases |actions|
  {
    hide Enabled, Step;
    if actions != [] {
      StepGrows(s, actions[0], id);
      RunGrows(Step(s, actions[0]), actions[1..], id);
    }
  }

  /** A step drops one more message of a consumer exactly when it overflows. */
  lemma DroppedStep(s: State, a: Action, id: nat)
    requires Inv(s) && Enabled(s, a)
    ensures DroppedBy(Step(s, a), id) == DroppedBy(s, id) + if Overflows(s, a, id) then 1 else 0
  {
    hide ConsumerInv, Allows;
    if a == Offer(id) {
      var c, m := s.consumers[id], s.accepted[s.taken - 1];
      CountSnoc(c.verdicts, Judge(c.filter, m, |c.queue|, c.capacity), Dropped);
    }
  }

  lemma {:induction false} DroppedRun(s: State, actions: seq<Action>, id: nat)
    requires Inv(s) && Runs(s, actions)
    ensures DroppedBy(After(s, actions), id) >= DroppedBy(s, id)
    ensures DroppedBy(After(s, actions), id) == DroppedBy(s, id) <==> KeepsUp(s, actions, id)
    decreases |actions|
  {
    hide Inv, Enabled, Step, Overflows, DroppedBy;
    if actions != [] {
      StepKeepsInv(s, actions[0]);
      DroppedStep(s, actions[0], id);
      DroppedRun(Step(s, actions[0]), actions[1..], id);
    }
  }

  /** Of the messages offered to a consumer between s and t, those that passed its filter of their moment. */
  function PassedBetween(s: State, t: State, id: nat): seq<Message>
    requires id in s.consumers && Grows(s, t, id)
    requires var d := t.consumers[id]; d.joined + |d.filters| <= |t.accepted|
  {
    var c, d := s.consumers[id], t.consumers[id];
    Passed(t.accepted, c.joined + |c.filters|, d.filters[|c.filters|..])
  }

  lemma StreamBetween(s: State, t: State, id: nat)
    requires Inv(s) && Inv(t) && Grows(s, t, id) && id in s.consumers
    ensures ConsumerInv(s, id) && ConsumerInv(t, id)
    ensures var c, d, passed := s.consumers[id], t.consumers[id], PassedBetween(s, t, id);
      && |d.verdicts| == |d.filters|
      && DroppedBy(t, id) >= DroppedBy(s, id)
      && |passed| == |Stream(d)| - |Stream(c)| + DroppedBy(t, id) - DroppedBy(s, id)
      && (DroppedBy(t, id) == DroppedBy(s, id) ==> Stream(d) == Stream(c) + passed)
  {
    assert ConsumerInv(s, id) && ConsumerInv(t, id);
    hide Picked, Passed, Count, Judged, Stream, Inv;
    var c, d := s.consumers[id], t.consumers[id];
    PassedLater(t.accepted, s.accepted, c.joined, c.filters, c.verdicts, d.filters, d.verdicts);
  }

  /** Between an earlier and a later list of verdicts on the same log. */
  lemma PassedLater(
    log: seq<Message>, before: seq<Message>, from: nat, filters: seq<Option<MessageFilter>>, verdicts: seq<Verdict>,
    allFilters: seq<Option<MessageFilter>>, allVerdicts: seq<Verdict>)
    requires before <= log && from + |verdicts| <= |before| && from + |allVerdicts| <= |log|
    requires filters <= allFilters && verdicts <= allVerdicts
    requires Judged(before, from, filters, verdicts) && Judged(log, from, allFilters, allVerdicts)
    ensures |filters| == |verdicts| && |allFilters| == |allVerdicts|
    ensures var passed := Passed(log, from + |filters|, allFilters[|filters|..]);
      && Count(allVerdicts, Dropped) >= Count(verdicts, Dropped)
      && |passed| == |Picked(log, from, allVerdicts)| - |Picked(before, from, verdicts)|
           + Count(allVerdicts, Dropped) - Count(verdicts, Dropped)
      && (Count(allVerdicts, Dropped) == Count(verdicts, Dropped) ==>
            Picked(log, from, allVerdicts) == Picked(before, from, verdicts) + passed)
  {
    var more := allVerdicts[|verdicts|..];
    assert allVerdicts == verdicts + more;
    LaterJudged(log, before, from, filters, verdicts, allFilters, allVerdicts);
    hide Picked, Passed, Count, Judged;
    PickedAgree(before, log, from, verdicts);
    PickedConcat(log, from, verdicts, more);
    PickedOfPassed(log, from + |verdicts|, allFilters[|verdicts|..], more);
  }

  lemma LaterJudged(
    log: seq<Message>, before: seq<Message>, from: nat, filters: seq<Option<MessageFilter>>, verdicts: seq<Verdict>,
    allFilters: seq<Option<MessageFilter>>, allVerdicts: seq<Verdict>)
    requires before <= log && from + |verdicts| <= |before| && from + |allVerdicts| <= |log|
    requires filters <= allFilters && verdicts <= allVerdicts
    requires Judged(before, from, filters, verdicts) && Judged(log, from, allFilters, allVerdicts)
    ensures |filters| == |verdicts| && |allFilters| == |allVerdicts|
    ensures Judged(log, from + |verdicts|, allFilters[|verdicts|..], allVerdicts[|verdicts|..])
  {
    hide Allows;
    var n := |verdicts|;
    forall k | 0 <= k < |allVerdicts| - n
      ensures allVerdicts[n..][k] == Filtered <==> !Allows(allFilters[n..][k], log[from + n + k])
    {
      assert allVerdicts[n..][k] == allVerdicts[n + k];
    }
  }

  /**
   Over any run, with the filter changing at any moment, a consumer misses exactly
   what was dropped on its full channel. So it gets all the messages offered to it
   that pass the filter of their moment if and only if none of these is offered while
   its channel is full.
   */
  lemma NothingLost(s: State, bufferSize: nat, actions: seq<Action>, id: nat)
    requires Reachable(s, bufferSize) && Runs(s, actions) && id in s.consumers
    ensures var t := After(s, actions);
      && Grows(s, t, id) && t.consumers[id].joined + |t.consumers[id].filters| <= |t.accepted|
      && var c, d, passed := s.consumers[id], t.consumers[id], PassedBetween(s, t, id);
         && |passed| == |Stream(d)| - |Stream(c)| + DroppedBy(t, id) - DroppedBy(s, id)
         && (Stream(d) == Stream(c) + passed <==> KeepsUp(s, actions, id))
  {
    hide Reachable, Runs, After, KeepsUp, Stream, PassedBetween, DroppedBy, Grows;
    ReachableInv(s, bufferSize);
    RunKeepsInv(s, actions);
    RunGrows(s, actions, id);
    StreamBetween(s, After(s, actions), id);
    DroppedRun(s, actions, id);
  }

  // A filter that stays the same

  /** Throughout a run the consumer's filter is f. */
  ghost predicate KeepsFilter(s: State, actions: seq<Action>, id: nat, f: Option<MessageFilter>)
    requires Runs(s, actions)
    decreases |actions|
  {
    && (id in s.consumers ==> s.consumers[id].filter == f)
    && (actions != [] ==> KeepsFilter(Step(s, actions[0]), actions[1..], id, f))
  }

  function Passing(f: Option<MessageFilter>): Message -> bool {
    (m: Message) => Allows(f, m)
  }

  /** Then it was f at every offer. */
  lemma {:induction false} FilterKept(s: State, actions: seq<Action>, id: nat, f: Option<MessageFilter>)
    requires Runs(s, actions) && KeepsFilter(s, actions, id, f) && id in s.consumers
    ensures Grows(s, After(s, actions), id)
    ensures var before, after := s.consumers[id].filters, After(s, actions).consumers[id].filters;
      forall k :: |before| <= k < |after| ==> after[k] == f
    decreases |actions|
  {
    RunGrows(s, actions, id);
    if actions != [] {
      OneFilterMore(s, actions[0], id);
      StepGrows(s, actions[0], id);
      hide Enabled, Step;
      FilterKept(Step(s, actions[0]), actions[1..], id, f);
    }
  }

  lemma OneFilterMore(s: State, a: Action, id: nat)
    requires Enabled(s, a) && id in s.consumers
    ensures id in Step(s, a).consumers
    ensures var c, c' := s.consumers[id], Step(s, a).consumers[id];
      c'.filters == c.filters || c'.filters == c.filters + [c.filter]
  {
    hide Allows, Judge, Enqueue;
  }

  lemma {:induction false} PassedSteady(
    log: seq<Message>, from: nat, filters: seq<Option<MessageFilter>>, f: Option<MessageFilter>)
    requires from + |filters| <= |log| && forall k :: 0 <= k < |filters| ==> filters[k] == f
    ensures Passed(log, from, filters) == Filter(Passing(f), log[from..from + |filters|])
  {
    if filters == [] {
      assert log[from..from] == [];
    } else {
      var n := |filters| - 1;
      PassedSteady(log, from, filters[..n], f);
      hide Filter, Passed, Allows;
      PassedLast(log, from, filters);
      FilterSnoc(Passing(f), log[from..from + n], log[from + n]);
      OneLonger(log, from, n);
    }
  }

  lemma PassedLast(log: seq<Message>, from: nat, filters: seq<Option<MessageFilter>>)
    requires filters != [] && from + |filters| <= |log|
    ensures var n := |filters| - 1;
      Passed(log, from, filters)
        == Passed(log, from, filters[..n]) + if Allows(filters[n], log[from + n]) then [log[from + n]] else []
  {
  }

  lemma OneLonger(log: seq<Message>, from: nat, n: nat)
    requires from + n < |log|
    ensures log[from..from + n + 1] == log[from..from + n] + [log[from + n]]
  {
  }

  /**
   From any moment between rounds, while its filter stays f, a registered consumer
   gets of the messages taken exactly those that pass f, but for the dropped ones; and
   all of them if and only if none of them is offered while its channel is full.
   */
  lemma FilteredLog(s: State, bufferSize: nat, actions: seq<Action>, id: nat, f: Option<MessageFilter>)
    requires Reachable(s, bufferSize) && id in s.registered && id !in s.left
    requires Runs(s, actions) && KeepsFilter(s, actions, id, f)
    ensures var t := After(s, actions);
      id in t.registered && id !in t.left ==>
        && id in s.consumers && id in t.consumers && s.taken <= t.taken <= |t.accepted|
        && var c, d, passing := s.consumers[id], t.consumers[id], Filter(Passing(f), t.accepted[s.taken..t.taken]);
           && |passing| == |Stream(d)| - |Stream(c)| + DroppedBy(t, id) - DroppedBy(s, id)
           && (Stream(d) == Stream(c) + passing <==> KeepsUp(s, actions, id))
  {
    hide Reachable, Runs, After, KeepsUp, Stream, DroppedBy, KeepsFilter, Passed, Filter, Passing, Picked, Judged;
    var t := After(s, actions);
    ReachableInv(s, bufferSize);
    RunKeepsInv(s, actions);
    NothingLost(s, bufferSize, actions, id);
    if id in t.registered && id !in t.left {
      assert ConsumerInv(s, id) && ConsumerInv(t, id);
      FilterKept(s, actions, id, f);
      SameLengths(s, id);
      SameLengths(t, id);
      var c, d := s.consumers[id], t.consumers[id];
      PassedSteady(t.accepted, s.taken, d.filters[|c.filters|..], f);
    }
  }

  lemma SameLengths(s: State, id: nat)
    requires Inv(s) && id in s.consumers
    ensures |s.consumers[id].filters| == |s.consumers[id].verdicts|
  {
    assert ConsumerInv(s, id);
  }

  // What passes a filter

  /**
   A message offered to a consumer was filtered out if and only if the consumer then
   had a filter, the message is an event that decodes, and some field that the filter
   sets is another one in the message.
   */
  lemma FilteredOutIff(s: State, bufferSize: nat, id: nat, k: nat)
    requires Reachable(s, bufferSize) && id in s.consumers && k < |s.consumers[id].verdicts|
    ensures var c := s.consumers[id];
      && k < |c.filters| && c.joined + k < |s.accepted|
      && var filter, m := c.filters[k], s.accepted[c.joined + k];
         c.verdicts[k] == Filtered <==>
           && filter.Some? && m.parses && m.kind == "event"
           && (|| (filter.value.moduleName != "" && m.moduleName != filter.value.moduleName)
               || (filter.value.severity != "" && m.severity != filter.value.severity)
               || (filter.value.tenantId != "" && m.tenantId != filter.value.tenantId))
  {
    hide Reachable, Picked;
    ReachableInv(s, bufferSize);
    assert ConsumerInv(s, id);
  }

  /**
   Everything in a consumer's stream is a message it was offered, with a filter that
   the message agrees with in each field that is set, if it is an event that decodes.
   */
  lemma StreamAgrees(s: State, bufferSize: nat, id: nat, j: nat) returns (k: nat)
    requires Reachable(s, bufferSize) && id in s.consumers && j < |Stream(s.consumers[id])|
    ensures var c := s.consumers[id];
      && k < |c.filters| && c.joined + k < |s.accepted|
      && var filter, m := c.filters[k], s.accepted[c.joined + k];
         && Stream(c)[j] == m
         && (filter.Some? && m.parses && m.kind == "event" ==>
               && (filter.value.moduleName != "" ==> m.moduleName == filter.value.moduleName)
               && (filter.value.severity != "" ==> m.severity == filter.value.severity)
               && (filter.value.tenantId != "" ==> m.tenantId == filter.value.tenantId))
  {
    hide Reachable, Picked, Stream;
    ReachableInv(s, bufferSize);
    assert ConsumerInv(s, id);
    var c := s.consumers[id];
    k := PlaceOf(s.accepted, c.joined, c.verdicts, j);
    FilteredOutIff(s, bufferSize, id, k);
  }

  lemma {:induction false} PlaceOf(log: seq<Message>, from: nat, verdicts: seq<Verdict>, j: nat) returns (k: nat)
    requires from + |verdicts| <= |log| && j < |Picked(log, from, verdicts)|
    ensures k < |verdicts| && verdicts[k] == Delivered && Picked(log, from, verdicts)[j] == log[from + k]
  {
    var n := |verdicts| - 1;
    if j < |Picked(log, from, verdicts[..n])| {
      k := PlaceOf(log, from, verdicts[..n], j);
    } else {
      k := n;
    }
  }

  /** What a filter lets pass of a list of messages. */
  function Passes(f: Option<MessageFilter>, messages: seq<Message>): seq<Message> {
    Filter(Passing(f), messages)
  }

  /** Without a filter, or with one that sets no field, everything passes. */
  lemma NoFilterPassesAll(messages: seq<Message>)
    ensures Passes(None, messages) == messages
    ensures Passes(Some(MessageFilter("", "", "")), messages) == messages
  {
    FilterAll(Passing(None), messages);
    FilterAll(Passing(Some(MessageFilter("", "", ""))), messages);
  }

  /**
   A filter with one more field set lets pass those of the messages that agree in it,
   and everything that is no event or does not decode.
   */
  lemma OneMoreField(f: MessageFilter, v: string, messages: seq<Message>)
    requires v != ""
    ensures Passes(Some(f.(moduleName := v)), messages)
      == Filter((m: Message) => !m.parses || m.kind != "event" || m.moduleName == v,
                Passes(Some(f.(moduleName := "")), messages))
    ensures Passes(Some(f.(severity := v)), messages)
      == Filter((m: Message) => !m.parses || m.kind != "event" || m.severity == v,
                Passes(Some(f.(severity := "")), messages))
    ensures Passes(Some(f.(tenantId := v)), messages)
      == Filter((m: Message) => !m.parses || m.kind != "event" || m.tenantId == v,
                Passes(Some(f.(tenantId := "")), messages))
  {
    FilterFurther(Passing(Some(f.(moduleName := ""))),
      (m: Message) => !m.parses || m.kind != "event" || m.moduleName == v,
      Passing(Some(f.(moduleName := v))), messages);
    FilterFurther(Passing(Some(f.(severity := ""))),
      (m: Message) => !m.parses || m.kind != "event" || m.severity == v,
      Passing(Some(f.(severity := v))), messages);
    FilterFurther(Passing(Some(f.(tenantId := ""))),
      (m: Message) => !m.parses || m.kind != "event" || m.tenantId == v,
      Passing(Some(f.(tenantId := v))), messages);
  }

  /** Such a moment comes for every filter: a client is entered without one and then sets it. */
  lemma FilterSet(bufferSize: nat, capacity: nat, f: Option<MessageFilter>) returns (s: State)
    ensures Reachable(s, bufferSize) && 0 in s.registered && s.left == {}
    ensures 0 in s.consumers && s.consumers[0].filter == f && Stream(s.consumers[0]) == []
  {
    var s0 := Init(bufferSize);
    var s1 := Step(s0, Register(0, true, capacity));
    s := Step(s1, SetFilter(0, f));
    var actions := [Register(0, true, capacity), SetFilter(0, f)];
    assert actions[1..] == [SetFilter(0, f)] && actions[1..][1..] == [];
    assert Runs(s, []) && After(s, []) == s;
    assert Runs(s1, actions[1..]) && After(s1, actions[1..]) == s;
    assert Runs(s0, actions) && After(s0, actions) == s;
  }

  /** A stream only grows, and not at all once its channel is closed. */
  lemma StreamGrows(s: State, a: Action, id: nat)
    requires Inv(s) && Enabled(s, a) && id in s.consumers
    ensures id in Step(s, a).consumers
    ensures Stream(s.consumers[id]) <= Stream(Step(s, a).consumers[id])
    ensures s.consumers[id].closed ==> Stream(s.consumers[id]) == Stream(Step(s, a).consumers[id])
  {
    hide Picked, Allows;
    assert ConsumerInv(s, id);
    var c := s.consumers[id];
    if a == Offer(id) {
      OfferedStream(c, s.accepted[s.taken - 1]);
    } else if a == Receive(id) {
      assert (c.received + [c.queue[0]]) + c.queue[1..] == c.received + c.queue;
    }
  }
}
