/** The observe-mode sessions of internal/monitor/monitor.go: two indices over the same records. */
module Sessions {
  import opened Models
  import Gate

  datatype Step = Step(
    stepId: string,
    stepIndex: nat,
    moduleName: string,
    eventType: string,
    timestamp: Time,
    durationMs: int,
    status: string,
    data: map<string, string>,
    annotation: string)

  datatype Summary = Summary(
    sessionId: string,
    tenantId: string,
    userId: string,
    mode: string,
    startedAt: Time,
    updatedAt: Time,
    status: string,
    steps: seq<Step>)

  /** A session record; both maps point to it. */
  class Session {
    const sessionId: string
    const traceId: string
    const tenantId: string
    const userId: string
    const mode: string
    const startedAt: Time
    var updatedAt: Time
    var status: string
    var steps: seq<Step>

    constructor (sessionId: string, ev: BastionEvent, mode: string)
      ensures this.sessionId == sessionId && traceId == ev.traceId
      ensures Value() == Opened(sessionId, ev, mode)
    {
      this.sessionId, traceId, tenantId, userId, this.mode := sessionId, ev.traceId, ev.tenantId, ev.userId, mode;
      startedAt, updatedAt, status, steps := ev.timestamp, ev.timestamp, "active", [];
    }

    function Value(): Summary
      reads this
    {
      Summary(sessionId, tenantId, userId, mode, startedAt, updatedAt, status, steps)
    }

    method Extend(ev: BastionEvent, stepId: string)
      modifies this
      ensures Value() == Extended(old(Value()), ev, stepId)
    {
      var step := StepOf(ev, stepId, |steps|);
      steps := steps + [step];
      updatedAt := ev.timestamp;
      if ev.moduleName == "llm" || ev.status == "blocked" {
        status := "completed";
      }
    }
  }

  function Opened(sessionId: string, ev: BastionEvent, mode: string): Summary {
    Summary(sessionId, ev.tenantId, ev.userId, mode, ev.timestamp, ev.timestamp, "active", [])
  }

  function StepOf(ev: BastionEvent, stepId: string, index: nat): Step {
    Step(stepId, index, ev.moduleName, ev.eventType, ev.timestamp, ev.durationMs, ev.status, ev.data, "")
  }

  /** An answer was produced, or the request was blocked. */
  predicate Terminal(ev: BastionEvent) {
    ev.moduleName == "llm" || ev.status == "blocked"
  }

  function Extended(s: Summary, ev: BastionEvent, stepId: string): Summary {
    s.(
      steps := s.steps + [StepOf(ev, stepId, |s.steps|)],
      updatedAt := ev.timestamp,
      status := if Terminal(ev) then "completed" else s.status)
  }

  /** One observed event: its trace, and nothing else, gets one more step. */
  function Observed(
    m: map<string, Summary>, ev: BastionEvent, mode: string, sessionId: string, stepId: string): map<string, Summary>
  {
    if mode == Gate.MODE_OFF then m
    else m[ev.traceId := Extended(if ev.traceId in m then m[ev.traceId] else Opened(sessionId, ev, mode), ev, stepId)]
  }

  class SessionTable {
    var sessions: map<string, Session>
    var byTrace: map<string, Session>
    ghost var Repr: set<Session>

    /** The two indices agree: each record is found under its own ID and its own trace, and nowhere else. */
    ghost predicate Valid()
      reads this
    {
      && (forall id <- sessions :: sessions[id].sessionId == id)
      && (forall id <- sessions :: sessions[id].traceId in byTrace && byTrace[sessions[id].traceId] == sessions[id])
      && (forall t <- byTrace :: byTrace[t].traceId == t && byTrace[t] in Repr)
      && (forall t <- byTrace :: byTrace[t].sessionId in sessions && sessions[byTrace[t].sessionId] == byTrace[t])
    }

    /** The sessions by trace. */
    ghost function Contents(): map<string, Summary>
      requires Valid()
      reads this, Repr
    {
      map t | t in byTrace :: byTrace[t].Value()
    }

    constructor ()
      ensures Valid() && Contents() == map[] && Repr == {}
    {
      sessions, byTrace, Repr := map[], map[], {};
    }

    method ObserveEvent(ev: BastionEvent, mode: string, newSessionId: string, newStepId: string)
      requires Valid() && newSessionId !in sessions
      modifies this, Repr
      ensures Valid() && fresh(Repr - old(Repr))
      ensures Contents() == Observed(old(Contents()), ev, mode, newSessionId, newStepId)
    {
      if mode == Gate.MODE_OFF {
        return;
      }
      if ev.traceId !in byTrace {
        Open(ev, mode, newSessionId);
      }
      Extend(ev, newStepId);
    }

    /** Enters a new record in both maps. */
    method Open(ev: BastionEvent, mode: string, newSessionId: string)
      requires Valid() && newSessionId !in sessions && ev.traceId !in byTrace
      modifies this
      ensures Valid() && fresh(Repr - old(Repr))
      ensures ev.traceId in byTrace
      ensures Contents() == old(Contents())[ev.traceId := Opened(newSessionId, ev, mode)]
    {
      hide Opened;
      var s := new Session(newSessionId, ev, mode);
      sessions := sessions[newSessionId := s];
      byTrace := byTrace[ev.traceId := s];
      Repr := Repr + {s};
    }

    method Extend(ev: BastionEvent, newStepId: string)
      requires Valid() && ev.traceId in byTrace
      modifies Repr
      ensures Valid()
      ensures Contents() == old(Contents())[ev.traceId := Extended(old(Contents())[ev.traceId], ev, newStepId)]
    {
      hide Extended;
      byTrace[ev.traceId].Extend(ev, newStepId);
    }

    /** Removes a record from both maps. */
    method DeleteSession(id: string) returns (found: bool)
      requires Valid()
      modifies this
      ensures Valid()
      ensures found <==> id in old(sessions)
      ensures sessions == old(sessions) - {id}
      ensures Contents() == if found then old(Contents()) - {old(sessions)[id].traceId} else old(Contents())
    {
      found := id in sessions;
      if found {
        var s := sessions[id];
        sessions := sessions - {id};
        byTrace := byTrace - {s.traceId};
      }
    }
  }

  // Whole runs

  datatype Action =
    | Observe(ev: BastionEvent, mode: string, sessionId: string, stepId: string)
    | Delete(traceId: string)

  function Run(actions: seq<Action>): map<string, Summary> {
    if actions == [] then map[]
    else
      var before, a := Run(actions[..|actions| - 1]), actions[|actions| - 1];
      match a
      case Observe(ev, mode, sessionId, stepId) => Observed(before, ev, mode, sessionId, stepId)
      case Delete(t) => before - {t}
  }

  /** A trace's own observations since its session was last deleted. */
  function Since(actions: seq<Action>, t: string): seq<Action> {
    if actions == [] then []
    else
      var before, a := Since(actions[..|actions| - 1], t), actions[|actions| - 1];
      match a
      case Observe(ev, mode, sessionId, stepId) =>
        if ev.traceId == t && mode != "off" then before + [a] else before
      case Delete(u) => if u == t then [] else before
  }

  /** The session is the record of exactly those, numbered from zero, and completed once one is terminal. */
  ghost predicate RecordOf(s: Summary, own: seq<Action>) {
    && own != []
    && (forall a <- own :: a.Observe?)
    && |s.steps| == |own|
    && (forall i :: 0 <= i < |own| ==> RecordedAs(s.steps[i], own[i].ev, own[i].stepId, i))
    && s.sessionId == own[0].sessionId && s.mode == own[0].mode && s.startedAt == own[0].ev.timestamp
    && s.tenantId == own[0].ev.tenantId && s.userId == own[0].ev.userId
    && s.updatedAt == own[|own| - 1].ev.timestamp
    && s.status ==
         if exists a <- own :: a.ev.moduleName == "llm" || a.ev.status == "blocked" then "completed" else "active"
  }

  /** A step repeats its event, under its own number. */
  ghost predicate RecordedAs(step: Step, ev: BastionEvent, stepId: string, index: nat) {
    && step.stepId == stepId && step.stepIndex == index && step.annotation == ""
    && step.moduleName == ev.moduleName && step.eventType == ev.eventType && step.timestamp == ev.timestamp
    && step.durationMs == ev.durationMs && step.status == ev.status && step.data == ev.data
  }

  lemma {:induction false} SessionsAreOwnSteps(actions: seq<Action>, t: string)
    ensures t in Run(actions) <==> Since(actions, t) != []
    ensures t in Run(actions) ==> RecordOf(Run(actions)[t], Since(actions, t))
  {
    if actions != [] {
      var before, a := actions[..|actions| - 1], actions[|actions| - 1];
      SessionsAreOwnSteps(before, t);
      hide RecordOf;
      if a.Observe? && a.mode != Gate.MODE_OFF && a.ev.traceId == t {
        if t in Run(before) {
          RecordsSnoc(Run(before)[t], Since(before, t), a);
        } else {
          RecordsFirst(a);
          assert [] + [a] == [a];
        }
      }
    }
  }

  lemma RecordsSnoc(s: Summary, own: seq<Action>, a: Action)
    requires RecordOf(s, own) && a.Observe?
    ensures RecordOf(Extended(s, a.ev, a.stepId), own + [a])
  {
    var all := own + [a];
    if b :| b in own && Terminal(b.ev) {
      assert b in all;
    }
    assert a in all;
  }

  lemma RecordsFirst(a: Action)
    requires a.Observe?
    ensures RecordOf(Extended(Opened(a.sessionId, a.ev, a.mode), a.ev, a.stepId), [a])
  {
    assert a in [a];
  }
}
