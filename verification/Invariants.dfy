/** What every step of the pipeline keeps. */
module Invariants {
  import opened Prelude
  import opened Authz
  import opened RateLimit
  import opened Pipeline

  // --- What a handler knows where it stands ------------------------------------------------

  /** The session was found for this request: authenticated, within the limit, classified. */
  ghost predicate Found(cfg: Config, request: HttpRequest, ss: Session)
  {
    && AuthenticateRequest(cfg, request) == Ok(ss.principal)
    && Acceptable(cfg, ss.body)
    && ClassifyFor(cfg, request, ss.body.payload) == Ok(ss.classification)
  }

  /** The session was found and its principal may send it. */
  ghost predicate Cleared(cfg: Config, request: HttpRequest, ss: Session)
  {
    Found(cfg, request, ss) && Decide(ss.principal, ss.classification, cfg.overrides).Granted?
  }

  /** The fate is one the request's own data lead to. */
  ghost predicate Justified(cfg: Config, request: HttpRequest, fate: Fate)
  {
    match fate
    case AuthFailed(error) => AuthenticateRequest(cfg, request) == Err(error)
    case Oversize(p) => AuthenticateRequest(cfg, request) == Ok(p)
    case Unclassified(p, body, reason) =>
      && AuthenticateRequest(cfg, request) == Ok(p)
      && Acceptable(cfg, body)
      && ClassifyFor(cfg, request, body.payload) == Err(reason)
    case Refused(ss) => Found(cfg, request, ss) && Decide(ss.principal, ss.classification, cfg.overrides).Denied?
    case Throttled(ss, _) => Cleared(cfg, request, ss)
    case Unrouted(ss, _) => Cleared(cfg, request, ss) && Upstream(cfg, request).None?
    case Replied(ss, _, _) => Cleared(cfg, request, ss) && Upstream(cfg, request).Some?
    case Broken(ss, _) => Cleared(cfg, request, ss) && Upstream(cfg, request).Some?
  }

  ghost predicate TaskOk(cfg: Config, task: Task)
  {
    match task.pc
    case Reading(p) => AuthenticateRequest(cfg, task.request) == Ok(p)
    case Limiting(ss) => Cleared(cfg, task.request, ss)
    case Forwarding(ss, _) => Cleared(cfg, task.request, ss)
    case Awaiting(ss, _) => Cleared(cfg, task.request, ss) && Upstream(cfg, task.request).Some?
    case Finishing(fate, done) =>
      Justified(cfg, task.request, fate) && ReachedEnd(task.pc) && done <= |Script(cfg, task.request, fate)|
  }

  /** A handler enters its last stretch past the check and the send of its script. */
  ghost predicate ReachedEnd(pc: Pc)
    requires pc.Finishing?
  {
    match pc.fate
    case Throttled(_, _) => pc.done >= 1
    case Unrouted(_, _) => pc.done >= 1
    case Replied(_, _, _) => pc.done >= 2
    case Broken(_, _) => pc.done >= 2
    case _ => true
  }

  /** What the handler has done by the time it stands there. */
  ghost function Past(cfg: Config, task: Task): (r: seq<Action>)
    requires TaskOk(cfg, task)
  {
    match task.pc
    case Reading(_) => []
    case Limiting(_) => []
    case Forwarding(ss, now) => [CheckAction(ss, now, true)]
    case Awaiting(ss, now) => [CheckAction(ss, now, true), SendAction(cfg, task.request, ss)]
    case Finishing(fate, done) => Script(cfg, task.request, fate)[..done]
  }

  /** The state of the request a step is about, before the step. */
  ghost predicate BeforeOk(cfg: Config, s: State, e: Event)
  {
    e.id in s.tasks ==> TaskOk(cfg, s.tasks[e.id])
  }

  ghost function PastBefore(cfg: Config, s: State, e: Event): (r: seq<Action>)
    requires BeforeOk(cfg, s, e)
  {
    if e.id in s.tasks then Past(cfg, s.tasks[e.id]) else []
  }

  /** The move leads to a justified place, and its action is the next of the handler's script. */
  ghost predicate Continues(cfg: Config, request: HttpRequest, past: seq<Action>, m: Move)
  {
    && TaskOk(cfg, Task(request, m.pc))
    && Past(cfg, Task(request, m.pc)) == past + m.actions
    && |m.actions| <= 1
  }

  lemma BodyContinues(cfg: Config, request: HttpRequest, p: Principal, body: Option<Received>)
    requires AuthenticateRequest(cfg, request) == Ok(p) && (body.Some? ==> Acceptable(cfg, body.value))
    ensures Continues(cfg, request, [], OnBody(cfg, request, p, body))
  {
  }

  lemma CheckContinues(cfg: Config, request: HttpRequest, limits: Limits, ss: Session, now: nat)
    requires Cleared(cfg, request, ss)
    ensures Continues(cfg, request, [], OnCheck(limits, ss, now))
  {
  }

  lemma ForwardContinues(cfg: Config, request: HttpRequest, ss: Session, now: nat)
    requires Cleared(cfg, request, ss)
    ensures Continues(cfg, request, [CheckAction(ss, now, true)], OnForward(cfg, request, ss, now))
  {
  }

  lemma AnswerContinues(cfg: Config, request: HttpRequest, ss: Session, now: nat, reply: Option<nat>)
    requires Cleared(cfg, request, ss) && Upstream(cfg, request).Some?
    ensures Continues(cfg, request, [CheckAction(ss, now, true), SendAction(cfg, request, ss)],
                      OnAnswer(ss, now, reply))
  {
    var fate := OnAnswer(ss, now, reply).pc.fate;
    ScriptStarts(cfg, request, fate);
    assert Justified(cfg, request, fate);
  }

  lemma ScriptStarts(cfg: Config, request: HttpRequest, fate: Fate)
    requires fate.Replied? || fate.Broken?
    ensures |Script(cfg, request, fate)| >= 3
    ensures Script(cfg, request, fate)[..2]
         == [CheckAction(fate.session, fate.now, true), SendAction(cfg, request, fate.session)]
  {
  }

  lemma ActContinues(cfg: Config, request: HttpRequest, fate: Fate, done: nat)
    requires TaskOk(cfg, Task(request, Finishing(fate, done))) && done < |Script(cfg, request, fate)|
    ensures Continues(cfg, request, Script(cfg, request, fate)[..done],
                      Move(Finishing(fate, done + 1), [Script(cfg, request, fate)[done]]))
  {
    var script := Script(cfg, request, fate);
    assert script[..done + 1] == script[..done] + [script[done]];
  }

  lemma MoveKeeps(cfg: Config, s: State, e: Event)
    requires Enabled(cfg, s, e) && BeforeOk(cfg, s, e)
    ensures Continues(cfg, RequestOf(cfg, s, e), PastBefore(cfg, s, e), MoveOf(cfg, s, e))
  {
    if !e.Arrive? {
      var request, pc := s.tasks[e.id].request, s.tasks[e.id].pc;
      match e
      case ReadBody(_, body) => BodyContinues(cfg, request, pc.principal, body);
      case CheckLimit(_, now) => CheckContinues(cfg, request, s.shared.limits, pc.session, now);
      case Forward(_) => ForwardContinues(cfg, request, pc.session, pc.now);
      case Answer(_, reply) => AnswerContinues(cfg, request, pc.session, pc.now, reply);
      case Act(_) => ActContinues(cfg, request, pc.fate, pc.done);
    }
  }

  // --- The trace, seen from one request ------------------------------------------------------

  /** The actions of one request in the trace, in order. */
  ghost function Project(trace: seq<Entry>, id: nat): (r: seq<Action>)
  {
    if trace == [] then []
    else
      var last := trace[|trace| - 1];
      Project(trace[..|trace| - 1], id) + if last.id == id then [last.action] else []
  }

  lemma ProjectGrows(trace: seq<Entry>, who: nat, actions: seq<Action>, id: nat)
    requires |actions| <= 1
    ensures Project(trace + Entries(who, actions), id)
         == Project(trace, id) + if who == id then actions else []
  {
    if actions == [] {
      assert trace + Entries(who, actions) == trace;
    } else {
      assert trace + Entries(who, actions) == trace + [Entry(who, actions[0])];
      assert (trace + [Entry(who, actions[0])])[..|trace|] == trace;
    }
  }

  lemma {:induction false} ProjectNone(trace: seq<Entry>, id: nat)
    requires forall i :: 0 <= i < |trace| ==> trace[i].id != id
    ensures Project(trace, id) == []
  {
    if trace == [] {
    } else {
      ProjectNone(trace[..|trace| - 1], id);
    }
  }

  /** An entry of the trace shows up in its request's projection. */
  lemma {:induction false} ProjectHas(trace: seq<Entry>, i: nat)
    requires i < |trace|
    ensures trace[i].action in Project(trace, trace[i].id)
  {
    if i < |trace| - 1 {
      ProjectHas(trace[..|trace| - 1], i);
    }
  }

  /** Each request is where its own entries say it is, and each send came after its admission. */
  ghost predicate Inv(cfg: Config, s: State)
  {
    && (forall id :: id in s.tasks ==> TaskOk(cfg, s.tasks[id]) && Project(s.trace, id) == Past(cfg, s.tasks[id]))
    && (forall i :: 0 <= i < |s.trace| ==> s.trace[i].id in s.tasks)
    && (forall i :: 0 <= i < |s.trace| && s.trace[i].action.Sent? ==> SendOk(cfg, s, i))
  }

  /** At the moment of the send, one admission from its own budget was all its request had done. */
  ghost predicate SendOk(cfg: Config, s: State, i: nat)
    requires i < |s.trace|
  {
    s.trace[i].id in s.tasks && exists ss, now :: SentFor(cfg, s.tasks[s.trace[i].id].request, s.trace, i, ss, now)
  }

  ghost predicate SentFor(cfg: Config, request: HttpRequest, trace: seq<Entry>, i: nat, ss: Session, now: nat)
    requires i < |trace|
  {
    && Cleared(cfg, request, ss)
    && Upstream(cfg, request).Some?
    && trace[i].action == SendAction(cfg, request, ss)
    && Project(trace[..i], trace[i].id) == [CheckAction(ss, now, true)]
  }

  lemma StepKeepsProjections(cfg: Config, s: State, e: Event)
    requires Inv(cfg, s) && Enabled(cfg, s, e)
    ensures var t := Apply(cfg, s, e);
            && (forall id :: id in t.tasks ==>
                  TaskOk(cfg, t.tasks[id]) && Project(t.trace, id) == Past(cfg, t.tasks[id]))
            && (forall i :: 0 <= i < |t.trace| ==> t.trace[i].id in t.tasks)
  {
    var m, t := MoveOf(cfg, s, e), Apply(cfg, s, e);
    MoveKeeps(cfg, s, e);
    forall id | id in t.tasks
      ensures TaskOk(cfg, t.tasks[id]) && Project(t.trace, id) == Past(cfg, t.tasks[id])
    {
      ProjectGrows(s.trace, e.id, m.actions, id);
      if id !in s.tasks {
        ProjectNone(s.trace, id);
      }
    }
  }

  /** Past sends stay as they were. */
  lemma SendStays(cfg: Config, s: State, e: Event, i: nat)
    requires Inv(cfg, s) && Enabled(cfg, s, e) && i < |s.trace| && s.trace[i].action.Sent?
    ensures SendOk(cfg, Apply(cfg, s, e), i)
  {
    assert SendOk(cfg, s, i);
    var t, id := Apply(cfg, s, e), s.trace[i].id;
    var ss, now :| SentFor(cfg, s.tasks[id].request, s.trace, i, ss, now);
    assert t.trace[..i] == s.trace[..i] && t.trace[i] == s.trace[i];
    assert SentFor(cfg, t.tasks[id].request, t.trace, i, ss, now);
  }

  /** A new send comes right after its admission. */
  lemma SendIsNew(cfg: Config, s: State, e: Event, i: nat)
    requires Inv(cfg, s) && Enabled(cfg, s, e)
    requires |s.trace| <= i < |Apply(cfg, s, e).trace| && Apply(cfg, s, e).trace[i].action.Sent?
    ensures SendOk(cfg, Apply(cfg, s, e), i)
  {
    var t := Apply(cfg, s, e);
    MoveKeeps(cfg, s, e);
    SendIsForward(cfg, s, e);
    assert t.trace[..i] == s.trace;
    var pc := s.tasks[e.id].pc;
    assert SentFor(cfg, t.tasks[e.id].request, t.trace, i, pc.session, pc.now);
  }

  lemma StepKeepsSends(cfg: Config, s: State, e: Event)
    requires Inv(cfg, s) && Enabled(cfg, s, e)
    ensures forall i :: 0 <= i < |Apply(cfg, s, e).trace| && Apply(cfg, s, e).trace[i].action.Sent? ==>
              SendOk(cfg, Apply(cfg, s, e), i)
  {
    var t := Apply(cfg, s, e);
    forall i | 0 <= i < |t.trace| && t.trace[i].action.Sent?
      ensures SendOk(cfg, t, i)
    {
      if i < |s.trace| {
        SendStays(cfg, s, e, i);
      } else {
        SendIsNew(cfg, s, e, i);
      }
    }
  }

  /** Only the forwarding step sends. */
  lemma SendIsForward(cfg: Config, s: State, e: Event)
    requires Inv(cfg, s) && Enabled(cfg, s, e)
    requires MoveOf(cfg, s, e).actions != [] && MoveOf(cfg, s, e).actions[0].Sent?
    ensures e.Forward? && Upstream(cfg, s.tasks[e.id].request).Some?
    ensures Project(s.trace, e.id) == [CheckAction(s.tasks[e.id].pc.session, s.tasks[e.id].pc.now, true)]
  {
    assert e.Arrive? || TaskOk(cfg, s.tasks[e.id]);
    match e
    case Arrive(_, _) =>
    case ReadBody(_, _) =>
    case CheckLimit(_, _) =>
    case Forward(_) =>
    case Answer(_, _) =>
    case Act(_) => ActedOnce(cfg, s.tasks[e.id]);
  }

  /** A finishing handler has already sent what it sends. */
  lemma ActedOnce(cfg: Config, task: Task)
    requires task.pc.Finishing? && ReachedEnd(task.pc)
    requires task.pc.done < |Script(cfg, task.request, task.pc.fate)|
    ensures !Script(cfg, task.request, task.pc.fate)[task.pc.done].Sent?
    ensures !Script(cfg, task.request, task.pc.fate)[task.pc.done].Checked?
  {
  }

  lemma StepKeepsInv(cfg: Config, s: State, e: Event)
    requires Inv(cfg, s) && Enabled(cfg, s, e)
    ensures Inv(cfg, Apply(cfg, s, e))
  {
    StepKeepsProjections(cfg, s, e);
    StepKeepsSends(cfg, s, e);
  }

  // --- Shared state is what the trace made of it ---------------------------------------------

  ghost function Actions(trace: seq<Entry>): (r: seq<Action>)
    ensures |r| == |trace|
  {
    seq(|trace|, i requires 0 <= i < |trace| => trace[i].action)
  }

  lemma {:induction false} PerformAppend(shared: Shared, a: seq<Action>, b: seq<Action>)
    ensures PerformAll(shared, a + b) == PerformAll(PerformAll(shared, a), b)
    decreases |a|
  {
    if a == [] {
      assert a + b == b;
    } else {
      assert (a + b)[0] == a[0] && (a + b)[1..] == a[1..] + b;
      PerformAppend(Perform(shared, a[0]), a[1..], b);
    }
  }

  /** Limiters, audit trail and counters hold exactly what the traced actions did to them. */
  ghost predicate Ledger(cfg: Config, s: State)
  {
    s.shared == PerformAll(InitialShared(cfg), Actions(s.trace))
  }

  lemma StepKeepsLedger(cfg: Config, s: State, e: Event)
    requires Ledger(cfg, s) && Enabled(cfg, s, e)
    ensures Ledger(cfg, Apply(cfg, s, e))
  {
    var m, t := MoveOf(cfg, s, e), Apply(cfg, s, e);
    assert Actions(t.trace) == Actions(s.trace) + m.actions;
    PerformAppend(InitialShared(cfg), Actions(s.trace), m.actions);
  }

  ghost function CheckIn(action: Action): (r: seq<Check>)
  {
    if action.Checked? then [Check(action.scope, action.principal, action.now)] else []
  }

  ghost function AnswerIn(action: Action): (r: seq<bool>)
  {
    if action.Checked? then [action.admitted] else []
  }

  /** The checks made, in order. */
  ghost function ChecksOf(actions: seq<Action>): (r: seq<Check>)
  {
    if actions == [] then [] else CheckIn(actions[0]) + ChecksOf(actions[1..])
  }

  /** The answers recorded with them. */
  ghost function RecordedAnswers(actions: seq<Action>): (r: seq<bool>)
    ensures |r| == |ChecksOf(actions)|
  {
    if actions == [] then [] else AnswerIn(actions[0]) + RecordedAnswers(actions[1..])
  }

  ghost function EmitIn(action: Action): (r: seq<AuditRecord>)
  {
    if action.Emit? then [action.record] else []
  }

  /** The records emitted, in order. */
  ghost function EmittedBy(actions: seq<Action>): (r: seq<AuditRecord>)
  {
    if actions == [] then [] else EmitIn(actions[0]) + EmittedBy(actions[1..])
  }

  lemma {:induction false} ChecksAppend(a: seq<Action>, b: seq<Action>)
    ensures ChecksOf(a + b) == ChecksOf(a) + ChecksOf(b)
    decreases |a|
  {
    if a == [] {
      assert a + b == b;
    } else {
      ChecksAppend(a[1..], b);
      Uncons(a, b);
      Associate(CheckIn(a[0]), ChecksOf(a[1..]), ChecksOf(b));
    }
  }

  lemma {:induction false} AnswersAppend(a: seq<Action>, b: seq<Action>)
    ensures RecordedAnswers(a + b) == RecordedAnswers(a) + RecordedAnswers(b)
    decreases |a|
  {
    if a == [] {
      assert a + b == b;
    } else {
      AnswersAppend(a[1..], b);
      Uncons(a, b);
      Associate(AnswerIn(a[0]), RecordedAnswers(a[1..]), RecordedAnswers(b));
    }
  }

  /** The limiters are what the checks alone make of them. */
  lemma {:induction false} LimitsLedger(shared: Shared, actions: seq<Action>)
    ensures PerformAll(shared, actions).limits == After(shared.limits, ChecksOf(actions))
    decreases |actions|
  {
    if actions == [] {
    } else {
      var rest := ChecksOf(actions[1..]);
      LimitsLedger(Perform(shared, actions[0]), actions[1..]);
      assert actions[0].Checked? ==> (CheckIn(actions[0]) + rest)[1..] == rest;
      assert !actions[0].Checked? ==> CheckIn(actions[0]) + rest == rest;
    }
  }

  /** The audit trail is what the emits alone make of it. */
  lemma {:induction false} AuditLedger(shared: Shared, actions: seq<Action>)
    ensures PerformAll(shared, actions).audit == shared.audit + EmittedBy(actions)
    decreases |actions|
  {
    if actions == [] {
    } else {
      AuditLedger(Perform(shared, actions[0]), actions[1..]);
      Associate(shared.audit, EmitIn(actions[0]), EmittedBy(actions[1..]));
    }
  }

  /** The recorded answers are the limiters' answers. */
  ghost predicate ChecksHold(limits: Limits, actions: seq<Action>)
  {
    RecordedAnswers(actions) == Answers(limits, ChecksOf(actions))
  }

  ghost predicate ChecksOk(cfg: Config, s: State)
  {
    ChecksHold(InitialLimits(cfg.readPerMinute, cfg.writePerMinute), Actions(s.trace))
  }

  lemma ChecksHoldWith(limits: Limits, actions: seq<Action>, action: Action)
    requires ChecksHold(limits, actions)
    requires action.Checked? ==>
               action.admitted
               == CheckRate(After(limits, ChecksOf(actions)), action.scope, action.principal, action.now).admitted
    ensures ChecksHold(limits, actions + [action])
  {
    ChecksAppend(actions, [action]);
    AnswersAppend(actions, [action]);
    OneCheck(action);
    if action.Checked? {
      AnswerIsVerdict(limits, ChecksOf(actions), CheckIn(action)[0]);
    } else {
      assert ChecksOf(actions + [action]) == ChecksOf(actions);
    }
  }

  lemma CheckKeepsChecks(cfg: Config, s: State, e: Event)
    requires Ledger(cfg, s) && ChecksOk(cfg, s) && Enabled(cfg, s, e) && e.CheckLimit?
    ensures ChecksOk(cfg, Apply(cfg, s, e))
  {
    var action, before := MoveOf(cfg, s, e).actions[0], Actions(s.trace);
    assert Actions(Apply(cfg, s, e).trace) == before + [action];
    LimitsLedger(InitialShared(cfg), before);
    ChecksHoldWith(InitialLimits(cfg.readPerMinute, cfg.writePerMinute), before, action);
  }

  lemma StepKeepsChecks(cfg: Config, s: State, e: Event)
    requires Enabled(cfg, s, e) && BeforeOk(cfg, s, e) && Ledger(cfg, s) && ChecksOk(cfg, s)
    ensures ChecksOk(cfg, Apply(cfg, s, e))
  {
    if e.CheckLimit? {
      CheckKeepsChecks(cfg, s, e);
    } else {
      var m, before := MoveOf(cfg, s, e), Actions(s.trace);
      NoCheckElsewhere(cfg, s, e);
      assert Actions(Apply(cfg, s, e).trace) == before + m.actions;
      MaybeWithout(InitialLimits(cfg.readPerMinute, cfg.writePerMinute), before, m.actions);
    }
  }

  lemma MaybeWithout(limits: Limits, actions: seq<Action>, more: seq<Action>)
    requires ChecksHold(limits, actions) && |more| <= 1 && forall a :: a in more ==> !a.Checked?
    ensures ChecksHold(limits, actions + more)
  {
    if more == [] {
      assert actions + more == actions;
    } else {
      assert more == [more[0]] && more[0] in more;
      ChecksHoldWith(limits, actions, more[0]);
    }
  }

  lemma OneCheck(action: Action)
    ensures ChecksOf([action]) == CheckIn(action) && RecordedAnswers([action]) == AnswerIn(action)
  {
    assert [action][1..] == [];
  }

  lemma AnswerIsVerdict(limits: Limits, run: seq<Check>, check: Check)
    ensures Answers(limits, run + [check])
         == Answers(limits, run) + [CheckRate(After(limits, run), check.scope, check.key, check.now).admitted]
  {
    RunAppend(limits, run, [check]);
    assert [check][1..] == [];
  }

  lemma NoCheckElsewhere(cfg: Config, s: State, e: Event)
    requires Enabled(cfg, s, e) && BeforeOk(cfg, s, e) && !e.CheckLimit?
    ensures |MoveOf(cfg, s, e).actions| <= 1
    ensures forall a :: a in MoveOf(cfg, s, e).actions ==> !a.Checked?
  {
    if e.Act? {
      ActedOnce(cfg, s.tasks[e.id]);
    }
  }

  // --- Conservation -----------------------------------------------------------------------------

  ghost predicate HasCount(actions: seq<Action>)
  {
    exists i :: 0 <= i < |actions| && actions[i].Count?
  }

  /** The request has not been counted yet. */
  ghost predicate Uncounted(cfg: Config, task: Task)
  {
    task.pc.Finishing? ==>
      var script := Script(cfg, task.request, task.pc.fate);
      task.pc.done <= |script| && HasCount(script[task.pc.done..])
  }

  ghost predicate IsOversize(task: Task)
  {
    task.pc.Finishing? && task.pc.fate.Oversize?
  }

  ghost function Those(tasks: map<nat, Task>, p: Task -> bool): (r: set<nat>)
  {
    set id | id in tasks && p(tasks[id])
  }

  ghost function Tally(tasks: map<nat, Task>, p: Task -> bool): (n: nat)
  {
    |Those(tasks, p)|
  }

  ghost function InFlight(cfg: Config, s: State): (n: nat)
  {
    Tally(s.tasks, IsUncounted(cfg))
  }

  ghost function IsUncounted(cfg: Config): (p: Task -> bool)
  {
    (task: Task) => Uncounted(cfg, task)
  }

  ghost function OversizeBodies(s: State): (n: nat)
  {
    Tally(s.tasks, IsOversize)
  }

  ghost function Total(c: Counters): (n: nat)
  {
    c.authFailures + c.parseErrors + c.authzDenied + c.rateLimited + |c.requests|
  }

  /** Every request that ever started is in flight, ended on its body, or counted exactly once. */
  ghost predicate Conserved(cfg: Config, s: State)
  {
    |s.tasks| == InFlight(cfg, s) + OversizeBodies(s) + Total(s.shared.counters)
  }

  ghost function One(b: bool): (n: nat)
  {
    if b then 1 else 0
  }

  lemma TallyUpdate(tasks: map<nat, Task>, id: nat, task: Task, p: Task -> bool)
    ensures Tally(tasks[id := task], p)
         == Tally(tasks, p) + One(p(task)) - One(id in tasks && p(tasks[id]))
  {
    var updated := tasks[id := task];
    var before, after := Those(tasks, p), Those(updated, p);
    forall x
      ensures x in before - {id} <==> x in after - {id}
    {
      assert x != id ==> (x in updated <==> x in tasks) && (x in tasks ==> updated[x] == tasks[x]);
    }
    assert before - {id} == after - {id};
    Cardinality(before, id);
    Cardinality(after, id);
  }

  lemma Cardinality(s: set<nat>, id: nat)
    ensures |s| == |s - {id}| + One(id in s)
  {
    assert id in s ==> s == (s - {id}) + {id};
    assert id !in s ==> s == s - {id};
  }

  lemma TallyNone(p: Task -> bool)
    ensures Tally(map[], p) == 0
  {
    var none: map<nat, Task> := map[];
    assert Those(none, p) <= none.Keys;
  }

  lemma CountersMove(shared: Shared, actions: seq<Action>)
    requires |actions| <= 1
    ensures Total(PerformAll(shared, actions).counters)
         == Total(shared.counters) + One(actions != [] && actions[0].Count?)
  {
    if actions != [] {
      assert PerformAll(shared, actions) == Perform(shared, actions[0]);
    }
  }

  /** In flight or ended on its body: not, or never to be, counted. */
  ghost function Weight(cfg: Config, task: Task): (n: nat)
  {
    One(Uncounted(cfg, task)) + One(IsOversize(task))
  }

  lemma WeightMeans(cfg: Config, task: Task)
    requires TaskOk(cfg, task)
    ensures Weight(cfg, task)
         == One(task.pc.Finishing? ==> task.pc.fate.Oversize? || task.pc.done <= CountAt(task.pc.fate))
  {
    if task.pc.Finishing? {
      CountedOnce(cfg, task.request, task.pc.fate, task.pc.done);
    }
  }

  /** A step counts its request exactly when it takes it out of flight other than by its body. */
  lemma StepWeighs(cfg: Config, s: State, e: Event)
    requires Enabled(cfg, s, e) && BeforeOk(cfg, s, e)
    ensures Weight(cfg, Apply(cfg, s, e).tasks[e.id]) + Total(Apply(cfg, s, e).shared.counters)
         == (if e.id in s.tasks then Weight(cfg, s.tasks[e.id]) else 1) + Total(s.shared.counters)
  {
    var m, t := MoveOf(cfg, s, e), Apply(cfg, s, e);
    MoveKeeps(cfg, s, e);
    CountersMove(s.shared, m.actions);
    WeightMeans(cfg, t.tasks[e.id]);
    if !e.Arrive? {
      WeightMeans(cfg, s.tasks[e.id]);
    }
    if e.Act? {
      CountedOnce(cfg, s.tasks[e.id].request, s.tasks[e.id].pc.fate, s.tasks[e.id].pc.done);
    }
  }

  /** What is left of a script still counts, unless its one count action lies behind. */
  lemma CountedOnce(cfg: Config, request: HttpRequest, fate: Fate, done: nat)
    requires done <= |Script(cfg, request, fate)|
    ensures HasCount(Script(cfg, request, fate)[done..]) <==> !fate.Oversize? && done <= CountAt(fate)
    ensures forall i :: 0 <= i < |Script(cfg, request, fate)| ==>
              (Script(cfg, request, fate)[i].Count? <==> i == CountAt(fate))
  {
    var script := Script(cfg, request, fate);
    assert forall i :: 0 <= i < |script| ==> (script[i].Count? <==> i == CountAt(fate));
    if !fate.Oversize? && done <= CountAt(fate) {
      assert script[done..][CountAt(fate) - done].Count?;
    }
  }

  /** Where in its script a request is counted. */
  ghost function CountAt(fate: Fate): (n: nat)
  {
    match fate
    case AuthFailed(_) => 1
    case Oversize(_) => 0
    case Unclassified(_, _, _) => 1
    case Refused(_) => 1
    case Throttled(_, _) => 2
    case Unrouted(_, _) => 1
    case Replied(_, _, _) => 2
    case Broken(_, _) => 2
  }

  lemma TalliesMove(cfg: Config, tasks: map<nat, Task>, id: nat, task: Task)
    ensures var tasks' := tasks[id := task];
            && Tally(tasks', IsUncounted(cfg)) + Tally(tasks', IsOversize)
            == Tally(tasks, IsUncounted(cfg)) + Tally(tasks, IsOversize)
               + Weight(cfg, task) - (if id in tasks then Weight(cfg, tasks[id]) else 0)
            && |tasks'| == |tasks| + One(id !in tasks)
  {
    TallyUpdate(tasks, id, task, IsUncounted(cfg));
    TallyUpdate(tasks, id, task, IsOversize);
    assert tasks[id := task].Keys == tasks.Keys + {id};
    assert |tasks[id := task]| == |tasks.Keys + {id}|;
  }

  lemma StepConserves(cfg: Config, s: State, e: Event)
    requires Inv(cfg, s) && Conserved(cfg, s) && Enabled(cfg, s, e)
    ensures Conserved(cfg, Apply(cfg, s, e))
  {
    var t := Apply(cfg, s, e);
    StepWeighs(cfg, s, e);
    TalliesMove(cfg, s.tasks, e.id, t.tasks[e.id]);
  }

  // --- Each counter by itself ------------------------------------------------------------------

  ghost function Value(c: Counters, counter: Counter): (n: nat)
  {
    match counter
    case AuthFailure => c.authFailures
    case ParseError => c.parseErrors
    case AuthzDenied => c.authzDenied
    case RateLimitHit => c.rateLimited
    case Proxied(labels) => c.requests[labels]
  }

  /** The counter a request that does not end on its body is counted under. */
  ghost function CounterOf(fate: Fate): (r: Counter)
    requires !fate.Oversize?
  {
    match fate
    case AuthFailed(_) => AuthFailure
    case Unclassified(_, _, _) => ParseError
    case Refused(_) => AuthzDenied
    case Throttled(_, _) => RateLimitHit
    case Unrouted(ss, _) => Proxied(Labels(ss.classification.scope, ss.principal.name, 404))
    case Replied(ss, _, reply) => Proxied(Labels(ss.classification.scope, ss.principal.name, reply))
    case Broken(ss, _) => Proxied(Labels(ss.classification.scope, ss.principal.name, 502))
  }

  /** The request has been counted, under this counter. */
  ghost predicate CountedAs(task: Task, counter: Counter)
  {
    && task.pc.Finishing? && !task.pc.fate.Oversize?
    && task.pc.done > CountAt(task.pc.fate) && CounterOf(task.pc.fate) == counter
  }

  ghost function IsCountedAs(counter: Counter): (p: Task -> bool)
  {
    (task: Task) => CountedAs(task, counter)
  }

  /** Every counter, label by label, is the number of requests counted under it. */
  ghost predicate CountsExact(s: State)
  {
    forall counter :: Value(s.shared.counters, counter) == Tally(s.tasks, IsCountedAs(counter))
  }

  lemma ValueMoves(shared: Shared, actions: seq<Action>, counter: Counter)
    requires |actions| <= 1
    ensures Value(PerformAll(shared, actions).counters, counter)
         == Value(shared.counters, counter) + One(actions != [] && actions[0] == Count(counter))
  {
    if actions != [] {
      assert PerformAll(shared, actions) == Perform(shared, actions[0]);
    }
  }

  lemma CountsUnderItsCounter(cfg: Config, request: HttpRequest, fate: Fate)
    requires !fate.Oversize?
    ensures CountAt(fate) < |Script(cfg, request, fate)|
    ensures Script(cfg, request, fate)[CountAt(fate)] == Count(CounterOf(fate))
  {
  }

  /** The action at a script's count takes its request under that counter, and no other action does. */
  lemma ActCounts(cfg: Config, request: HttpRequest, fate: Fate, done: nat, counter: Counter)
    requires done < |Script(cfg, request, fate)|
    ensures One(CountedAs(Task(request, Finishing(fate, done + 1)), counter))
         == One(CountedAs(Task(request, Finishing(fate, done)), counter))
            + One(Script(cfg, request, fate)[done] == Count(counter))
  {
    CountedOnce(cfg, request, fate, done);
    if !fate.Oversize? {
      CountsUnderItsCounter(cfg, request, fate);
    }
  }

  /** Other steps count nothing, and leave their request uncounted. */
  lemma OthersCountNothing(cfg: Config, s: State, e: Event, counter: Counter)
    requires Enabled(cfg, s, e) && !e.Act?
    ensures !CountedAs(Task(RequestOf(cfg, s, e), MoveOf(cfg, s, e).pc), counter)
    ensures e.id in s.tasks ==> !CountedAs(s.tasks[e.id], counter)
    ensures |MoveOf(cfg, s, e).actions| <= 1
    ensures MoveOf(cfg, s, e).actions != [] ==> !MoveOf(cfg, s, e).actions[0].Count?
  {
  }

  lemma StepCounts(cfg: Config, s: State, e: Event, counter: Counter)
    requires Enabled(cfg, s, e)
    ensures Value(Apply(cfg, s, e).shared.counters, counter)
         == Value(s.shared.counters, counter) + One(CountedAs(Apply(cfg, s, e).tasks[e.id], counter))
            - One(e.id in s.tasks && CountedAs(s.tasks[e.id], counter))
  {
    if e.Act? {
      ActCounts(cfg, s.tasks[e.id].request, s.tasks[e.id].pc.fate, s.tasks[e.id].pc.done, counter);
    } else {
      OthersCountNothing(cfg, s, e, counter);
    }
    ValueMoves(s.shared, MoveOf(cfg, s, e).actions, counter);
  }

  lemma StepKeepsCounts(cfg: Config, s: State, e: Event)
    requires Inv(cfg, s) && CountsExact(s) && Enabled(cfg, s, e)
    ensures CountsExact(Apply(cfg, s, e))
  {
    var t := Apply(cfg, s, e);
    forall counter
      ensures Value(t.shared.counters, counter) == Tally(t.tasks, IsCountedAs(counter))
    {
      StepCounts(cfg, s, e, counter);
      TallyUpdate(s.tasks, e.id, t.tasks[e.id], IsCountedAs(counter));
    }
  }

  // --- Every run ----------------------------------------------------------------------------------

  ghost predicate Good(cfg: Config, s: State)
  {
    Inv(cfg, s) && Ledger(cfg, s) && ChecksOk(cfg, s) && Conserved(cfg, s) && CountsExact(s)
  }

  lemma {:induction false} RunKeepsGood(cfg: Config, s: State, events: seq<Event>)
    requires Good(cfg, s) && Run(cfg, s, events).Some?
    ensures Good(cfg, Run(cfg, s, events).value)
    decreases |events|
  {
    if events == [] {
    } else {
      StepKeepsInv(cfg, s, events[0]);
      StepKeepsLedger(cfg, s, events[0]);
      StepKeepsChecks(cfg, s, events[0]);
      StepConserves(cfg, s, events[0]);
      StepKeepsCounts(cfg, s, events[0]);
      RunKeepsGood(cfg, Apply(cfg, s, events[0]), events[1..]);
    }
  }

  lemma ReachableIsGood(cfg: Config, s: State)
    requires Reachable(cfg, s)
    ensures Good(cfg, s)
  {
    var events :| Run(cfg, Initial(cfg), events) == Some(s);
    var start := Initial(cfg);
    TallyNone(IsUncounted(cfg));
    TallyNone(IsOversize);
    forall counter
      ensures Value(start.shared.counters, counter) == Tally(start.tasks, IsCountedAs(counter))
    {
      TallyNone(IsCountedAs(counter));
    }
    assert Actions(start.trace) == [];
    assert Good(cfg, start);
    RunKeepsGood(cfg, start, events);
  }

  lemma ReachableTask(cfg: Config, s: State, id: nat)
    requires Reachable(cfg, s) && id in s.tasks
    ensures TaskOk(cfg, s.tasks[id]) && Project(s.trace, id) == Past(cfg, s.tasks[id])
  {
    ReachableIsGood(cfg, s);
  }

  lemma ReachableSend(cfg: Config, s: State, i: nat)
    requires Reachable(cfg, s) && i < |s.trace| && s.trace[i].action.Sent?
    ensures SendOk(cfg, s, i)
  {
    ReachableIsGood(cfg, s);
  }

  lemma ReachableLedger(cfg: Config, s: State)
    requires Reachable(cfg, s)
    ensures Ledger(cfg, s)
  {
    ReachableIsGood(cfg, s);
  }

  lemma ReachableChecks(cfg: Config, s: State)
    requires Reachable(cfg, s)
    ensures ChecksOk(cfg, s)
  {
    ReachableIsGood(cfg, s);
  }

  lemma ReachableCounts(cfg: Config, s: State)
    requires Reachable(cfg, s)
    ensures CountsExact(s)
  {
    ReachableIsGood(cfg, s);
  }

  lemma ReachableConserved(cfg: Config, s: State)
    requires Reachable(cfg, s)
    ensures Conserved(cfg, s)
  {
    ReachableIsGood(cfg, s);
  }
}
