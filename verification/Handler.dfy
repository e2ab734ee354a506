/**
 * The handler as one request runs it from start to end, and its place among the interleavings:
 * every request can be run to its end from wherever it stands, and doing so is this handler.
 */
module Handler {
  import opened Prelude
  import opened Classify
  import opened Authz
  import opened Auth
  import opened RateLimit
  import opened Proxy
  import opened Pipeline
  import opened Criteria
  import opened Invariants
  import opened Theorems

  // --- The fate of a request, given what it waits for ---------------------------------------

  function ResolveAnswer(ss: Session, now: nat, reply: Option<nat>): (r: Fate)
  {
    match reply case Some(status) => Replied(ss, now, status) case None => Broken(ss, now)
  }

  function ResolveForward(cfg: Config, request: HttpRequest, ss: Session, now: nat, reply: Option<nat>): (r: Fate)
  {
    if Upstream(cfg, request).None? then Unrouted(ss, now) else ResolveAnswer(ss, now, reply)
  }

  function ResolveLimit(
    cfg: Config, request: HttpRequest, ss: Session, limits: Limits, now: nat, reply: Option<nat>): (r: Fate)
  {
    if CheckRate(limits, ss.classification.scope, ss.principal.name, now).admitted
    then ResolveForward(cfg, request, ss, now, reply)
    else Throttled(ss, now)
  }

  function ResolveBody(
    cfg: Config, request: HttpRequest, p: Principal, body: Option<Received>, limits: Limits, now: nat,
    reply: Option<nat>)
    : (r: Fate)
  {
    if body.None? then Oversize(p)
    else
      match ClassifyFor(cfg, request, body.value.payload)
      case Err(reason) => Unclassified(p, body.value, reason)
      case Ok(c) =>
        var ss := Session(p, body.value, c);
        if Decide(p, c, cfg.overrides).Granted? then ResolveLimit(cfg, request, ss, limits, now, reply) else Refused(ss)
  }

  function Resolve(
    cfg: Config, request: HttpRequest, body: Option<Received>, limits: Limits, now: nat, reply: Option<nat>): (r: Fate)
  {
    match AuthenticateRequest(cfg, request)
    case Err(error) => AuthFailed(error)
    case Ok(p) => ResolveBody(cfg, request, p, body, limits, now, reply)
  }

  /** The status that a request of principal `p` is answered with, by the first thing against it. */
  ghost function AnswerTo(
    cfg: Config, request: HttpRequest, p: Principal, body: Option<Received>, limits: Limits, now: nat,
    reply: Option<nat>)
    : (status: nat)
  {
    if body.None? then 413
    else
      var payload := body.value.payload;
      if !Admissible(cfg, request, payload) then 400
      else if !Covered(cfg, request, payload, p) then 403
      else if !CheckRate(limits, if IsWrite(request, payload) then Write else Read, p.name, now).admitted then 429
      else if !Configured(cfg, request.path) then 404
      else match reply case Some(status) => status case None => 502
  }

  ghost predicate Answered(
    cfg: Config, request: HttpRequest, body: Option<Received>, limits: Limits, now: nat, reply: Option<nat>,
    status: nat)
  {
    && ((forall p :: !IdentifiedAs(cfg, request, p)) ==> status == 401)
    && forall p :: IdentifiedAs(cfg, request, p) ==>
         status == AnswerTo(cfg, request, p, body, limits, now, reply)
  }

  lemma BodyAnswerMeans(
    cfg: Config, request: HttpRequest, p: Principal, body: Option<Received>, limits: Limits, now: nat,
    reply: Option<nat>)
    ensures Status(ResolveBody(cfg, request, p, body, limits, now, reply))
         == AnswerTo(cfg, request, p, body, limits, now, reply)
  {
    if body.Some? {
      DemandMeans(cfg, request, body.value.payload, "");
      if ClassifyFor(cfg, request, body.value.payload).Ok? {
        CoverMeans(cfg, request, body.value.payload, p);
        UpstreamMeans(cfg, request);
      }
    }
  }

  /** A request is answered by the first thing that its own data, the limiter or its upstream say against it. */
  lemma AnswerMeans(
    cfg: Config, request: HttpRequest, body: Option<Received>, limits: Limits, now: nat, reply: Option<nat>)
    ensures Answered(cfg, request, body, limits, now, reply,
                     Status(Resolve(cfg, request, body, limits, now, reply)))
  {
    UnidentifiedMeans(cfg, request);
    forall p | IdentifiedAs(cfg, request, p)
      ensures Status(Resolve(cfg, request, body, limits, now, reply))
           == AnswerTo(cfg, request, p, body, limits, now, reply)
    {
      IdentifiedMeans(cfg, request, p);
      BodyAnswerMeans(cfg, request, p, body, limits, now, reply);
    }
  }

  // --- The handler as the program runs it -----------------------------------------------------

  class Gateway {
    const cfg: Config
    const limiters: RateLimiters
    var audit: seq<AuditRecord>
    var counters: Counters
    ghost var log: seq<Action>

    ghost predicate Valid()
      reads this, limiters
    {
      Shared(limiters.State(), audit, counters) == PerformAll(InitialShared(cfg), log)
    }

    constructor (cfg: Config)
      ensures Valid() && this.cfg == cfg && log == [] && fresh(limiters)
    {
      this.cfg := cfg;
      limiters := new RateLimiters(cfg.readPerMinute, cfg.writePerMinute);
      audit, counters, log := [], Counters(0, 0, 0, 0, multiset{}), [];
    }

    method EmitRecord(record: AuditRecord)
      requires Valid()
      modifies this
      ensures Valid() && log == old(log) + [Emit(record)]
    {
      PerformAppend(InitialShared(cfg), log, [Emit(record)]);
      audit := audit + [record];
      log := log + [Emit(record)];
    }

    method CountUp(counter: Counter)
      requires Valid()
      modifies this
      ensures Valid() && log == old(log) + [Count(counter)]
    {
      PerformAppend(InitialShared(cfg), log, [Count(counter)]);
      counters := Increment(counters, counter);
      log := log + [Count(counter)];
    }

    method Admit(ss: Session, now: nat) returns (admitted: bool)
      requires Valid()
      modifies this, limiters
      ensures Valid() && log == old(log) + [CheckAction(ss, now, admitted)]
      ensures admitted == CheckRate(old(limiters.State()), ss.classification.scope, ss.principal.name, now).admitted
    {
      admitted := limiters.Check(ss.classification.scope, ss.principal.name, now);
      PerformAppend(InitialShared(cfg), log, [CheckAction(ss, now, admitted)]);
      log := log + [CheckAction(ss, now, admitted)];
    }

    /** The send itself touches nothing shared; `reply` stands for what the upstream makes of it. */
    method SendUpstream(request: HttpRequest, ss: Session, reply: Option<nat>) returns (result: Option<nat>)
      requires Valid() && Upstream(cfg, request).Some?
      modifies this
      ensures Valid() && log == old(log) + [SendAction(cfg, request, ss)] && result == reply
    {
      var headers := FilterForwardHeaders(request.headers);
      var url := Upstream(cfg, request).value + RouteOf(request.path).path;
      var action := Sent(request.verb, url, headers, ss.body.bytes);
      PerformAppend(InitialShared(cfg), log, [action]);
      log := log + [action];
      result := reply;
    }

    /** Classification with the GET, admin and fail-open rules in front of it. */
    method ClassifyIncoming(request: HttpRequest, payload: Payload) returns (r: Result<Classification, ClassifyError>)
      ensures r == ClassifyFor(cfg, request, payload)
    {
      if request.verb == "GET" {
        return Ok(READ_ONLY);
      }
      if RouteOf(request.path).target == GraphNodeAdmin {
        return Ok(WRITE_ONLY);
      }
      r := ClassifyBody(payload);
      if r.Err? && !cfg.failClosed {
        r := Ok(READ_ONLY);
      }
    }

    /** Forward an admitted request, count it and audit it. */
    method ForwardAndAudit(request: HttpRequest, ss: Session, now: nat, reply: Option<nat>) returns (status: nat)
      requires Valid()
      modifies this
      ensures Valid() && old(log) <= log
      ensures var fate := ResolveForward(cfg, request, ss, now, reply);
              status == Status(fate) && [CheckAction(ss, now, true)] + log[|old(log)|..] == Script(cfg, request, fate)
    {
      ghost var before := log;
      var scope, name := ss.classification.scope, ss.principal.name;
      if Upstream(cfg, request).None? {
        status := 404;
        CountUp(Proxied(Labels(scope, name, 404)));
        EmitRecord(ClassifiedRecord(ss.principal, request, ss.classification, Allowed, None));
        assert log == before + [ProxiedAction(ss, 404), EmitClassified(request, ss, Allowed, None)];
        return;
      }
      var result := SendUpstream(request, ss, reply);
      if result.Some? {
        status := result.value;
        CountUp(Proxied(Labels(scope, name, status)));
        if scope == Write || cfg.auditReads {
          EmitRecord(ClassifiedRecord(ss.principal, request, ss.classification, Allowed, Some(status)));
        }
      } else {
        status := 502;
        CountUp(Proxied(Labels(scope, name, 502)));
        EmitRecord(ClassifiedRecord(ss.principal, request, ss.classification, Allowed, None));
      }
    }

    /** From the limiter on. */
    method Limit(request: HttpRequest, ss: Session, now: nat, reply: Option<nat>) returns (status: nat)
      requires Valid()
      modifies this, limiters
      ensures Valid()
      ensures var fate := ResolveLimit(cfg, request, ss, old(limiters.State()), now, reply);
              status == Status(fate) && log == old(log) + Script(cfg, request, fate)
    {
      var admitted := Admit(ss, now);
      if !admitted {
        EmitRecord(ClassifiedRecord(ss.principal, request, ss.classification, RateLimited, None));
        CountUp(RateLimitHit);
        return 429;
      }
      ghost var checked := log;
      status := ForwardAndAudit(request, ss, now, reply);
      assert log == checked + log[|checked|..];
      Associate(old(log), [CheckAction(ss, now, true)], log[|checked|..]);
    }

    /** From the body on. */
    method HandleBody(request: HttpRequest, p: Principal, body: Option<Received>, now: nat, reply: Option<nat>)
      returns (status: nat)
      requires Valid()
      modifies this, limiters
      ensures Valid()
      ensures var fate := ResolveBody(cfg, request, p, body, old(limiters.State()), now, reply);
              status == Status(fate) && log == old(log) + Script(cfg, request, fate)
    {
      if body.None? {
        return 413;
      }
      var classified := ClassifyIncoming(request, body.value.payload);
      if classified.Err? {
        EmitRecord(UnclassifiedRecord(p.name, request, BodyRejected(classified.error)));
        CountUp(ParseError);
        return 400;
      }
      var ss := Session(p, body.value, classified.value);
      var decision := Authorize(p, ss.classification, cfg.overrides);
      if decision.Denied? {
        EmitRecord(ClassifiedRecord(p, request, ss.classification, ScopeDenied(decision), None));
        CountUp(AuthzDenied);
        return 403;
      }
      status := Limit(request, ss, now, reply);
    }

    /**
     * One request from start to end: `body` is what reading the body gives, `now` the clock at
     * the limiter and `reply` the upstream's answer.
     */
    method Handle(request: HttpRequest, body: Option<Received>, now: nat, reply: Option<nat>) returns (status: nat)
      requires Valid()
      modifies this, limiters
      ensures Valid()
      ensures var fate := Resolve(cfg, request, body, old(limiters.State()), now, reply);
              status == Status(fate) && log == old(log) + Script(cfg, request, fate)
      ensures Answered(cfg, request, body, old(limiters.State()), now, reply, status)
    {
      AnswerMeans(cfg, request, body, limiters.State(), now, reply);
      var authenticated := AuthenticateCredentials(
        cfg.authenticator, Credentials(ExtractBearer(request.headers), request.clientCert), cfg.allowAnonymousRead);
      if authenticated.Err? {
        EmitRecord(UnclassifiedRecord("-", request, AuthenticationFailed(authenticated.error)));
        CountUp(AuthFailure);
        return 401;
      }
      status := HandleBody(request, authenticated.value, body, now, reply);
    }
  }

  // --- Among the interleavings -------------------------------------------------------------------

  /** How a request standing at `task` ends if it now runs on alone. */
  function FateFrom(
    cfg: Config, task: Task, body: Option<Received>, limits: Limits, now: nat, reply: Option<nat>): (r: Fate)
  {
    match task.pc
    case Reading(p) => ResolveBody(cfg, task.request, p, body, limits, now, reply)
    case Limiting(ss) => ResolveLimit(cfg, task.request, ss, limits, now, reply)
    case Forwarding(ss, at) => ResolveForward(cfg, task.request, ss, at, reply)
    case Awaiting(ss, at) => ResolveAnswer(ss, at, reply)
    case Finishing(fate, _) => fate
  }

  /** The step a request takes next. */
  function NextEvent(task: Task, id: nat, body: Option<Received>, now: nat, reply: Option<nat>): (e: Event)
  {
    match task.pc
    case Reading(_) => ReadBody(id, body)
    case Limiting(_) => CheckLimit(id, now)
    case Forwarding(_, _) => Forward(id)
    case Awaiting(_, _) => Answer(id, reply)
    case Finishing(_, _) => Act(id)
  }

  function Rank(pc: Pc): (n: nat)
  {
    match pc
    case Reading(_) => 4
    case Limiting(_) => 3
    case Forwarding(_, _) => 2
    case Awaiting(_, _) => 1
    case Finishing(_, _) => 0
  }

  /** The request stands at the end of a script. */
  ghost predicate AtEnd(cfg: Config, task: Task)
  {
    task.pc.Finishing? && task.pc.done == |Script(cfg, task.request, task.pc.fate)|
  }

  /** Steps left in the last stretch. */
  ghost function Left(cfg: Config, task: Task): (n: int)
  {
    if task.pc.Finishing? then |Script(cfg, task.request, task.pc.fate)| - task.pc.done else 0
  }

  /** The step brings the request nearer to its end, and to the same one. */
  ghost predicate Advances(
    cfg: Config, s: State, t: State, id: nat, body: Option<Received>, now: nat, reply: Option<nat>)
    requires id in s.tasks
  {
    && id in t.tasks && t.tasks[id].request == s.tasks[id].request && TaskOk(cfg, t.tasks[id])
    && (Rank(t.tasks[id].pc) < Rank(s.tasks[id].pc)
        || (Rank(t.tasks[id].pc) == Rank(s.tasks[id].pc) && Left(cfg, t.tasks[id]) < Left(cfg, s.tasks[id])))
    && FateFrom(cfg, t.tasks[id], body, t.shared.limits, now, reply)
    == FateFrom(cfg, s.tasks[id], body, s.shared.limits, now, reply)
  }

  ghost predicate MayStep(cfg: Config, s: State, id: nat, body: Option<Received>)
  {
    && id in s.tasks && TaskOk(cfg, s.tasks[id])
    && (body.Some? ==> Acceptable(cfg, body.value))
  }

  lemma AloneBeforeLimit(cfg: Config, s: State, id: nat, body: Option<Received>, now: nat, reply: Option<nat>)
    requires MayStep(cfg, s, id, body) && s.tasks[id].pc.Reading?
    ensures Advances(cfg, s, Apply(cfg, s, ReadBody(id, body)), id, body, now, reply)
  {
    MoveKeeps(cfg, s, ReadBody(id, body));
  }

  lemma AloneAtLimit(cfg: Config, s: State, id: nat, body: Option<Received>, now: nat, reply: Option<nat>)
    requires MayStep(cfg, s, id, body) && s.tasks[id].pc.Limiting?
    ensures Advances(cfg, s, Apply(cfg, s, CheckLimit(id, now)), id, body, now, reply)
  {
    MoveKeeps(cfg, s, CheckLimit(id, now));
  }

  lemma AlonePastLimit(cfg: Config, s: State, id: nat, body: Option<Received>, now: nat, reply: Option<nat>)
    requires MayStep(cfg, s, id, body) && (s.tasks[id].pc.Forwarding? || s.tasks[id].pc.Awaiting?)
    ensures Advances(cfg, s, Apply(cfg, s, NextEvent(s.tasks[id], id, body, now, reply)), id, body, now, reply)
  {
    MoveKeeps(cfg, s, NextEvent(s.tasks[id], id, body, now, reply));
  }

  lemma AloneFinishing(cfg: Config, s: State, id: nat, body: Option<Received>, now: nat, reply: Option<nat>)
    requires MayStep(cfg, s, id, body) && s.tasks[id].pc.Finishing? && !AtEnd(cfg, s.tasks[id])
    ensures Advances(cfg, s, Apply(cfg, s, Act(id)), id, body, now, reply)
  {
    MoveKeeps(cfg, s, Act(id));
  }

  lemma StepAlone(cfg: Config, s: State, id: nat, body: Option<Received>, now: nat, reply: Option<nat>)
    requires MayStep(cfg, s, id, body) && !AtEnd(cfg, s.tasks[id])
    ensures Enabled(cfg, s, NextEvent(s.tasks[id], id, body, now, reply))
    ensures Advances(cfg, s, Apply(cfg, s, NextEvent(s.tasks[id], id, body, now, reply)), id, body, now, reply)
  {
    match s.tasks[id].pc
    case Reading(_) => AloneBeforeLimit(cfg, s, id, body, now, reply);
    case Limiting(_) => AloneAtLimit(cfg, s, id, body, now, reply);
    case Forwarding(_, _) => AlonePastLimit(cfg, s, id, body, now, reply);
    case Awaiting(_, _) => AlonePastLimit(cfg, s, id, body, now, reply);
    case Finishing(_, _) => AloneFinishing(cfg, s, id, body, now, reply);
  }

  /**
   * From wherever it stands, a request can be run to its end without any other taking a step, and
   * its fate is then the one the sequential handler gives it.
   */
  lemma {:induction false} CanFinish(
    cfg: Config, s: State, id: nat, body: Option<Received>, now: nat, reply: Option<nat>)
    returns (events: seq<Event>, t: State)
    requires MayStep(cfg, s, id, body)
    ensures Run(cfg, s, events) == Some(t)
    ensures forall e :: e in events ==> e.id == id
    ensures id in t.tasks && t.tasks[id].request == s.tasks[id].request && AtEnd(cfg, t.tasks[id])
    ensures t.tasks[id].pc.fate == FateFrom(cfg, s.tasks[id], body, s.shared.limits, now, reply)
    decreases Rank(s.tasks[id].pc), Left(cfg, s.tasks[id])
  {
    if AtEnd(cfg, s.tasks[id]) {
      events, t := [], s;
    } else {
      StepAlone(cfg, s, id, body, now, reply);
      var e := NextEvent(s.tasks[id], id, body, now, reply);
      var rest;
      rest, t := CanFinish(cfg, Apply(cfg, s, e), id, body, now, reply);
      events := [e] + rest;
      assert events[1..] == rest;
    }
  }

  lemma {:induction false} RunOn(cfg: Config, s: State, a: seq<Event>, b: seq<Event>)
    requires Run(cfg, s, a).Some?
    ensures Run(cfg, s, a + b) == Run(cfg, Run(cfg, s, a).value, b)
    decreases |a|
  {
    if a == [] {
      assert a + b == b;
    } else {
      Uncons(a, b);
      RunOn(cfg, Apply(cfg, s, a[0]), a[1..], b);
    }
  }

  lemma ReachableOn(cfg: Config, s: State, events: seq<Event>, t: State)
    requires Reachable(cfg, s) && Run(cfg, s, events) == Some(t)
    ensures Reachable(cfg, t)
  {
    var before :| Run(cfg, Initial(cfg), before) == Some(s);
    RunOn(cfg, Initial(cfg), before, events);
  }

  /** The first step of a new request. */
  lemma Arrives(
    cfg: Config, s: State, id: nat, request: HttpRequest, body: Option<Received>, now: nat, reply: Option<nat>)
    requires id !in s.tasks
    ensures var t := Apply(cfg, s, Arrive(id, request));
            && id in t.tasks && TaskOk(cfg, t.tasks[id]) && t.tasks[id].request == request
            && FateFrom(cfg, t.tasks[id], body, t.shared.limits, now, reply)
            == Resolve(cfg, request, body, s.shared.limits, now, reply)
  {
    MoveKeeps(cfg, s, Arrive(id, request));
  }

  /**
   * The sequential handler is one of the interleavings: from every reachable state a new request
   * can be run from start to end on its own, with the fate and the actions of `Gateway.Handle`.
   */
  lemma HandlerIsARun(
    cfg: Config, s: State, id: nat, request: HttpRequest, body: Option<Received>, now: nat, reply: Option<nat>)
    returns (t: State)
    requires Reachable(cfg, s) && id !in s.tasks
    requires body.Some? ==> Acceptable(cfg, body.value)
    ensures Reachable(cfg, t) && id in t.tasks && t.tasks[id].request == request && AtEnd(cfg, t.tasks[id])
    ensures t.tasks[id].pc.fate == Resolve(cfg, request, body, s.shared.limits, now, reply)
    ensures Project(t.trace, id) == Script(cfg, request, Resolve(cfg, request, body, s.shared.limits, now, reply))
  {
    var e := Arrive(id, request);
    Arrives(cfg, s, id, request, body, now, reply);
    var events;
    events, t := CanFinish(cfg, Apply(cfg, s, e), id, body, now, reply);
    assert ([e] + events)[1..] == events;
    ReachableOn(cfg, s, [e] + events, t);
    FinishedFollowedScript(cfg, t, id);
  }
}
