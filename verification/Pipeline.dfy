/**
 * The request pipeline as a concurrent step system. Any number of requests share the limiters,
 * the audit trail and the counters. Every access to shared state, every upstream send and every
 * await point is a step of its own, so the steps of different requests interleave freely. A check
 * carries its own clock reading, and nothing orders the readings of different requests.
 */
module Pipeline {
  import opened Prelude
  import opened Document
  import opened Classify
  import opened Authz
  import opened Auth
  import opened RateLimit
  import opened Proxy

  newtype Byte = x: int | 0 <= x < 256

  type Bytes = seq<Byte>

  /**
   * `parse` stands for JSON decoding and GraphQL parsing of a body, up to the order in which a hash
   * map gives up a document's operations.
   */
  datatype Config = Config(
    authenticator: Authenticator,
    allowAnonymousRead: bool,
    failClosed: bool,
    overrides: seq<Override>,
    auditReads: bool,
    bodyLimit: nat,
    readPerMinute: nat,
    writePerMinute: nat,
    agentManagement: string,
    graphNodeAdmin: Option<string>,
    graphNodeStatus: Option<string>,
    parse: Bytes -> Payload)

  datatype HttpRequest = HttpRequest(
    verb: string, path: string, headers: seq<Header>, clientCert: Option<ClientCert>, sourceIp: string)

  /** A body as it was read, and what this parse of it gave. */
  datatype Received = Received(bytes: Bytes, payload: Payload)

  /** The body is within the limit, and the payload is a parse of it. */
  predicate Acceptable(cfg: Config, body: Received)
  {
    |body.bytes| <= cfg.bodyLimit && Reordered(cfg.parse(body.bytes), body.payload)
  }

  // --- Stages without effects -----------------------------------------------------------

  function AuthenticateRequest(cfg: Config, request: HttpRequest): (r: Result<Principal, AuthError>)
  {
    Authenticate(cfg.authenticator, Credentials(ExtractBearer(request.headers), request.clientCert),
                 cfg.allowAnonymousRead)
  }

  const READ_ONLY: Classification := Classification([], Read)
  const WRITE_ONLY: Classification := Classification([], Write)

  /** GET is a read whatever the route; other admin calls are writes; the rest is classified. */
  function ClassifyRequest(verb: string, target: UpstreamTarget, payload: Payload, failClosed: bool)
    : (r: Result<Classification, ClassifyError>)
  {
    if verb == "GET" then Ok(READ_ONLY)
    else if target == GraphNodeAdmin then Ok(WRITE_ONLY)
    else
      var c := ClassifyPayload(payload);
      if c.Err? && !failClosed then Ok(READ_ONLY) else c
  }

  function ClassifyFor(cfg: Config, request: HttpRequest, payload: Payload)
    : (r: Result<Classification, ClassifyError>)
  {
    ClassifyRequest(request.verb, RouteOf(request.path).target, payload, cfg.failClosed)
  }

  function BaseFor(cfg: Config, target: UpstreamTarget): (r: Option<string>)
  {
    match target
    case AgentManagement => Some(cfg.agentManagement)
    case GraphNodeAdmin => cfg.graphNodeAdmin
    case GraphNodeStatus => cfg.graphNodeStatus
  }

  /** The base URL the request would be forwarded to, if its upstream is configured. */
  function Upstream(cfg: Config, request: HttpRequest): (r: Option<string>)
  {
    BaseFor(cfg, RouteOf(request.path).target)
  }

  // --- Audit records and counters -------------------------------------------------------

  datatype Outcome =
    | Allowed
    | AuthenticationFailed(error: AuthError)
    | ScopeDenied(decision: Decision)
    | BodyRejected(reason: ClassifyError)
    | RateLimited

  datatype AuditRecord = AuditRecord(
    principal: string,
    sourceIp: string,
    scope: Option<Scope>,
    operationName: Option<string>,
    operationKinds: seq<OperationKind>,
    topLevelFields: seq<string>,
    outcome: Outcome,
    upstreamStatus: Option<nat>)

  function FirstOpName(operations: seq<OperationInfo>): (r: Option<string>)
  {
    if operations == [] then None
    else if operations[0].name.Some? then operations[0].name
    else FirstOpName(operations[1..])
  }

  function TopFields(operations: seq<OperationInfo>): (r: seq<string>)
  {
    if operations == [] then [] else operations[0].topLevelFields + TopFields(operations[1..])
  }

  function Kinds(operations: seq<OperationInfo>): (r: seq<OperationKind>)
  {
    seq(|operations|, i requires 0 <= i < |operations| => operations[i].kind)
  }

  function ClassifiedRecord(
    p: Principal, request: HttpRequest, c: Classification, outcome: Outcome, status: Option<nat>)
    : (r: AuditRecord)
  {
    AuditRecord(p.name, request.sourceIp, Some(c.scope), FirstOpName(c.operations), Kinds(c.operations),
                TopFields(c.operations), outcome, status)
  }

  function UnclassifiedRecord(name: string, request: HttpRequest, outcome: Outcome): (r: AuditRecord)
  {
    AuditRecord(name, request.sourceIp, None, None, [], [], outcome, None)
  }

  datatype Labels = Labels(scope: Scope, principal: string, status: nat)

  datatype Counter = AuthFailure | ParseError | AuthzDenied | RateLimitHit | Proxied(labels: Labels)

  datatype Counters = Counters(
    authFailures: nat, parseErrors: nat, authzDenied: nat, rateLimited: nat, requests: multiset<Labels>)

  function Increment(c: Counters, counter: Counter): (r: Counters)
  {
    match counter
    case AuthFailure => c.(authFailures := c.authFailures + 1)
    case ParseError => c.(parseErrors := c.parseErrors + 1)
    case AuthzDenied => c.(authzDenied := c.authzDenied + 1)
    case RateLimitHit => c.(rateLimited := c.rateLimited + 1)
    case Proxied(labels) => c.(requests := c.requests + multiset{labels})
  }

  // --- Actions on what requests share ----------------------------------------------------

  datatype Action =
    | Checked(scope: Scope, principal: string, now: nat, admitted: bool)
    | Sent(verb: string, url: string, headers: seq<Header>, body: Bytes)
    | Count(counter: Counter)
    | Emit(record: AuditRecord)

  datatype Shared = Shared(limits: Limits, audit: seq<AuditRecord>, counters: Counters)

  function Perform(shared: Shared, action: Action): (r: Shared)
  {
    match action
    case Checked(scope, name, now, _) => shared.(limits := CheckRate(shared.limits, scope, name, now).limits)
    case Sent(_, _, _, _) => shared
    case Count(counter) => shared.(counters := Increment(shared.counters, counter))
    case Emit(record) => shared.(audit := shared.audit + [record])
  }

  function PerformAll(shared: Shared, actions: seq<Action>): (r: Shared)
    decreases |actions|
  {
    if actions == [] then shared else PerformAll(Perform(shared, actions[0]), actions[1..])
  }

  function InitialShared(cfg: Config): (r: Shared)
  {
    Shared(InitialLimits(cfg.readPerMinute, cfg.writePerMinute), [], Counters(0, 0, 0, 0, multiset{}))
  }

  // --- How a request can end --------------------------------------------------------------

  /** What a request has been found to be once its body is classified. */
  datatype Session = Session(principal: Principal, body: Received, classification: Classification)

  datatype Fate =
    | AuthFailed(error: AuthError)
    | Oversize(principal: Principal)
    | Unclassified(principal: Principal, body: Received, reason: ClassifyError)
    | Refused(session: Session)
    | Throttled(session: Session, now: nat)
    | Unrouted(session: Session, now: nat)
    | Replied(session: Session, now: nat, reply: nat)
    | Broken(session: Session, now: nat)

  function Status(fate: Fate): (r: nat)
  {
    match fate
    case AuthFailed(_) => 401
    case Oversize(_) => 413
    case Unclassified(_, _, _) => 400
    case Refused(_) => 403
    case Throttled(_, _) => 429
    case Unrouted(_, _) => 404
    case Replied(_, _, reply) => reply
    case Broken(_, _) => 502
  }

  function CheckAction(session: Session, now: nat, admitted: bool): (r: Action)
  {
    Checked(session.classification.scope, session.principal.name, now, admitted)
  }

  /** The request as it goes upstream: routed path, filtered headers, unchanged body. */
  function SendAction(cfg: Config, request: HttpRequest, session: Session): (r: Action)
  {
    var base := Upstream(cfg, request);
    Sent(request.verb, (if base.Some? then base.value else "") + RouteOf(request.path).path,
         ForwardHeaders(request.headers), session.body.bytes)
  }

  function ProxiedAction(session: Session, status: nat): (r: Action)
  {
    Count(Proxied(Labels(session.classification.scope, session.principal.name, status)))
  }

  function EmitClassified(request: HttpRequest, session: Session, outcome: Outcome, status: Option<nat>): (r: Action)
  {
    Emit(ClassifiedRecord(session.principal, request, session.classification, outcome, status))
  }

  /** Everything a request with this fate does to shared state and upstream, in program order. */
  function Script(cfg: Config, request: HttpRequest, fate: Fate): (r: seq<Action>)
  {
    match fate
    case AuthFailed(error) =>
      [Emit(UnclassifiedRecord("-", request, AuthenticationFailed(error))), Count(AuthFailure)]
    case Oversize(_) => []
    case Unclassified(p, _, reason) =>
      [Emit(UnclassifiedRecord(p.name, request, BodyRejected(reason))), Count(ParseError)]
    case Refused(ss) =>
      [EmitClassified(request, ss, ScopeDenied(Decide(ss.principal, ss.classification, cfg.overrides)), None),
       Count(AuthzDenied)]
    case Throttled(ss, now) =>
      [CheckAction(ss, now, false), EmitClassified(request, ss, RateLimited, None), Count(RateLimitHit)]
    case Unrouted(ss, now) =>
      [CheckAction(ss, now, true), ProxiedAction(ss, 404), EmitClassified(request, ss, Allowed, None)]
    case Replied(ss, now, reply) =>
      [CheckAction(ss, now, true), SendAction(cfg, request, ss), ProxiedAction(ss, reply)]
      + if ss.classification.scope == Write || cfg.auditReads
        then [EmitClassified(request, ss, Allowed, Some(reply))] else []
    case Broken(ss, now) =>
      [CheckAction(ss, now, true), SendAction(cfg, request, ss), ProxiedAction(ss, 502),
       EmitClassified(request, ss, Allowed, None)]
  }

  // --- Requests in flight -----------------------------------------------------------------

  /** Where a request's handler stands, with the locals it holds there. */
  datatype Pc =
    | Reading(principal: Principal)
    | Limiting(session: Session)
    | Forwarding(session: Session, now: nat)
    | Awaiting(session: Session, now: nat)
    | Finishing(fate: Fate, done: nat)

  datatype Task = Task(request: HttpRequest, pc: Pc)

  datatype Entry = Entry(id: nat, action: Action)

  /** `trace` records, across all requests, every action in the order it happened. */
  datatype State = State(tasks: map<nat, Task>, shared: Shared, trace: seq<Entry>)

  datatype Event =
    | Arrive(id: nat, request: HttpRequest)
    | ReadBody(id: nat, body: Option<Received>)
    | CheckLimit(id: nat, now: nat)
    | Forward(id: nat)
    | Answer(id: nat, reply: Option<nat>)
    | Act(id: nat)

  function Initial(cfg: Config): (s: State)
  {
    State(map[], InitialShared(cfg), [])
  }

  predicate Enabled(cfg: Config, s: State, e: Event)
  {
    match e
    case Arrive(id, _) => id !in s.tasks
    case ReadBody(id, body) =>
      id in s.tasks && s.tasks[id].pc.Reading? && (body.Some? ==> Acceptable(cfg, body.value))
    case CheckLimit(id, _) => id in s.tasks && s.tasks[id].pc.Limiting?
    case Forward(id) => id in s.tasks && s.tasks[id].pc.Forwarding?
    case Answer(id, _) => id in s.tasks && s.tasks[id].pc.Awaiting?
    case Act(id) =>
      id in s.tasks && s.tasks[id].pc.Finishing?
      && s.tasks[id].pc.done < |Script(cfg, s.tasks[id].request, s.tasks[id].pc.fate)|
  }

  /** Where a step takes its request, and the at most one action it performs. */
  datatype Move = Move(pc: Pc, actions: seq<Action>)

  function OnArrive(cfg: Config, request: HttpRequest): (m: Move)
  {
    match AuthenticateRequest(cfg, request)
    case Ok(p) => Move(Reading(p), [])
    case Err(error) => Move(Finishing(AuthFailed(error), 0), [])
  }

  function OnBody(cfg: Config, request: HttpRequest, p: Principal, body: Option<Received>): (m: Move)
  {
    if body.None? then Move(Finishing(Oversize(p), 0), [])
    else
      match ClassifyFor(cfg, request, body.value.payload)
      case Err(reason) => Move(Finishing(Unclassified(p, body.value, reason), 0), [])
      case Ok(c) =>
        var ss := Session(p, body.value, c);
        if Decide(p, c, cfg.overrides).Granted? then Move(Limiting(ss), []) else Move(Finishing(Refused(ss), 0), [])
  }

  function OnCheck(limits: Limits, ss: Session, now: nat): (m: Move)
  {
    if CheckRate(limits, ss.classification.scope, ss.principal.name, now).admitted
    then Move(Forwarding(ss, now), [CheckAction(ss, now, true)])
    else Move(Finishing(Throttled(ss, now), 1), [CheckAction(ss, now, false)])
  }

  function OnForward(cfg: Config, request: HttpRequest, ss: Session, now: nat): (m: Move)
  {
    if Upstream(cfg, request).None? then Move(Finishing(Unrouted(ss, now), 1), [])
    else Move(Awaiting(ss, now), [SendAction(cfg, request, ss)])
  }

  function OnAnswer(ss: Session, now: nat, reply: Option<nat>): (m: Move)
  {
    match reply
    case Some(status) => Move(Finishing(Replied(ss, now, status), 2), [])
    case None => Move(Finishing(Broken(ss, now), 2), [])
  }

  function MoveOf(cfg: Config, s: State, e: Event): (m: Move)
    requires Enabled(cfg, s, e)
  {
    match e
    case Arrive(_, request) => OnArrive(cfg, request)
    case ReadBody(id, body) => OnBody(cfg, s.tasks[id].request, s.tasks[id].pc.principal, body)
    case CheckLimit(id, now) => OnCheck(s.shared.limits, s.tasks[id].pc.session, now)
    case Forward(id) => OnForward(cfg, s.tasks[id].request, s.tasks[id].pc.session, s.tasks[id].pc.now)
    case Answer(id, reply) => OnAnswer(s.tasks[id].pc.session, s.tasks[id].pc.now, reply)
    case Act(id) =>
      var pc := s.tasks[id].pc;
      Move(Finishing(pc.fate, pc.done + 1), [Script(cfg, s.tasks[id].request, pc.fate)[pc.done]])
  }

  function RequestOf(cfg: Config, s: State, e: Event): (r: HttpRequest)
    requires Enabled(cfg, s, e)
  {
    if e.Arrive? then e.request else s.tasks[e.id].request
  }

  function Entries(id: nat, actions: seq<Action>): (r: seq<Entry>)
  {
    seq(|actions|, i requires 0 <= i < |actions| => Entry(id, actions[i]))
  }

  function Apply(cfg: Config, s: State, e: Event): (t: State)
    requires Enabled(cfg, s, e)
  {
    var m := MoveOf(cfg, s, e);
    State(s.tasks[e.id := Task(RequestOf(cfg, s, e), m.pc)],
          PerformAll(s.shared, m.actions),
          s.trace + Entries(e.id, m.actions))
  }

  /** The state a sequence of steps leads to; `None` if some step was not possible. */
  function Run(cfg: Config, s: State, events: seq<Event>): (r: Option<State>)
    decreases |events|
  {
    if events == [] then Some(s)
    else if !Enabled(cfg, s, events[0]) then None
    else Run(cfg, Apply(cfg, s, events[0]), events[1..])
  }

  /** Some interleaving of requests leads from the initial state to `s`. */
  ghost predicate Reachable(cfg: Config, s: State)
  {
    exists events :: Run(cfg, Initial(cfg), events) == Some(s)
  }
}
