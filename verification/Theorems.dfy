/** What holds of every reachable state of the pipeline, whatever the interleaving. */
module Theorems {
  import opened Prelude
  import opened Document
  import opened Execution
  import opened Classify
  import opened Authz
  import opened AuthzLaws
  import opened RateLimit
  import opened Proxy
  import opened Pipeline
  import opened Criteria
  import opened Invariants

  // --- Every request does what the sequential handler does --------------------------------

  /** The actions of a finished request, picked out of the trace, are its handler's script. */
  lemma FinishedFollowedScript(cfg: Config, s: State, id: nat)
    requires Reachable(cfg, s) && id in s.tasks && s.tasks[id].pc.Finishing?
    requires s.tasks[id].pc.done == |Script(cfg, s.tasks[id].request, s.tasks[id].pc.fate)|
    ensures Justified(cfg, s.tasks[id].request, s.tasks[id].pc.fate)
    ensures Project(s.trace, id) == Script(cfg, s.tasks[id].request, s.tasks[id].pc.fate)
  {
    ReachableTask(cfg, s, id);
    var script := Script(cfg, s.tasks[id].request, s.tasks[id].pc.fate);
    assert script[..|script|] == script;
  }

  /** The request's own data lead to this end. */
  ghost predicate Due(cfg: Config, request: HttpRequest, fate: Fate)
  {
    match fate
    case AuthFailed(_) => forall p :: !IdentifiedAs(cfg, request, p)
    case Oversize(p) => IdentifiedAs(cfg, request, p)
    case Unclassified(p, body, _) => IdentifiedAs(cfg, request, p) && !Admissible(cfg, request, body.payload)
    case Refused(ss) =>
      && IdentifiedAs(cfg, request, ss.principal) && Admissible(cfg, request, ss.body.payload)
      && !Covered(cfg, request, ss.body.payload, ss.principal)
    case Throttled(ss, _) => Passed(cfg, request, ss)
    case Unrouted(ss, _) => Passed(cfg, request, ss) && !Configured(cfg, request.path)
    case Replied(ss, _, _) => Passed(cfg, request, ss) && Configured(cfg, request.path)
    case Broken(ss, _) => Passed(cfg, request, ss) && Configured(cfg, request.path)
  }

  ghost predicate Passed(cfg: Config, request: HttpRequest, ss: Session)
  {
    && IdentifiedAs(cfg, request, ss.principal) && Admissible(cfg, request, ss.body.payload)
    && Covered(cfg, request, ss.body.payload, ss.principal)
  }

  lemma FoundMeans(cfg: Config, request: HttpRequest, ss: Session)
    requires Found(cfg, request, ss)
    ensures IdentifiedAs(cfg, request, ss.principal) && Admissible(cfg, request, ss.body.payload)
    ensures Decide(ss.principal, ss.classification, cfg.overrides).Granted?
       <==> Covered(cfg, request, ss.body.payload, ss.principal)
  {
    IdentifiedMeans(cfg, request, ss.principal);
    DemandMeans(cfg, request, ss.body.payload, "");
    CoverMeans(cfg, request, ss.body.payload, ss.principal);
  }

  /**
   * However requests interleave, a request ends as its own data demand: refused as nobody's, as
   * inadmissible or as uncovered only if it is that, and past the limiter unrouted exactly when
   * its own upstream is not configured.
   */
  lemma EveryEndIsDue(cfg: Config, s: State, id: nat)
    requires Reachable(cfg, s) && id in s.tasks && s.tasks[id].pc.Finishing?
    ensures Due(cfg, s.tasks[id].request, s.tasks[id].pc.fate)
  {
    ReachableTask(cfg, s, id);
    var request, fate := s.tasks[id].request, s.tasks[id].pc.fate;
    UnidentifiedMeans(cfg, request);
    UpstreamMeans(cfg, request);
    match fate
    case AuthFailed(_) =>
    case Oversize(p) => IdentifiedMeans(cfg, request, p);
    case Unclassified(p, body, _) =>
      IdentifiedMeans(cfg, request, p);
      DemandMeans(cfg, request, body.payload, "");
    case _ => FoundMeans(cfg, request, fate.session);
  }

  // --- Sends ----------------------------------------------------------------------------------

  /** The session of a send, and the check before it. */
  lemma SendHasSession(cfg: Config, s: State, i: nat) returns (ss: Session, now: nat)
    requires Reachable(cfg, s) && i < |s.trace| && s.trace[i].action.Sent?
    ensures s.trace[i].id in s.tasks && SentFor(cfg, s.tasks[s.trace[i].id].request, s.trace, i, ss, now)
  {
    ReachableSend(cfg, s, i);
    ss, now :| SentFor(cfg, s.tasks[s.trace[i].id].request, s.trace, i, ss, now);
  }

  /**
   * Every upstream send belongs to a request that is its principal's, may be sent, and calls for
   * nothing the principal does not hold; one admission from its own (scope, principal) budget was
   * all the request had done by then.
   */
  lemma EverySendIsCleared(cfg: Config, s: State, i: nat) returns (p: Principal, payload: Payload, now: nat)
    requires Reachable(cfg, s) && i < |s.trace| && s.trace[i].action.Sent?
    ensures s.trace[i].id in s.tasks
    ensures var request, sent := s.tasks[s.trace[i].id].request, s.trace[i].action;
            && Reordered(cfg.parse(sent.body), payload) && |sent.body| <= cfg.bodyLimit
            && IdentifiedAs(cfg, request, p)
            && Admissible(cfg, request, payload)
            && Covered(cfg, request, payload, p)
            && Project(s.trace[..i], s.trace[i].id)
            == [Checked(if IsWrite(request, payload) then Write else Read, p.name, now, true)]
  {
    var ss;
    ss, now := SendHasSession(cfg, s, i);
    p, payload := ss.principal, ss.body.payload;
    var request := s.tasks[s.trace[i].id].request;
    IdentifiedMeans(cfg, request, p);
    DemandMeans(cfg, request, payload, "");
    CoverMeans(cfg, request, payload, p);
  }

  /**
   * Every upstream send goes to the upstream of its path, at the path with the prefix cut off, by
   * the same verb and with every header but the ten that are withheld.
   */
  lemma EverySendIsRouted(cfg: Config, s: State, i: nat)
    requires Reachable(cfg, s) && i < |s.trace| && s.trace[i].action.Sent?
    ensures s.trace[i].id in s.tasks
    ensures var request, sent := s.tasks[s.trace[i].id].request, s.trace[i].action;
            && GoesTo(cfg, request.path, sent.url)
            && sent.verb == request.verb
            && forall name ::
                 ValuesOf(sent.headers, name)
                 == if name in {"authorization", "host", "connection", "keep-alive", "proxy-authenticate",
                                "proxy-authorization", "te", "trailer", "transfer-encoding", "upgrade"}
                    then [] else ValuesOf(request.headers, name)
  {
    var ss, now := SendHasSession(cfg, s, i);
    var request := s.tasks[s.trace[i].id].request;
    UpstreamMeans(cfg, request);
    forall name
      ensures ValuesOf(ForwardHeaders(request.headers), name)
           == if name in {"authorization", "host", "connection", "keep-alive", "proxy-authenticate",
                          "proxy-authorization", "te", "trailer", "transfer-encoding", "upgrade"}
              then [] else ValuesOf(request.headers, name)
    {
      ForwardedValues(request.headers, name);
    }
  }

  /** No request is sent twice. */
  lemma NoRequestSentTwice(cfg: Config, s: State, i: nat, j: nat)
    requires Reachable(cfg, s) && i < j < |s.trace|
    requires s.trace[i].action.Sent? && s.trace[j].action.Sent?
    ensures s.trace[i].id != s.trace[j].id
  {
    var ss, now := SendHasSession(cfg, s, j);
    assert s.trace[..j][i] == s.trace[i];
    ProjectHas(s.trace[..j], i);
  }

  /**
   * End to end: when a body that is not a GET and not an admin call classifies and is sent, the
   * principal covers every operation a GraphQL server would pick from it and execute.
   */
  lemma SentBodiesAreCovered(cfg: Config, s: State, i: nat, request: Request, op: Operation) returns (p: Principal)
    requires Reachable(cfg, s) && i < |s.trace| && s.trace[i].action.Sent? && s.trace[i].id in s.tasks
    requires var http := s.tasks[s.trace[i].id].request;
             http.verb != "GET" && !UnderSegment(http.path, "/_admin")
    requires ClassifyPayload(cfg.parse(s.trace[i].action.body)).Ok?
    requires request in RequestsOf(cfg.parse(s.trace[i].action.body)) && request.query.Ok?
    requires GetOperation(request.query.value, request.operationName) == Some(op)
    ensures IdentifiedAs(cfg, s.tasks[s.trace[i].id].request, p)
    ensures CoversExecution(p, op, request.query.value.fragments, cfg.overrides)
  {
    var ss, now := SendHasSession(cfg, s, i);
    p := ss.principal;
    IdentifiedMeans(cfg, s.tasks[s.trace[i].id].request, p);
    RouteMeans(s.tasks[s.trace[i].id].request.path);
    ReparsingDecidesTheSame(p, cfg.parse(ss.body.bytes), ss.body.payload, cfg.overrides);
    GrantCoversExecution(p, RequestsOf(cfg.parse(ss.body.bytes)), cfg.overrides, request, op);
  }

  /** Admin calls are sent for writers only, except by GET. */
  lemma SentAdminCallsAreWrites(cfg: Config, s: State, i: nat) returns (p: Principal)
    requires Reachable(cfg, s) && i < |s.trace| && s.trace[i].action.Sent? && s.trace[i].id in s.tasks
    requires var http := s.tasks[s.trace[i].id].request;
             http.verb != "GET" && UnderSegment(http.path, "/_admin")
    ensures IdentifiedAs(cfg, s.tasks[s.trace[i].id].request, p) && "write" in p.scopes
  {
    var payload, now;
    p, payload, now := EverySendIsCleared(cfg, s, i);
    assert Demanded(cfg, s.tasks[s.trace[i].id].request, payload, "write");
  }

  // --- Rate limiting ----------------------------------------------------------------------------

  /** The action admits a request of one (scope, principal) at a time from `from` to `until`. */
  ghost predicate AdmitsIn(action: Action, scope: Scope, name: string, from: nat, until: nat)
  {
    && action.Checked? && action.scope == scope && action.principal == name
    && action.admitted && from <= action.now <= until
  }

  /** Requests so admitted. */
  ghost function AdmittedIds(trace: seq<Entry>, scope: Scope, name: string, from: nat, until: nat): (r: set<nat>)
  {
    set e | e in trace && AdmitsIn(e.action, scope, name, from, until) :: e.id
  }

  /** Those of them that were sent upstream. */
  ghost function SentIds(trace: seq<Entry>, scope: Scope, name: string, from: nat, until: nat): (r: set<nat>)
  {
    set e | e in trace && e.action.Sent? && e.id in AdmittedIds(trace, scope, name, from, until) :: e.id
  }

  lemma AdmissionsCons(
    action: Action, actions: seq<Action>, scope: Scope, name: string, from: nat, until: nat)
    ensures Admissions(ChecksOf([action] + actions), RecordedAnswers([action] + actions), scope, name, from, until)
         == One(AdmitsIn(action, scope, name, from, until))
            + Admissions(ChecksOf(actions), RecordedAnswers(actions), scope, name, from, until)
  {
    assert ([action] + actions)[1..] == actions;
    if action.Checked? {
      assert ChecksOf([action] + actions)[1..] == ChecksOf(actions);
      assert RecordedAnswers([action] + actions)[1..] == RecordedAnswers(actions);
    } else {
      assert ChecksOf([action] + actions) == ChecksOf(actions);
      assert RecordedAnswers([action] + actions) == RecordedAnswers(actions);
    }
  }

  lemma AdmittedIdsCons(head: Entry, rest: seq<Entry>, scope: Scope, name: string, from: nat, until: nat)
    ensures |AdmittedIds([head] + rest, scope, name, from, until)|
         <= One(AdmitsIn(head.action, scope, name, from, until)) + |AdmittedIds(rest, scope, name, from, until)|
  {
    var later := AdmittedIds(rest, scope, name, from, until);
    assert AdmittedIds([head] + rest, scope, name, from, until)
        == (if AdmitsIn(head.action, scope, name, from, until) then {head.id} else {}) + later;
  }

  lemma {:induction false} AdmittedAreCounted(trace: seq<Entry>, scope: Scope, name: string, from: nat, until: nat)
    ensures var actions := Actions(trace);
            |AdmittedIds(trace, scope, name, from, until)|
            <= Admissions(ChecksOf(actions), RecordedAnswers(actions), scope, name, from, until)
  {
    if trace == [] {
      assert AdmittedIds(trace, scope, name, from, until) == {};
    } else {
      var head, rest := trace[0], trace[1..];
      AdmittedAreCounted(rest, scope, name, from, until);
      AdmittedIdsCons(head, rest, scope, name, from, until);
      AdmissionsCons(head.action, Actions(rest), scope, name, from, until);
      assert trace == [head] + rest && Actions(trace) == [head.action] + Actions(rest);
    }
  }

  /**
   * However requests interleave, in any window of time a principal gets no more requests of a
   * scope upstream than its budget plus what a minute's budget pays for in the window's length.
   */
  lemma SendsAreRateBounded(cfg: Config, s: State, scope: Scope, name: string, from: nat, until: nat)
    requires Reachable(cfg, s) && from <= until
    requires (if scope == Read then cfg.readPerMinute else cfg.writePerMinute) > 0
    ensures var n := if scope == Read then cfg.readPerMinute else cfg.writePerMinute;
            |SentIds(s.trace, scope, name, from, until)| <= n + (until - from) * n / 60_000_000_000
  {
    ReachableChecks(cfg, s);
    var actions := Actions(s.trace);
    AdmittedAreCounted(s.trace, scope, name, from, until);
    RateBound(InitialLimits(cfg.readPerMinute, cfg.writePerMinute), ChecksOf(actions), scope, name, from, until);
    var sent, admitted := SentIds(s.trace, scope, name, from, until), AdmittedIds(s.trace, scope, name, from, until);
    assert sent <= admitted;
    assert admitted == sent + (admitted - sent);
    assert |admitted| == |sent| + |admitted - sent|;
  }

  /** Nobody else's requests show in the answers one (scope, principal) got. */
  lemma AnswersIgnoreOthers(cfg: Config, s: State, scope: Scope, name: string)
    requires Reachable(cfg, s)
    ensures var checks, answers := ChecksOf(Actions(s.trace)), RecordedAnswers(Actions(s.trace));
            AnswersTo(checks, answers, scope, name)
            == Answers(InitialLimits(cfg.readPerMinute, cfg.writePerMinute), Only(checks, scope, name))
  {
    ReachableChecks(cfg, s);
    ChecksAreIsolated(
      InitialLimits(cfg.readPerMinute, cfg.writePerMinute), ChecksOf(Actions(s.trace)), scope, name);
  }

  // --- Conservation and audit --------------------------------------------------------------------

  /** Requests started = in flight + each way of ending, in every reachable state. */
  lemma RequestsAreConserved(cfg: Config, s: State)
    requires Reachable(cfg, s)
    ensures var c := s.shared.counters;
            |s.tasks| == InFlight(cfg, s) + OversizeBodies(s) + c.authFailures + c.parseErrors + c.authzDenied
                         + c.rateLimited + |c.requests|
  {
    ReachableConserved(cfg, s);
  }

  /** Every counter, label by label, is the number of requests that came to be counted under it. */
  lemma CountersAreExact(cfg: Config, s: State, counter: Counter)
    requires Reachable(cfg, s)
    ensures Value(s.shared.counters, counter) == |set id | id in s.tasks && CountedAs(s.tasks[id], counter)|
  {
    ReachableCounts(cfg, s);
    assert Those(s.tasks, IsCountedAs(counter)) == set id | id in s.tasks && CountedAs(s.tasks[id], counter);
  }

  /** Once every request has finished, nothing is in flight and the ways of ending add up. */
  lemma EndedAreAllCounted(cfg: Config, s: State)
    requires Reachable(cfg, s)
    requires forall id :: id in s.tasks ==>
               s.tasks[id].pc.Finishing?
               && s.tasks[id].pc.done == |Script(cfg, s.tasks[id].request, s.tasks[id].pc.fate)|
    ensures var c := s.shared.counters;
            |s.tasks| == OversizeBodies(s) + c.authFailures + c.parseErrors + c.authzDenied + c.rateLimited
                         + |c.requests|
  {
    forall id | id in s.tasks
      ensures !Uncounted(cfg, s.tasks[id])
    {
      CountedOnce(cfg, s.tasks[id].request, s.tasks[id].pc.fate, s.tasks[id].pc.done);
    }
    assert Those(s.tasks, IsUncounted(cfg)) == {};
    RequestsAreConserved(cfg, s);
  }

  /** The record of a classified request. */
  ghost function Classified(
    p: Principal, request: HttpRequest, c: Classification, outcome: Outcome, status: Option<nat>): (r: AuditRecord)
  {
    AuditRecord(p.name, request.sourceIp, Some(c.scope), FirstOpName(c.operations),
                seq(|c.operations|, i requires 0 <= i < |c.operations| => c.operations[i].kind),
                TopFields(c.operations), outcome, status)
  }

  /** The audit record a request with this fate leaves, if any. */
  ghost function RecordFor(cfg: Config, request: HttpRequest, fate: Fate): (r: seq<AuditRecord>)
    ensures |r| <= 1
    ensures r == [] <==>
              fate.Oversize? || (fate.Replied? && fate.session.classification.scope != Write && !cfg.auditReads)
  {
    match fate
    case AuthFailed(error) =>
      [AuditRecord("-", request.sourceIp, None, None, [], [], AuthenticationFailed(error), None)]
    case Oversize(_) => []
    case Unclassified(p, _, reason) =>
      [AuditRecord(p.name, request.sourceIp, None, None, [], [], BodyRejected(reason), None)]
    case Refused(ss) =>
      [Classified(ss.principal, request, ss.classification,
                  ScopeDenied(Decide(ss.principal, ss.classification, cfg.overrides)), None)]
    case Throttled(ss, _) => [Classified(ss.principal, request, ss.classification, RateLimited, None)]
    case Unrouted(ss, _) => [Classified(ss.principal, request, ss.classification, Allowed, None)]
    case Replied(ss, _, reply) =>
      if ss.classification.scope == Write || cfg.auditReads
      then [Classified(ss.principal, request, ss.classification, Allowed, Some(reply))] else []
    case Broken(ss, _) => [Classified(ss.principal, request, ss.classification, Allowed, None)]
  }

  ghost function EmitAt(actions: seq<Action>, i: nat): (r: seq<AuditRecord>)
  {
    if i < |actions| then EmitIn(actions[i]) else []
  }

  lemma EmittedFrom(actions: seq<Action>, i: nat)
    requires i < |actions|
    ensures EmittedBy(actions[i..]) == EmitAt(actions, i) + EmittedBy(actions[i + 1..])
  {
    assert actions[i..][1..] == actions[i + 1..];
  }

  /** A script is at most four actions long; these are its emits. */
  lemma {:induction false} EmitsOfFour(actions: seq<Action>)
    requires |actions| <= 4
    ensures EmittedBy(actions) == EmitAt(actions, 0) + EmitAt(actions, 1) + EmitAt(actions, 2) + EmitAt(actions, 3)
  {
    if |actions| > 0 {
      EmittedFrom(actions, 0);
      assert actions[0..] == actions;
    }
    if |actions| > 1 {
      EmittedFrom(actions, 1);
    }
    if |actions| > 2 {
      EmittedFrom(actions, 2);
    }
    if |actions| > 3 {
      EmittedFrom(actions, 3);
    }
  }

  lemma RecordsAgree(
    p: Principal, request: HttpRequest, c: Classification, outcome: Outcome, status: Option<nat>)
    ensures ClassifiedRecord(p, request, c, outcome, status) == Classified(p, request, c, outcome, status)
  {
  }

  lemma ScriptEmits(cfg: Config, request: HttpRequest, fate: Fate)
    ensures EmittedBy(Script(cfg, request, fate)) == RecordFor(cfg, request, fate)
  {
    EmitsOfFour(Script(cfg, request, fate));
    forall ss: Session, outcome, status
      ensures ClassifiedRecord(ss.principal, request, ss.classification, outcome, status)
           == Classified(ss.principal, request, ss.classification, outcome, status)
    {
      RecordsAgree(ss.principal, request, ss.classification, outcome, status);
    }
  }

  lemma {:induction false} EmittedAppend(a: seq<Action>, b: seq<Action>)
    ensures EmittedBy(a + b) == EmittedBy(a) + EmittedBy(b)
    decreases |a|
  {
    if a == [] {
      assert a + b == b;
    } else {
      EmittedAppend(a[1..], b);
      Uncons(a, b);
      Associate(EmitIn(a[0]), EmittedBy(a[1..]), EmittedBy(b));
    }
  }

  lemma PrefixEmitsLess(actions: seq<Action>, k: nat)
    requires k <= |actions|
    ensures |EmittedBy(actions[..k])| <= |EmittedBy(actions)|
    ensures k == |actions| ==> EmittedBy(actions[..k]) == EmittedBy(actions)
  {
    EmittedAppend(actions[..k], actions[k..]);
    assert actions[..k] + actions[k..] == actions;
    assert actions[..|actions|] == actions;
  }

  /**
   * No request leaves more than one audit record. A finished one leaves exactly the record its
   * fate calls for; only oversize bodies and answered reads with `audit_reads` off leave none.
   */
  lemma AuditedExactlyOnce(cfg: Config, s: State, id: nat)
    requires Reachable(cfg, s) && id in s.tasks
    ensures |EmittedBy(Project(s.trace, id))| <= 1
    ensures var task := s.tasks[id];
            task.pc.Finishing? && task.pc.done == |Script(cfg, task.request, task.pc.fate)| ==>
              EmittedBy(Project(s.trace, id)) == RecordFor(cfg, task.request, task.pc.fate)
  {
    ReachableTask(cfg, s, id);
    var task := s.tasks[id];
    if task.pc.Finishing? {
      ScriptEmits(cfg, task.request, task.pc.fate);
      PrefixEmitsLess(Script(cfg, task.request, task.pc.fate), task.pc.done);
    } else {
      EmitsOfFour(Past(cfg, task));
    }
  }

  /** The audit trail holds the emitted records and nothing else, in the order of emission. */
  lemma AuditTrailIsEmitted(cfg: Config, s: State)
    requires Reachable(cfg, s)
    ensures s.shared.audit == EmittedBy(Actions(s.trace))
  {
    ReachableLedger(cfg, s);
    AuditLedger(InitialShared(cfg), Actions(s.trace));
  }

  /** The fields in a record are those of its operations, one operation after the other. */
  lemma {:induction false} TopFieldsGrow(operations: seq<OperationInfo>, op: OperationInfo)
    ensures TopFields([]) == [] && TopFields(operations + [op]) == TopFields(operations) + op.topLevelFields
  {
    if operations == [] {
      assert operations + [op] == [op] && op.topLevelFields + [] == op.topLevelFields;
    } else {
      Uncons(operations, [op]);
      TopFieldsGrow(operations[1..], op);
      Associate(operations[0].topLevelFields, TopFields(operations[1..]), op.topLevelFields);
    }
  }

  lemma {:induction false} TopFieldsMeans(operations: seq<OperationInfo>, f: string)
    ensures f in TopFields(operations) <==> exists op :: op in operations && f in op.topLevelFields
  {
    if operations == [] {
    } else {
      TopFieldsMeans(operations[1..], f);
      assert forall op :: op in operations <==> op == operations[0] || op in operations[1..];
    }
  }

  /** The operation named in a record is the first that has a name. */
  lemma {:induction false} FirstOpNameMeans(operations: seq<OperationInfo>)
    ensures FirstOpName(operations).None? <==> forall i :: 0 <= i < |operations| ==> operations[i].name.None?
    ensures forall i ::
              (0 <= i < |operations| && operations[i].name.Some? && forall j :: 0 <= j < i ==> operations[j].name.None?)
              ==> FirstOpName(operations) == operations[i].name
  {
    if operations == [] {
    } else {
      var rest := operations[1..];
      FirstOpNameMeans(rest);
      assert forall i :: 1 <= i < |operations| ==> operations[i] == rest[i - 1];
      assert forall i :: 0 <= i < |rest| ==> rest[i] == operations[i + 1];
    }
  }

  /** A record about a classified body names what a server would execute of it, whoever parses it again. */
  lemma RecordNamesExecuted(
    p: Principal, http: HttpRequest, a: Payload, b: Payload, outcome: Outcome, status: Option<nat>,
    request: Request, op: Operation, w: Conditions)
    requires Reordered(a, b) && ClassifyPayload(a).Ok? && ClassifyPayload(b).Ok?
    requires request in RequestsOf(a) && request.query.Ok?
    requires GetOperation(request.query.value, request.operationName) == Some(op)
    ensures var record := Classified(p, http, ClassifyPayload(b).value, outcome, status);
            && op.kind in record.operationKinds
            && (op.kind == Mutation ==> record.scope == Some(Write))
            && ExecutedFields(op.items, request.query.value.fragments, w) <= Elements(record.topLevelFields)
  {
    var c, fragments := ClassifyPayload(b).value, request.query.value.fragments;
    ExecutableIsClassified(RequestsOf(a), request, op);
    ReparsingProfiles(a, b);
    var info := Describe(op, fragments);
    var twin :| twin in c.operations && ProfileOf(twin) == ProfileOf(info);
    var i :| 0 <= i < |c.operations| && c.operations[i] == twin;
    assert Classified(p, http, c, outcome, status).operationKinds[i] == op.kind;
    WriteMeansMutation(c.operations);
    ExecutedIsCollected(op.items, fragments, w);
    forall f | f in Elements(info.topLevelFields)
      ensures f in TopFields(c.operations)
    {
      assert f in ProfileOf(twin).fields;
      TopFieldsMeans(c.operations, f);
    }
  }

  /**
   * End to end for the audit trail: a finished request that was sent with a classified body, if
   * audited, left a record with its principal's name, the kind of every operation a server would
   * execute of it, and every root field that operation would execute.
   */
  lemma AuditNamesExecuted(cfg: Config, s: State, id: nat, request: Request, op: Operation, w: Conditions)
    returns (record: AuditRecord)
    requires Reachable(cfg, s) && id in s.tasks && s.tasks[id].pc.Finishing?
    requires s.tasks[id].pc.done == |Script(cfg, s.tasks[id].request, s.tasks[id].pc.fate)|
    requires s.tasks[id].pc.fate.Broken?
          || (s.tasks[id].pc.fate.Replied?
              && (s.tasks[id].pc.fate.session.classification.scope == Write || cfg.auditReads))
    requires s.tasks[id].request.verb != "GET" && !UnderSegment(s.tasks[id].request.path, "/_admin")
    requires ClassifyPayload(cfg.parse(s.tasks[id].pc.fate.session.body.bytes)).Ok?
    requires request in RequestsOf(cfg.parse(s.tasks[id].pc.fate.session.body.bytes)) && request.query.Ok?
    requires GetOperation(request.query.value, request.operationName) == Some(op)
    ensures EmittedBy(Project(s.trace, id)) == [record]
    ensures record.principal == s.tasks[id].pc.fate.session.principal.name && record.outcome == Allowed
    ensures op.kind in record.operationKinds && (op.kind == Mutation ==> record.scope == Some(Write))
    ensures ExecutedFields(op.items, request.query.value.fragments, w) <= Elements(record.topLevelFields)
  {
    FinishedFollowedScript(cfg, s, id);
    RouteMeans(s.tasks[id].request.path);
    var http, fate := s.tasks[id].request, s.tasks[id].pc.fate;
    var ss := fate.session;
    ScriptEmits(cfg, http, fate);
    record := RecordFor(cfg, http, fate)[0];
    var status := if fate.Replied? then Some(fate.reply) else None;
    ReparsingDecidesTheSame(ss.principal, cfg.parse(ss.body.bytes), ss.body.payload, cfg.overrides);
    RecordNamesExecuted(ss.principal, http, cfg.parse(ss.body.bytes), ss.body.payload, Allowed, status, request, op, w);
  }
}
