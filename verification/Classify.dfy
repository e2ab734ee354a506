/** Structural classification of a request body: which operations it may run, and their scope. */
module Classify {
  import opened Prelude
  import opened Document
  import opened Collector
  import opened Execution

  /** `Write` outranks `Read`. */
  datatype Scope = Read | Write

  datatype OperationInfo = OperationInfo(name: Option<string>, kind: OperationKind, topLevelFields: seq<string>)

  datatype Classification = Classification(operations: seq<OperationInfo>, scope: Scope)

  datatype ClassifyError = InvalidJson(reason: string) | Empty | GraphqlParse(reason: string)

  /** One GraphQL-over-HTTP request; `query` is what the GraphQL parser made of its text. */
  datatype Request = Request(query: Result<GraphqlDocument, string>, operationName: Option<string>)

  /** What the JSON decoder made of a body. */
  datatype Payload = NotJson(reason: string) | Single(request: Request) | Batch(requests: seq<Request>)

  /** The same request, its operations met in another order of the hash map that holds them. */
  predicate ReorderedRequest(r: Request, r': Request)
  {
    && r.operationName == r'.operationName
    && match (r.query, r'.query)
       case (Ok(d), Ok(d')) => d.fragments == d'.fragments && multiset(d.operations) == multiset(d'.operations)
       case _ => r.query == r'.query
  }

  /** What another parse of the same body may give. */
  predicate Reordered(a: Payload, b: Payload)
  {
    match (a, b)
    case (Single(r), Single(r')) => ReorderedRequest(r, r')
    case (Batch(rs), Batch(rs')) => |rs| == |rs'| && forall i :: 0 <= i < |rs| ==> ReorderedRequest(rs[i], rs'[i])
    case _ => a == b
  }

  function Higher(a: Scope, b: Scope): (r: Scope)
  {
    if a.Write? then a else b
  }

  function ScopeOf(kind: OperationKind): (r: Scope)
  {
    match kind
    case Mutation => Write
    case Query => Read
    case Subscription => Read
  }

  function EffectiveScope(operations: seq<OperationInfo>): (r: Scope)
  {
    if operations == [] then Read else Higher(ScopeOf(operations[0].kind), EffectiveScope(operations[1..]))
  }

  /** Operations the request names; all of them when it names none. */
  function Matching(operations: seq<Operation>, selected: Option<string>): (r: seq<Operation>)
  {
    if operations == [] then []
    else (if selected.None? || operations[0].name == selected then [operations[0]] else [])
         + Matching(operations[1..], selected)
  }

  /** Operations that could run: the matching ones, or every one when nothing matches. */
  function ToClassify(doc: GraphqlDocument, selected: Option<string>): (r: seq<Operation>)
  {
    var matched := Matching(doc.operations, selected);
    if matched == [] then doc.operations else matched
  }

  function Describe(op: Operation, fragments: Fragments): (r: OperationInfo)
  {
    OperationInfo(op.name, op.kind, CollectTopFields(op.items, fragments))
  }

  function DescribeAll(operations: seq<Operation>, fragments: Fragments): (r: seq<OperationInfo>)
  {
    seq(|operations|, i requires 0 <= i < |operations| => Describe(operations[i], fragments))
  }

  function ClassifyOne(request: Request): (r: Result<seq<OperationInfo>, ClassifyError>)
  {
    match request.query
    case Err(reason) => Err(GraphqlParse(reason))
    case Ok(doc) =>
      var operations := ToClassify(doc, request.operationName);
      if operations == [] then Err(Empty) else Ok(DescribeAll(operations, doc.fragments))
  }

  /** The requests of a batch in turn; the first failure wins. */
  function ClassifyAll(requests: seq<Request>): (r: Result<seq<OperationInfo>, ClassifyError>)
  {
    if requests == [] then Ok([])
    else
      var first := ClassifyOne(requests[0]);
      if first.Err? then first
      else
        var rest := ClassifyAll(requests[1..]);
        if rest.Err? then rest else Ok(first.value + rest.value)
  }

  function RequestsOf(payload: Payload): (r: seq<Request>)
  {
    match payload
    case NotJson(_) => []
    case Single(request) => [request]
    case Batch(requests) => requests
  }

  function ClassifyRequests(requests: seq<Request>): (r: Result<Classification, ClassifyError>)
  {
    if requests == [] then Err(Empty)
    else
      match ClassifyAll(requests)
      case Err(e) => Err(e)
      case Ok(operations) => Ok(Classification(operations, EffectiveScope(operations)))
  }

  function ClassifyPayload(payload: Payload): (r: Result<Classification, ClassifyError>)
  {
    if payload.NotJson? then Err(InvalidJson(payload.reason)) else ClassifyRequests(RequestsOf(payload))
  }

  // --- What classification means --------------------------------------------------------

  /** A request is a write exactly when a mutation is among its operations. */
  lemma {:induction false} WriteMeansMutation(operations: seq<OperationInfo>)
    ensures EffectiveScope(operations) == Write <==> exists op :: op in operations && op.kind == Mutation
  {
    if operations == [] {
    } else {
      WriteMeansMutation(operations[1..]);
      assert forall op :: op in operations <==> op == operations[0] || op in operations[1..];
    }
  }

  lemma {:induction false} MatchingMeans(operations: seq<Operation>, selected: Option<string>, op: Operation)
    ensures op in Matching(operations, selected)
       <==> op in operations && (selected.None? || op.name == selected)
  {
    if operations == [] {
    } else {
      MatchingMeans(operations[1..], selected, op);
      assert op in operations <==> op == operations[0] || op in operations[1..];
    }
  }

  /** A name that matches selects; a name that matches nothing selects everything. */
  lemma ToClassifyMeans(doc: GraphqlDocument, selected: Option<string>, op: Operation)
    ensures op in ToClassify(doc, selected)
       <==> op in doc.operations
            && (selected.None? || op.name == selected || forall o :: o in doc.operations ==> o.name != selected)
  {
    MatchingMeans(doc.operations, selected, op);
    var matched := Matching(doc.operations, selected);
    if matched == [] {
      forall o | o in doc.operations
        ensures o.name != selected
      {
        MatchingMeans(doc.operations, selected, o);
      }
    } else {
      MatchingMeans(doc.operations, selected, matched[0]);
    }
  }

  /** Whichever operation a server would execute is among those classified, with its kind and fields. */
  lemma {:induction false} ExecutableIsClassified(requests: seq<Request>, request: Request, op: Operation)
    requires ClassifyAll(requests).Ok? && request in requests
    requires request.query.Ok? && GetOperation(request.query.value, request.operationName) == Some(op)
    ensures Describe(op, request.query.value.fragments) in ClassifyAll(requests).value
  {
    if request == requests[0] {
      var doc := request.query.value;
      ToClassifyMeans(doc, request.operationName, op);
      var operations := ToClassify(doc, request.operationName);
      var i :| 0 <= i < |operations| && operations[i] == op;
      assert DescribeAll(operations, doc.fragments)[i] == Describe(op, doc.fragments);
    } else {
      ExecutableIsClassified(requests[1..], request, op);
    }
  }

  /** A classified batch has operations, so testing the finished list for emptiness never fires. */
  lemma {:induction false} ClassifiedIsNotEmpty(requests: seq<Request>)
    requires requests != [] && ClassifyAll(requests).Ok?
    ensures ClassifyAll(requests).value != []
  {
    assert |ClassifyOne(requests[0]).value| > 0;
  }

  /** The body carries this request. */
  ghost predicate Carries(payload: Payload, r: Request)
  {
    payload == Single(r) || (payload.Batch? && r in payload.requests)
  }

  /** The request's query parsed, to a document with operations. */
  ghost predicate Usable(r: Request)
  {
    r.query.Ok? && r.query.value.operations != []
  }

  /** The operation may run: the request names none, or this one, or one that is not there. */
  ghost predicate Selected(r: Request, o: Operation)
  {
    && r.query.Ok? && o in r.query.value.operations
    && (r.operationName.None? || o.name == r.operationName
        || forall x :: x in r.query.value.operations ==> x.name != r.operationName)
  }

  ghost predicate Describes(info: OperationInfo, r: Request, o: Operation)
  {
    && r.query.Ok? && info.name == o.name && info.kind == o.kind
    && info.topLevelFields == CollectTopFields(o.items, r.query.value.fragments)
  }

  lemma ClassifyOneMeans(r: Request, info: OperationInfo)
    ensures ClassifyOne(r).Ok? <==> Usable(r)
    ensures Usable(r) ==>
              (info in ClassifyOne(r).value <==> exists o :: Selected(r, o) && Describes(info, r, o))
    ensures !Usable(r) ==> ClassifyOne(r) == Err(if r.query.Err? then GraphqlParse(r.query.error) else Empty)
  {
    if r.query.Ok? {
      var d := r.query.value;
      var ops := ToClassify(d, r.operationName);
      forall o: Operation
        ensures o in ops <==> Selected(r, o)
      {
        ToClassifyMeans(d, r.operationName, o);
      }
      assert d.operations != [] ==> ops != [];
      if ops != [] {
        var infos := DescribeAll(ops, d.fragments);
        assert forall i :: 0 <= i < |ops| ==> infos[i] == Describe(ops[i], d.fragments);
        if info in infos {
          var i :| 0 <= i < |infos| && infos[i] == info;
          assert Selected(r, ops[i]) && Describes(info, r, ops[i]);
        }
        forall o | Selected(r, o) && Describes(info, r, o)
          ensures info in infos
        {
          var i :| 0 <= i < |ops| && ops[i] == o;
          assert infos[i] == info;
        }
      }
    }
  }

  lemma {:induction false} ClassifyAllMeans(requests: seq<Request>, info: OperationInfo)
    ensures ClassifyAll(requests).Ok? <==> forall r :: r in requests ==> Usable(r)
    ensures ClassifyAll(requests).Ok? ==>
              (info in ClassifyAll(requests).value <==>
               exists r, o :: r in requests && Selected(r, o) && Describes(info, r, o))
  {
    if requests == [] {
    } else {
      ClassifyOneMeans(requests[0], info);
      ClassifyAllMeans(requests[1..], info);
      assert forall r :: r in requests <==> r == requests[0] || r in requests[1..];
    }
  }

  lemma CarriesMeans(payload: Payload, r: Request)
    ensures Carries(payload, r) <==> r in RequestsOf(payload)
  {
  }

  /**
   * Classification of a body: it succeeds exactly when it holds requests and each parsed to a
   * document with operations; the operations are exactly those that may run, by name, kind and
   * collected fields; it is a write exactly when one of them is a mutation.
   */
  lemma ClassificationMeans(payload: Payload)
    ensures ClassifyPayload(payload).Ok? <==>
            && (exists r :: Carries(payload, r))
            && forall r :: Carries(payload, r) ==> Usable(r)
    ensures ClassifyPayload(payload).Ok? ==>
              forall info :: info in ClassifyPayload(payload).value.operations <==>
                exists r, o :: Carries(payload, r) && Selected(r, o) && Describes(info, r, o)
    ensures ClassifyPayload(payload).Ok? ==>
              (ClassifyPayload(payload).value.scope == Write <==>
               exists r, o :: Carries(payload, r) && Selected(r, o) && o.kind == Mutation)
  {
    var requests := RequestsOf(payload);
    forall r
      ensures Carries(payload, r) <==> r in requests
    {
      CarriesMeans(payload, r);
    }
    assert requests != [] ==> requests[0] in requests;
    forall info
      ensures ClassifyAll(requests).Ok? <==> forall r :: r in requests ==> Usable(r)
      ensures ClassifyAll(requests).Ok? ==>
                (info in ClassifyAll(requests).value <==>
                 exists r, o :: r in requests && Selected(r, o) && Describes(info, r, o))
    {
      ClassifyAllMeans(requests, info);
    }
    ClassifyAllMeans(requests, OperationInfo(None, Query, []));
    if ClassifyPayload(payload).Ok? {
      var infos := ClassifyAll(requests).value;
      WriteMeansMutation(infos);
      forall r, o | Carries(payload, r) && Selected(r, o) && o.kind == Mutation
        ensures exists i :: i in infos && i.kind == Mutation
      {
        var info := Describe(o, r.query.value.fragments);
        assert Describes(info, r, o) && info in infos;
      }
    }
  }

  /** A body that is not JSON, an empty batch, and otherwise the first request that cannot be used. */
  lemma FailureMeans(payload: Payload, i: nat)
    ensures payload.NotJson? ==> ClassifyPayload(payload) == Err(InvalidJson(payload.reason))
    ensures payload == Batch([]) ==> ClassifyPayload(payload) == Err(Empty)
    ensures payload.Single? && !Usable(payload.request) ==>
              ClassifyPayload(payload)
              == Err(if payload.request.query.Err? then GraphqlParse(payload.request.query.error) else Empty)
    ensures payload.Batch? && i < |payload.requests| && !Usable(payload.requests[i])
            && (forall j :: 0 <= j < i ==> Usable(payload.requests[j])) ==>
              ClassifyPayload(payload)
              == Err(if payload.requests[i].query.Err? then GraphqlParse(payload.requests[i].query.error) else Empty)
  {
    if payload.Single? {
      ClassifyOneMeans(payload.request, OperationInfo(None, Query, []));
    } else if payload.Batch? && i < |payload.requests| && !Usable(payload.requests[i])
           && (forall j :: 0 <= j < i ==> Usable(payload.requests[j])) {
      FirstUnusable(payload.requests, i);
    }
  }

  lemma {:induction false} FirstUnusable(requests: seq<Request>, i: nat)
    requires i < |requests| && !Usable(requests[i]) && forall j :: 0 <= j < i ==> Usable(requests[j])
    ensures ClassifyAll(requests)
         == Err(if requests[i].query.Err? then GraphqlParse(requests[i].query.error) else Empty)
    decreases i
  {
    ClassifyOneMeans(requests[0], OperationInfo(None, Query, []));
    if i == 0 {
    } else {
      FirstUnusable(requests[1..], i - 1);
    }
  }

  /** The descriptions of those of `operations` that may run, in their order. */
  ghost function Listing(r: Request, operations: seq<Operation>): (infos: seq<OperationInfo>)
    requires r.query.Ok?
  {
    if operations == [] then []
    else
      var o := operations[0];
      (if Selected(r, o) then [OperationInfo(o.name, o.kind, CollectTopFields(o.items, r.query.value.fragments))]
       else [])
      + Listing(r, operations[1..])
  }

  ghost function Listings(requests: seq<Request>): (infos: seq<OperationInfo>)
  {
    if requests == [] then []
    else
      (if requests[0].query.Ok? then Listing(requests[0], requests[0].query.value.operations) else [])
      + Listings(requests[1..])
  }

  lemma DescribeCons(o: Operation, rest: seq<Operation>, fragments: Fragments)
    ensures DescribeAll([o] + rest, fragments) == [Describe(o, fragments)] + DescribeAll(rest, fragments)
  {
  }

  /** `picked` picks the operations that may run. */
  lemma {:induction false} ListingPicks(r: Request, operations: seq<Operation>, picked: Option<string>)
    requires r.query.Ok?
    requires forall o :: o in operations ==> (Selected(r, o) <==> picked.None? || o.name == picked)
    ensures DescribeAll(Matching(operations, picked), r.query.value.fragments) == Listing(r, operations)
  {
    if operations == [] {
    } else {
      var o, rest := operations[0], operations[1..];
      ListingPicks(r, rest, picked);
      assert o in operations;
      DescribeCons(o, Matching(rest, picked), r.query.value.fragments);
      assert [] + Matching(rest, picked) == Matching(rest, picked);
    }
  }

  lemma {:induction false} MatchingEvery(operations: seq<Operation>)
    ensures Matching(operations, None) == operations
  {
    if operations == [] {
    } else {
      MatchingEvery(operations[1..]);
    }
  }

  lemma OneInOrder(r: Request)
    requires Usable(r)
    ensures ClassifyOne(r) == Ok(Listing(r, r.query.value.operations))
  {
    var d := r.query.value;
    ClassifyOneMeans(r, OperationInfo(None, Query, []));
    forall o | o in d.operations
      ensures o in Matching(d.operations, r.operationName)
         <==> r.operationName.None? || o.name == r.operationName
    {
      MatchingMeans(d.operations, r.operationName, o);
    }
    if Matching(d.operations, r.operationName) == [] {
      MatchingEvery(d.operations);
      ListingPicks(r, d.operations, None);
    } else {
      MatchingMeans(d.operations, r.operationName, Matching(d.operations, r.operationName)[0]);
      ListingPicks(r, d.operations, r.operationName);
    }
  }

  lemma {:induction false} AllInOrder(requests: seq<Request>)
    requires forall r :: r in requests ==> Usable(r)
    ensures ClassifyAll(requests) == Ok(Listings(requests))
  {
    if requests == [] {
    } else {
      OneInOrder(requests[0]);
      AllInOrder(requests[1..]);
    }
  }

  /** Requests are taken in turn, and each operation that may run is described once, in the document's order. */
  lemma DescribedInOrder(payload: Payload)
    requires ClassifyPayload(payload).Ok?
    ensures ClassifyPayload(payload).value.operations
         == Listings(if payload.Single? then [payload.request] else payload.requests)
  {
    var requests := RequestsOf(payload);
    ClassificationMeans(payload);
    forall r | r in requests
      ensures Usable(r)
    {
      CarriesMeans(payload, r);
    }
    AllInOrder(requests);
  }

  // --- Batches ---------------------------------------------------------------------------

  lemma {:induction false} ClassifyAllAppend(a: seq<Request>, b: seq<Request>)
    ensures ClassifyAll(a + b)
         == if ClassifyAll(a).Err? then ClassifyAll(a)
            else if ClassifyAll(b).Err? then ClassifyAll(b)
            else Ok(ClassifyAll(a).value + ClassifyAll(b).value)
  {
    if a == [] {
      assert a + b == b;
      assert ClassifyAll(b).Ok? ==> [] + ClassifyAll(b).value == ClassifyAll(b).value;
    } else {
      assert (a + b)[0] == a[0] && (a + b)[1..] == a[1..] + b;
      ClassifyAllAppend(a[1..], b);
      if ClassifyOne(a[0]).Ok? && ClassifyAll(a[1..]).Ok? && ClassifyAll(b).Ok? {
        assert ClassifyOne(a[0]).value + ClassifyAll(a[1..]).value + ClassifyAll(b).value
            == ClassifyOne(a[0]).value + (ClassifyAll(a[1..]).value + ClassifyAll(b).value);
      }
    }
  }

  lemma {:induction false} EffectiveScopeAppend(a: seq<OperationInfo>, b: seq<OperationInfo>)
    ensures EffectiveScope(a + b) == Higher(EffectiveScope(a), EffectiveScope(b))
  {
    if a == [] {
      assert a + b == b;
    } else {
      assert (a + b)[0] == a[0] && (a + b)[1..] == a[1..] + b;
      EffectiveScopeAppend(a[1..], b);
    }
  }

  /** A batch classifies exactly when its parts do: operations side by side, the higher scope. */
  lemma BatchClassifies(a: seq<Request>, b: seq<Request>)
    requires a != [] && b != []
    ensures ClassifyRequests(a + b)
         == if ClassifyRequests(a).Err? then ClassifyRequests(a)
            else if ClassifyRequests(b).Err? then ClassifyRequests(b)
            else
              var ca, cb := ClassifyRequests(a).value, ClassifyRequests(b).value;
              Ok(Classification(ca.operations + cb.operations, Higher(ca.scope, cb.scope)))
  {
    ClassifyAllAppend(a, b);
    if ClassifyAll(a).Ok? && ClassifyAll(b).Ok? {
      EffectiveScopeAppend(ClassifyAll(a).value, ClassifyAll(b).value);
    }
  }

  // --- Classification as the program runs it ---------------------------------------------

  method CollectMatching(doc: GraphqlDocument, selected: Option<string>) returns (toClassify: seq<Operation>)
    ensures toClassify == ToClassify(doc, selected)
  {
    var matched: seq<Operation> := [];
    for i := 0 to |doc.operations|
      invariant matched + Matching(doc.operations[i..], selected) == Matching(doc.operations, selected)
    {
      var op := doc.operations[i];
      assert doc.operations[i..][0] == op && doc.operations[i..][1..] == doc.operations[i + 1..];
      ghost var later := Matching(doc.operations[i + 1..], selected);
      if selected.None? || op.name == selected {
        assert matched + ([op] + later) == matched + [op] + later;
        matched := matched + [op];
      } else {
        assert [] + later == later;
      }
    }
    toClassify := if matched == [] then doc.operations else matched;
  }

  method DescribeOperations(operations: seq<Operation>, fragments: Fragments) returns (infos: seq<OperationInfo>)
    ensures infos == DescribeAll(operations, fragments)
  {
    infos := [];
    for i := 0 to |operations|
      invariant infos == DescribeAll(operations[..i], fragments)
    {
      var collector := new FieldCollector();
      collector.Collect(operations[i].items, fragments);
      infos := infos + [OperationInfo(operations[i].name, operations[i].kind, collector.out)];
    }
    assert operations[..|operations|] == operations;
  }

  method ClassifyBody(payload: Payload) returns (r: Result<Classification, ClassifyError>)
    ensures r == ClassifyPayload(payload)
  {
    if payload.NotJson? {
      return Err(InvalidJson(payload.reason));
    }
    var requests := RequestsOf(payload);
    if requests == [] {
      return Err(Empty);
    }
    var operations: seq<OperationInfo> := [];
    for i := 0 to |requests|
      invariant ClassifyAll(requests[..i]) == Ok(operations)
    {
      var request := requests[i];
      assert requests == requests[..i] + requests[i..];
      assert requests[i..] == [request] + requests[i + 1..];
      ClassifyAllAppend(requests[..i], requests[i..]);
      if request.query.Err? {
        return Err(GraphqlParse(request.query.error));
      }
      var toClassify := CollectMatching(request.query.value, request.operationName);
      if toClassify == [] {
        return Err(Empty);
      }
      var infos := DescribeOperations(toClassify, request.query.value.fragments);
      assert requests[..i + 1] == requests[..i] + [request];
      ClassifyAllAppend(requests[..i], [request]);
      assert ClassifyAll([request]) == Ok(infos) by {
        assert ClassifyAll([]) == Ok([]) && infos + [] == infos;
      }
      operations := operations + infos;
    }
    assert requests[..|requests|] == requests;
    r := Ok(Classification(operations, EffectiveScope(operations)));
  }
}
