/** Laws of the authorization decision: monotonicity, batches, equivalence and coverage of execution. */
module AuthzLaws {
  import opened Prelude
  import opened Document
  import opened Execution
  import opened Masking
  import opened Classify
  import opened Authz

  // --- Monotonicity and batches ---------------------------------------------------------

  /** Granting more scopes never turns a grant into a denial. */
  lemma MoreScopesKeepGrant(p: Principal, q: Principal, c: Classification, overrides: seq<Override>)
    requires p.scopes <= q.scopes
    requires Decide(p, c, overrides).Granted?
    ensures Decide(q, c, overrides).Granted?
  {
    DecisionMeans(p, c, overrides);
    DecisionMeans(q, c, overrides);
  }

  /** Adding operations (with the scope recomputed) or overrides never turns a denial into a grant. */
  lemma MoreDemandsKeepDenial(
    p: Principal, operations: seq<OperationInfo>, overrides: seq<Override>,
    operations': seq<OperationInfo>, overrides': seq<Override>)
    requires forall op :: op in operations ==> op in operations'
    requires forall ov :: ov in overrides ==> ov in overrides'
    requires Decide(p, Classification(operations, EffectiveScope(operations)), overrides).Denied?
    ensures Decide(p, Classification(operations', EffectiveScope(operations')), overrides').Denied?
  {
    var c := Classification(operations, EffectiveScope(operations));
    var c' := Classification(operations', EffectiveScope(operations'));
    DecisionMeans(p, c, overrides);
    DecisionMeans(p, c', overrides');
    WriteMeansMutation(operations);
    WriteMeansMutation(operations');
    assert OverrideRequired(operations, overrides) <= OverrideRequired(operations', overrides');
    var s :| s in Required(c, overrides) && !p.Satisfies(s);
    if s == BaseScope(c.scope) {
      assert !p.Satisfies(BaseScope(c'.scope));
    }
  }

  /** Fine-grained scopes are matched exactly: whoever lacks one that a matching override adds is denied it. */
  lemma MatchedScopeIsNeeded(
    p: Principal, c: Classification, overrides: seq<Override>, op: OperationInfo, ov: Override, s: string)
    requires op in c.operations && ov in overrides && Matches(ov, op) && s in ov.requireScopes
    requires s !in p.scopes && s != "read"
    ensures Decide(p, c, overrides).Denied? && s in Decide(p, c, overrides).missing
  {
    DecisionMeans(p, c, overrides);
    assert s in OverrideRequired(c.operations, overrides);
  }

  /** An override that names neither field nor operation, or matches no operation present, changes nothing. */
  lemma InertOverride(p: Principal, c: Classification, overrides: seq<Override>, ov: Override)
    requires (ov.field.None? && ov.operation.None?)
          || (forall op :: op in c.operations ==>
                (ov.field.Some? && ov.field.value !in op.topLevelFields)
                || (ov.operation.Some? && op.name != ov.operation))
    ensures Decide(p, c, overrides + [ov]) == Decide(p, c, overrides)
  {
    assert forall o :: o in overrides + [ov] <==> o in overrides || o == ov;
    assert forall op :: op in c.operations ==> !Matches(ov, op);
    assert OverrideRequired(c.operations, overrides + [ov]) == OverrideRequired(c.operations, overrides);
    SameRequirementSameDecision(p, c, overrides + [ov], c, overrides);
  }

  lemma OverrideRequiredAppend(a: seq<OperationInfo>, b: seq<OperationInfo>, overrides: seq<Override>)
    ensures OverrideRequired(a + b, overrides) == OverrideRequired(a, overrides) + OverrideRequired(b, overrides)
  {
    assert forall op :: op in a + b <==> op in a || op in b;
  }

  /** A principal may send a batch exactly when it may send each part. */
  lemma BatchAuthorizes(p: Principal, a: seq<Request>, b: seq<Request>, overrides: seq<Override>)
    requires a != [] && b != []
    requires ClassifyRequests(a).Ok? && ClassifyRequests(b).Ok?
    ensures ClassifyRequests(a + b).Ok?
    ensures Decide(p, ClassifyRequests(a + b).value, overrides).Granted?
       <==> Decide(p, ClassifyRequests(a).value, overrides).Granted?
            && Decide(p, ClassifyRequests(b).value, overrides).Granted?
  {
    BatchClassifies(a, b);
    var ca, cb, c := ClassifyRequests(a).value, ClassifyRequests(b).value, ClassifyRequests(a + b).value;
    DecisionMeans(p, ca, overrides);
    DecisionMeans(p, cb, overrides);
    DecisionMeans(p, c, overrides);
    OverrideRequiredAppend(ca.operations, cb.operations, overrides);
    assert c.scope == ca.scope || c.scope == cb.scope;
    if Authorized(p, c, overrides) {
      assert BaseScope(c.scope) in Required(c, overrides);
      assert p.Satisfies(BaseScope(ca.scope)) && p.Satisfies(BaseScope(cb.scope));
    }
    if Authorized(p, ca, overrides) && Authorized(p, cb, overrides) {
      assert BaseScope(ca.scope) in Required(ca, overrides) && BaseScope(cb.scope) in Required(cb, overrides);
    }
  }

  /** The anonymous principal is never granted a write. */
  lemma AnonymousNeverWrites(c: Classification, overrides: seq<Override>)
    requires c.scope == Write
    ensures Decide(ANONYMOUS, c, overrides).Denied?
  {
    DecisionMeans(ANONYMOUS, c, overrides);
    assert "write" in Required(c, overrides);
  }

  // --- Writing the same body differently ------------------------------------------------

  /** What authorization can see of an operation. */
  datatype Profile = Profile(name: Option<string>, kind: OperationKind, fields: set<string>)

  function ProfileOf(op: OperationInfo): (r: Profile)
  {
    Profile(op.name, op.kind, Elements(op.topLevelFields))
  }

  /** Every operation of `a` has one in `b` that authorization cannot tell from it. */
  ghost predicate Profiled(a: seq<OperationInfo>, b: seq<OperationInfo>)
  {
    forall op :: op in a ==> exists o :: o in b && ProfileOf(o) == ProfileOf(op)
  }

  lemma ProfiledRequired(
    a: seq<OperationInfo>, b: seq<OperationInfo>, overrides: seq<Override>, overrides': seq<Override>)
    requires Profiled(a, b) && forall ov :: ov in overrides ==> ov in overrides'
    ensures OverrideRequired(a, overrides) <= OverrideRequired(b, overrides')
    ensures EffectiveScope(a) == Write ==> EffectiveScope(b) == Write
  {
    forall s | s in OverrideRequired(a, overrides)
      ensures s in OverrideRequired(b, overrides')
    {
      var op, ov :| op in a && ov in overrides && Matches(ov, op) && s in ov.requireScopes;
      var o :| o in b && ProfileOf(o) == ProfileOf(op);
      assert ov.field.Some? ==> (ov.field.value in o.topLevelFields <==> ov.field.value in ProfileOf(o).fields);
      assert Matches(ov, o);
    }
    WriteMeansMutation(a);
    WriteMeansMutation(b);
    if EffectiveScope(a) == Write {
      var op :| op in a && op.kind == Mutation;
      var o :| o in b && ProfileOf(o) == ProfileOf(op);
      assert o.kind == Mutation;
    }
  }

  /** Operations with the same profiles, overrides with the same members: same scope, same decision. */
  lemma ProfilesDecide(
    p: Principal, a: seq<OperationInfo>, b: seq<OperationInfo>, overrides: seq<Override>, overrides': seq<Override>)
    requires Profiled(a, b) && Profiled(b, a) && forall ov :: ov in overrides <==> ov in overrides'
    ensures EffectiveScope(a) == EffectiveScope(b)
    ensures Decide(p, Classification(a, EffectiveScope(a)), overrides)
         == Decide(p, Classification(b, EffectiveScope(b)), overrides')
  {
    ProfiledRequired(a, b, overrides, overrides');
    ProfiledRequired(b, a, overrides', overrides);
    SameRequirementSameDecision(
      p, Classification(a, EffectiveScope(a)), overrides, Classification(b, EffectiveScope(b)), overrides');
  }

  function OperationProfile(op: Operation, fragments: Fragments): (r: Profile)
  {
    ProfileOf(Describe(op, fragments))
  }

  ghost predicate HasTwin(op: Operation, fragments: Fragments, d: GraphqlDocument)
  {
    exists o :: o in d.operations && OperationProfile(o, d.fragments) == OperationProfile(op, fragments)
  }

  /** The two documents have the same operations as far as authorization can see. */
  ghost predicate EquivalentDocuments(d: GraphqlDocument, d': GraphqlDocument)
  {
    && (forall op :: op in d.operations ==> HasTwin(op, d.fragments, d'))
    && (forall op :: op in d'.operations ==> HasTwin(op, d'.fragments, d))
  }

  /** The same selected operation name, and equivalent documents or the same parse error. */
  ghost predicate EquivalentRequests(r: Request, r': Request)
  {
    && r.operationName == r'.operationName
    && (r.query.Ok? <==> r'.query.Ok?)
    && (r.query.Err? ==> r.query == r'.query)
    && (r.query.Ok? ==> EquivalentDocuments(r.query.value, r'.query.value))
  }

  ghost predicate EquivalentBatches(a: seq<Request>, b: seq<Request>)
  {
    |a| == |b| && forall i :: 0 <= i < |a| ==> EquivalentRequests(a[i], b[i])
  }

  lemma TwinToClassify(d: GraphqlDocument, d': GraphqlDocument, selected: Option<string>, op: Operation)
    returns (o: Operation)
    requires EquivalentDocuments(d, d') && op in ToClassify(d, selected)
    ensures o in ToClassify(d', selected) && OperationProfile(o, d'.fragments) == OperationProfile(op, d.fragments)
  {
    ToClassifyMeans(d, selected, op);
    assert HasTwin(op, d.fragments, d');
    o :| o in d'.operations && OperationProfile(o, d'.fragments) == OperationProfile(op, d.fragments);
    ToClassifyMeans(d', selected, o);
    if forall x :: x in d.operations ==> x.name != selected {
      forall y | y in d'.operations
        ensures y.name != selected
      {
        assert HasTwin(y, d'.fragments, d);
        var x :| x in d.operations && OperationProfile(x, d.fragments) == OperationProfile(y, d'.fragments);
        assert OperationProfile(x, d.fragments).name == x.name;
      }
    }
  }

  lemma EquivalentOne(r: Request, r': Request)
    requires EquivalentRequests(r, r') && ClassifyOne(r).Ok?
    ensures ClassifyOne(r').Ok? && Profiled(ClassifyOne(r).value, ClassifyOne(r').value)
  {
    var d, d' := r.query.value, r'.query.value;
    var ops, ops' := ToClassify(d, r.operationName), ToClassify(d', r.operationName);
    var first := TwinToClassify(d, d', r.operationName, ops[0]);
    var infos, infos' := ClassifyOne(r).value, ClassifyOne(r').value;
    forall info | info in infos
      ensures exists o :: o in infos' && ProfileOf(o) == ProfileOf(info)
    {
      var i :| 0 <= i < |infos| && infos[i] == info;
      var o := TwinToClassify(d, d', r.operationName, ops[i]);
      var j :| 0 <= j < |ops'| && ops'[j] == o;
      assert infos'[j] == Describe(o, d'.fragments);
      assert infos'[j] in infos' && ProfileOf(infos'[j]) == ProfileOf(info);
    }
  }

  lemma {:induction false} EquivalentAll(a: seq<Request>, b: seq<Request>)
    requires EquivalentBatches(a, b)
    ensures ClassifyAll(a).Err? ==> ClassifyAll(b) == ClassifyAll(a)
    ensures ClassifyAll(a).Ok? ==> ClassifyAll(b).Ok? && Profiled(ClassifyAll(a).value, ClassifyAll(b).value)
  {
    if a == [] {
    } else {
      EquivalentAll(a[1..], b[1..]);
      if ClassifyOne(a[0]).Ok? {
        EquivalentOne(a[0], b[0]);
        if ClassifyAll(a).Ok? {
          assert forall op :: op in ClassifyAll(a).value <==>
            op in ClassifyOne(a[0]).value || op in ClassifyAll(a[1..]).value;
          assert forall op :: op in ClassifyAll(b).value <==>
            op in ClassifyOne(b[0]).value || op in ClassifyAll(b[1..]).value;
        }
      } else if ClassifyOne(b[0]).Ok? {
        EquivalentOne(b[0], a[0]);
      }
    }
  }

  /**
   * Equivalent bodies fail alike or classify alike, and under the same overrides in any order get
   * the same scope and the same decision, with the same two listings.
   */
  lemma EquivalentDecideTheSame(
    p: Principal, a: seq<Request>, b: seq<Request>, overrides: seq<Override>, overrides': seq<Override>)
    requires EquivalentBatches(a, b) && multiset(overrides) == multiset(overrides')
    ensures ClassifyRequests(a).Err? ==> ClassifyRequests(b) == ClassifyRequests(a)
    ensures ClassifyRequests(a).Ok? ==>
              && ClassifyRequests(b).Ok?
              && ClassifyRequests(a).value.scope == ClassifyRequests(b).value.scope
              && Decide(p, ClassifyRequests(a).value, overrides) == Decide(p, ClassifyRequests(b).value, overrides')
  {
    EquivalentAll(a, b);
    EquivalentAll(b, a);
    forall ov
      ensures ov in overrides <==> ov in overrides'
    {
      assert ov in overrides <==> ov in multiset(overrides);
      assert ov in overrides' <==> ov in multiset(overrides');
    }
    if ClassifyRequests(a).Ok? {
      ProfilesDecide(p, ClassifyAll(a).value, ClassifyAll(b).value, overrides, overrides');
    }
  }

  // --- Ways of writing that are equivalent -------------------------------------------------

  ghost predicate SameOperation(op: Operation, o: Operation)
  {
    op.name == o.name && op.kind == o.kind && SameNames(op.items, o.items)
  }

  ghost predicate Recurs(op: Operation, operations: seq<Operation>)
  {
    exists o :: o in operations && SameOperation(op, o)
  }

  lemma RecurringIsTwin(op: Operation, d: GraphqlDocument, d': GraphqlDocument)
    requires SameFragments(d.fragments, d'.fragments) && Recurs(op, d'.operations)
    ensures HasTwin(op, d.fragments, d')
  {
    var o :| o in d'.operations && SameOperation(op, o);
    ReorderingKeepsFields(op.items, d.fragments, o.items, d'.fragments);
    assert OperationProfile(o, d'.fragments) == OperationProfile(op, d.fragments);
  }

  /** Operations in another order, items of any selection set in another order. */
  lemma ReorderedIsEquivalent(d: GraphqlDocument, d': GraphqlDocument)
    requires SameFragments(d.fragments, d'.fragments)
    requires forall op :: op in d.operations ==> Recurs(op, d'.operations)
    requires forall op :: op in d'.operations ==> Recurs(op, d.operations)
    ensures EquivalentDocuments(d, d')
  {
    forall op | op in d.operations
      ensures HasTwin(op, d.fragments, d')
    {
      RecurringIsTwin(op, d, d');
    }
    forall op | op in d'.operations
      ensures HasTwin(op, d'.fragments, d)
    {
      RecurringIsTwin(op, d', d);
    }
  }

  /** A hash map's iteration order of the operations does not show. */
  lemma PermutedIsEquivalent(d: GraphqlDocument, d': GraphqlDocument)
    requires d.fragments == d'.fragments && multiset(d.operations) == multiset(d'.operations)
    ensures EquivalentDocuments(d, d')
  {
    forall op: Operation
      ensures op in d.operations <==> op in d'.operations
    {
      assert op in d.operations <==> op in multiset(d.operations);
      assert op in d'.operations <==> op in multiset(d'.operations);
    }
  }

  lemma ReorderedBatches(a: Payload, b: Payload)
    requires Reordered(a, b)
    ensures EquivalentBatches(RequestsOf(a), RequestsOf(b))
  {
    var rs, rs' := RequestsOf(a), RequestsOf(b);
    forall i | 0 <= i < |rs|
      ensures EquivalentRequests(rs[i], rs'[i])
    {
      if rs[i].query.Ok? {
        PermutedIsEquivalent(rs[i].query.value, rs'[i].query.value);
      }
    }
  }

  lemma ReparsingProfiles(a: Payload, b: Payload)
    requires Reordered(a, b) && ClassifyPayload(a).Ok? && ClassifyPayload(b).Ok?
    ensures Profiled(ClassifyPayload(a).value.operations, ClassifyPayload(b).value.operations)
  {
    ReorderedBatches(a, b);
    EquivalentAll(RequestsOf(a), RequestsOf(b));
  }

  /**
   * Two parses of the same body fail alike, or give the same scope and the same decision with the
   * same listings, whatever order each met the operations in.
   */
  lemma ReparsingDecidesTheSame(p: Principal, a: Payload, b: Payload, overrides: seq<Override>)
    requires Reordered(a, b)
    ensures ClassifyPayload(a).Err? ==> ClassifyPayload(b) == ClassifyPayload(a)
    ensures ClassifyPayload(a).Ok? ==>
              && ClassifyPayload(b).Ok?
              && ClassifyPayload(a).value.scope == ClassifyPayload(b).value.scope
              && Decide(p, ClassifyPayload(a).value, overrides) == Decide(p, ClassifyPayload(b).value, overrides)
  {
    ReorderedBatches(a, b);
    EquivalentDecideTheSame(p, RequestsOf(a), RequestsOf(b), overrides, overrides);
  }

  /** A spread at an operation's root replaced by an inline copy of its fragment. */
  lemma InlinedIsEquivalent(d: GraphqlDocument, k: nat, at: nat, inline: Selection)
    requires k < |d.operations| && at < |d.operations[k].items|
    requires d.operations[k].items[at].Spread? && d.operations[k].items[at].fragment in d.fragments
    requires inline.Inline? && inline.items == d.fragments[d.operations[k].items[at].fragment].items
    ensures EquivalentDocuments(
              d, d.(operations := d.operations[k := d.operations[k].(items := d.operations[k].items[at := inline])]))
  {
    var op := d.operations[k];
    var op' := op.(items := op.items[at := inline]);
    InliningKeepsFields(op.items, d.fragments, at, inline);
    assert OperationProfile(op, d.fragments) == OperationProfile(op', d.fragments);
    PointwiseIsEquivalent(d, d.(operations := d.operations[k := op']));
  }

  lemma PointwiseIsEquivalent(d: GraphqlDocument, d': GraphqlDocument)
    requires |d.operations| == |d'.operations|
    requires forall i :: 0 <= i < |d.operations| ==>
               OperationProfile(d.operations[i], d.fragments) == OperationProfile(d'.operations[i], d'.fragments)
    ensures EquivalentDocuments(d, d')
  {
    forall op | op in d.operations
      ensures HasTwin(op, d.fragments, d')
    {
      var i :| 0 <= i < |d.operations| && d.operations[i] == op;
      assert d'.operations[i] in d'.operations;
    }
    forall op | op in d'.operations
      ensures HasTwin(op, d'.fragments, d)
    {
      var i :| 0 <= i < |d'.operations| && d'.operations[i] == op;
      assert d.operations[i] in d.operations;
    }
  }

  /** Fields aliased and fragments renamed throughout the document. */
  lemma MaskedIsEquivalent(d: GraphqlDocument, d': GraphqlDocument, rename: string -> string)
    requires Injective(rename) && MaskedFragments(d.fragments, d'.fragments, rename)
    requires |d.operations| == |d'.operations|
    requires forall i :: 0 <= i < |d.operations| ==>
               && d.operations[i].name == d'.operations[i].name && d.operations[i].kind == d'.operations[i].kind
               && Masked(d.operations[i].items, d'.operations[i].items, rename)
    ensures EquivalentDocuments(d, d')
  {
    forall i | 0 <= i < |d.operations|
      ensures OperationProfile(d.operations[i], d.fragments) == OperationProfile(d'.operations[i], d'.fragments)
    {
      MaskingChangesNothing(d.operations[i].items, d.fragments, d'.operations[i].items, d'.fragments, rename);
    }
    PointwiseIsEquivalent(d, d');
  }

  // --- What is executed is what was authorized --------------------------------------------

  /** The override applies to what a server executes: operation name and/or executed root field. */
  ghost predicate AppliesTo(ov: Override, op: Operation, executed: set<string>)
  {
    && !(ov.field.None? && ov.operation.None?)
    && (ov.field.Some? ==> ov.field.value in executed)
    && (ov.operation.Some? ==> op.name == ov.operation)
  }

  /** The principal holds what the executed operation calls for, whatever its conditions decide. */
  ghost predicate CoversExecution(p: Principal, op: Operation, fragments: Fragments, overrides: seq<Override>)
  {
    && Holds(p, "read")
    && (op.kind == Mutation ==> Holds(p, "write"))
    && (forall w, ov, s ::
          (ov in overrides && AppliesTo(ov, op, ExecutedFields(op.items, fragments, w)) && s in ov.requireScopes)
          ==> Holds(p, s))
  }

  /** A granted body covers every operation that a server would pick from it and execute. */
  lemma GrantCoversExecution(
    p: Principal, requests: seq<Request>, overrides: seq<Override>, request: Request, op: Operation)
    requires ClassifyRequests(requests).Ok?
    requires Decide(p, ClassifyRequests(requests).value, overrides).Granted?
    requires request in requests && request.query.Ok?
    requires GetOperation(request.query.value, request.operationName) == Some(op)
    ensures CoversExecution(p, op, request.query.value.fragments, overrides)
  {
    var c, fragments := ClassifyRequests(requests).value, request.query.value.fragments;
    DecisionMeans(p, c, overrides);
    ExecutableIsClassified(requests, request, op);
    var info := Describe(op, fragments);
    WriteMeansMutation(c.operations);
    assert BaseScope(c.scope) in Required(c, overrides);
    forall w, ov, s |
      ov in overrides && AppliesTo(ov, op, ExecutedFields(op.items, fragments, w)) && s in ov.requireScopes
      ensures Holds(p, s)
    {
      ExecutedIsCollected(op.items, fragments, w);
      assert Matches(ov, info);
      assert s in OverrideRequired(c.operations, overrides);
    }
  }
}
