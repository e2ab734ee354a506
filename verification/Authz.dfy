/** Authorization: do a principal's scopes cover a classified request under the policy overrides? */
module Authz {
  import opened Prelude
  import opened Classify
  import opened ScopeSets

  datatype Principal = Principal(name: string, scopes: set<string>) {

    /** `write` implies `read`; every other scope is matched exactly. */
    predicate Satisfies(required: string)
    {
      required in scopes || (required == "read" && "write" in scopes)
    }
  }

  const ANONYMOUS: Principal := Principal("anonymous", {"read"})

  datatype Override = Override(field: Option<string>, operation: Option<string>, requireScopes: seq<string>)

  datatype Decision = Granted(required: seq<string>) | Denied(required: seq<string>, missing: seq<string>)

  function BaseScope(scope: Scope): (r: string)
  {
    match scope
    case Read => "read"
    case Write => "write"
  }

  predicate Matches(ov: Override, op: OperationInfo)
  {
    && !(ov.field.None? && ov.operation.None?)
    && (ov.field.Some? ==> ov.field.value in op.topLevelFields)
    && (ov.operation.Some? ==> op.name == ov.operation)
  }

  function OverrideScopes(overrides: seq<Override>, op: OperationInfo): (r: seq<string>)
  {
    if overrides == [] then []
    else (if Matches(overrides[0], op) then overrides[0].requireScopes else []) + OverrideScopes(overrides[1..], op)
  }

  function OperationScopes(operations: seq<OperationInfo>, overrides: seq<Override>): (r: seq<string>)
  {
    if operations == [] then []
    else OverrideScopes(overrides, operations[0]) + OperationScopes(operations[1..], overrides)
  }

  function Unsatisfied(p: Principal, required: seq<string>): (r: seq<string>)
  {
    if required == [] then []
    else (if p.Satisfies(required[0]) then [] else [required[0]]) + Unsatisfied(p, required[1..])
  }

  function Conclude(p: Principal, required: seq<string>): (r: Decision)
  {
    var missing := Unsatisfied(p, required);
    if missing == [] then Granted(required) else Denied(required, missing)
  }

  /** The decision, gathered in the order in which the program meets operations and overrides. */
  function Decide(p: Principal, c: Classification, overrides: seq<Override>): (r: Decision)
  {
    Conclude(p, InsertAll([], [BaseScope(c.scope)] + OperationScopes(c.operations, overrides)))
  }

  // --- What a decision means ------------------------------------------------------------

  /** Every scope a request calls for, as a set: base scope plus those of each matching override. */
  ghost function Required(c: Classification, overrides: seq<Override>): (r: set<string>)
  {
    {BaseScope(c.scope)} + OverrideRequired(c.operations, overrides)
  }

  ghost function OverrideRequired(operations: seq<OperationInfo>, overrides: seq<Override>): (r: set<string>)
  {
    set op, ov, s | op in operations && ov in overrides && Matches(ov, op) && s in ov.requireScopes :: s
  }

  ghost predicate Authorized(p: Principal, c: Classification, overrides: seq<Override>)
  {
    forall s :: s in Required(c, overrides) ==> p.Satisfies(s)
  }

  lemma {:induction false} OverrideScopesMeans(overrides: seq<Override>, op: OperationInfo, s: string)
    ensures s in OverrideScopes(overrides, op)
       <==> exists ov :: ov in overrides && Matches(ov, op) && s in ov.requireScopes
  {
    if overrides == [] {
    } else {
      OverrideScopesMeans(overrides[1..], op, s);
      assert forall ov :: ov in overrides <==> ov == overrides[0] || ov in overrides[1..];
    }
  }

  lemma {:induction false} OperationScopesMeans(operations: seq<OperationInfo>, overrides: seq<Override>, s: string)
    ensures s in OperationScopes(operations, overrides) <==> s in OverrideRequired(operations, overrides)
  {
    if operations == [] {
    } else {
      OverrideScopesMeans(overrides, operations[0], s);
      OperationScopesMeans(operations[1..], overrides, s);
      assert forall op :: op in operations <==> op == operations[0] || op in operations[1..];
    }
  }

  lemma {:induction false} UnsatisfiedMeans(p: Principal, required: seq<string>)
    requires StrictlySorted(required)
    ensures StrictlySorted(Unsatisfied(p, required))
    ensures forall s :: s in Unsatisfied(p, required) <==> s in required && !p.Satisfies(s)
  {
    if required == [] {
    } else {
      UnsatisfiedMeans(p, required[1..]);
      assert forall s :: s in required <==> s == required[0] || s in required[1..];
      var rest := Unsatisfied(p, required[1..]);
      forall j | 0 <= j < |rest|
        ensures Less(required[0], rest[j])
      {
        assert rest[j] in required[1..];
        var k :| 0 <= k < |required[1..]| && required[1..][k] == rest[j];
        assert required[k + 1] == rest[j];
      }
    }
  }

  /**
   * `required` lists exactly the required scopes in order, `missing` exactly those of them the
   * principal does not satisfy, and access is granted exactly when none is missing.
   */
  lemma DecisionMeans(p: Principal, c: Classification, overrides: seq<Override>)
    ensures var d := Decide(p, c, overrides);
            && StrictlySorted(d.required)
            && Elements(d.required) == Required(c, overrides)
            && (d.Granted? <==> Authorized(p, c, overrides))
            && (d.Denied? ==> StrictlySorted(d.missing)
                              && forall s :: s in d.missing <==> s in Required(c, overrides) && !p.Satisfies(s))
  {
    var listed := [BaseScope(c.scope)] + OperationScopes(c.operations, overrides);
    var required := InsertAll([], listed);
    InsertAllSorted([], listed);
    forall s
      ensures s in Elements(listed) <==> s in Required(c, overrides)
    {
      OperationScopesMeans(c.operations, overrides, s);
    }
    UnsatisfiedMeans(p, required);
    assert forall s :: s in required <==> s in Elements(required);
    var missing := Unsatisfied(p, required);
    if missing != [] {
      assert missing[0] in missing;
      assert !Authorized(p, c, overrides);
    }
  }

  /** The principal holds the scope, or holds `write` where `read` is asked for. */
  ghost predicate Holds(p: Principal, s: string)
  {
    s in p.scopes || (s == "read" && "write" in p.scopes)
  }

  /** The classified request calls for the scope: as its base scope, or by an override about one of its operations. */
  ghost predicate CallsFor(c: Classification, overrides: seq<Override>, s: string)
  {
    || s == (if c.scope == Write then "write" else "read")
    || exists op, ov :: op in c.operations && ov in overrides && IsAbout(ov, op.name, op.topLevelFields)
         && s in ov.requireScopes
  }

  /** The override sets a constraint, and each constraint it sets is met. */
  ghost predicate IsAbout(ov: Override, name: Option<string>, fields: seq<string>)
  {
    match (ov.field, ov.operation)
    case (None, None) => false
    case (Some(f), None) => f in fields
    case (None, Some(o)) => name == Some(o)
    case (Some(f), Some(o)) => f in fields && name == Some(o)
  }

  /**
   * The decision over the scopes a principal holds: granted exactly when it holds every scope
   * called for; `required` and `missing` list, each scope once and in order, exactly the scopes
   * called for and those of them not held.
   */
  lemma GrantMeans(p: Principal, c: Classification, overrides: seq<Override>)
    ensures var d := Decide(p, c, overrides);
            && (d.Granted? <==> forall s :: CallsFor(c, overrides, s) ==> Holds(p, s))
            && Ordered(d.required) && (forall s :: s in d.required <==> CallsFor(c, overrides, s))
            && (d.Denied? ==>
                  Ordered(d.missing)
                  && forall s :: s in d.missing <==> CallsFor(c, overrides, s) && !Holds(p, s))
  {
    var d := Decide(p, c, overrides);
    DecisionMeans(p, c, overrides);
    SortedIsOrdered(d.required);
    if d.Denied? {
      SortedIsOrdered(d.missing);
    }
    assert forall ov, op :: Matches(ov, op) <==> IsAbout(ov, op.name, op.topLevelFields);
    forall s
      ensures s in Required(c, overrides) <==> CallsFor(c, overrides, s)
      ensures p.Satisfies(s) <==> Holds(p, s)
    {
      CalledForIsRequired(c, overrides, s);
    }
    assert forall s :: s in d.required <==> s in Elements(d.required);
  }

  lemma CalledForIsRequired(c: Classification, overrides: seq<Override>, s: string)
    ensures s in Required(c, overrides) <==> CallsFor(c, overrides, s)
  {
    assert forall ov, op :: Matches(ov, op) <==> IsAbout(ov, op.name, op.topLevelFields);
  }

  /** Whoever holds neither `read` nor `write` is denied everything, for want of the base scope. */
  lemma NeitherReadNorWrite(p: Principal, c: Classification, overrides: seq<Override>)
    requires "read" !in p.scopes && "write" !in p.scopes
    ensures Decide(p, c, overrides).Denied?
    ensures (if c.scope == Write then "write" else "read") in Decide(p, c, overrides).missing
  {
    GrantMeans(p, c, overrides);
    assert CallsFor(c, overrides, if c.scope == Write then "write" else "read");
  }

  /** Requests calling for the same scopes get the same decision, listings included. */
  lemma SameRequirementSameDecision(
    p: Principal, c: Classification, overrides: seq<Override>, c': Classification, overrides': seq<Override>)
    requires Required(c, overrides) == Required(c', overrides')
    ensures Decide(p, c, overrides) == Decide(p, c', overrides')
  {
    DecisionMeans(p, c, overrides);
    DecisionMeans(p, c', overrides');
    SortedIsCanonical(Decide(p, c, overrides).required, Decide(p, c', overrides').required);
  }

  // --- Authorization as the program runs it ---------------------------------------------

  method ExtendRequired(required: seq<string>, op: OperationInfo, overrides: seq<Override>)
    returns (extended: seq<string>)
    ensures extended == InsertAll(required, OverrideScopes(overrides, op))
  {
    extended := required;
    for j := 0 to |overrides|
      invariant InsertAll(extended, OverrideScopes(overrides[j..], op))
             == InsertAll(required, OverrideScopes(overrides, op))
    {
      assert overrides[j..][0] == overrides[j] && overrides[j..][1..] == overrides[j + 1..];
      ghost var later := OverrideScopes(overrides[j + 1..], op);
      assert [] + later == later;
      if Matches(overrides[j], op) {
        InsertAllAppend(extended, overrides[j].requireScopes, later);
        extended := InsertAll(extended, overrides[j].requireScopes);
      }
    }
  }

  method Authorize(p: Principal, c: Classification, overrides: seq<Override>) returns (r: Decision)
    ensures r == Decide(p, c, overrides)
  {
    var base := BaseScope(c.scope);
    var required := Insert([], base);
    ghost var all := InsertAll([], [base] + OperationScopes(c.operations, overrides));
    for i := 0 to |c.operations|
      invariant InsertAll(required, OperationScopes(c.operations[i..], overrides)) == all
    {
      var op := c.operations[i];
      assert c.operations[i..][0] == op && c.operations[i..][1..] == c.operations[i + 1..];
      InsertAllAppend(required, OverrideScopes(overrides, op), OperationScopes(c.operations[i + 1..], overrides));
      required := ExtendRequired(required, op, overrides);
    }
    r := Conclude(p, required);
  }
}
