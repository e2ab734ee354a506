/** Parsed GraphQL documents, as far as field collection looks at them. */
module Document {
  import opened Prelude

  datatype Directive = Directive(name: string, condition: string)

  /** Sub-selections of a field are not represented: collection never descends into a field. */
  datatype Selection =
    | Field(alias: Option<string>, name: string, directives: seq<Directive>)
    | Spread(fragment: string, directives: seq<Directive>)
    | Inline(typeCondition: Option<string>, directives: seq<Directive>, items: seq<Selection>)

  datatype Fragment = Fragment(typeCondition: string, items: seq<Selection>)

  /** Fragment definitions by name; a spread may name a fragment that is not defined. */
  type Fragments = map<string, Fragment>

  datatype OperationKind = Query | Mutation | Subscription

  /** `name` is `None` for the anonymous operation. */
  datatype Operation = Operation(name: Option<string>, kind: OperationKind, items: seq<Selection>)

  /** `operations` is in iteration order, which for several operations is a hash map's. */
  datatype GraphqlDocument = GraphqlDocument(operations: seq<Operation>, fragments: Fragments)

  /** Items of a selection set, those nested in inline fragments included. */
  function Size(items: seq<Selection>): (n: nat)
    ensures n >= |items|
  {
    if items == [] then 0
    else 1 + (if items[0].Inline? then Size(items[0].items) else 0) + Size(items[1..])
  }

  lemma {:induction false} SizeOfSuffix(items: seq<Selection>, i: nat)
    requires i <= |items|
    ensures Size(items[i..]) <= Size(items)
    ensures i < |items| && items[i].Inline? ==> Size(items[i].items) < Size(items)
  {
    if i == 0 {
      assert items[0..] == items;
    } else {
      assert items[i..] == items[1..][i - 1..];
      SizeOfSuffix(items[1..], i - 1);
      assert i < |items| ==> items[i] == items[1..][i - 1];
    }
  }

  /** Names of the fields in a selection set, looking through inline fragments only. */
  function DirectFields(items: seq<Selection>): (r: set<string>)
  {
    if items == [] then {} else FieldsOf(items[0]) + DirectFields(items[1..])
  }

  function FieldsOf(item: Selection): (r: set<string>)
  {
    match item
    case Field(_, name, _) => {name}
    case Spread(_, _) => {}
    case Inline(_, _, body) => DirectFields(body)
  }

  /** Names of the fragments spread in a selection set, looking through inline fragments only. */
  function DirectSpreads(items: seq<Selection>): (r: set<string>)
  {
    if items == [] then {} else SpreadsOf(items[0]) + DirectSpreads(items[1..])
  }

  function SpreadsOf(item: Selection): (r: set<string>)
  {
    match item
    case Field(_, _, _) => {}
    case Spread(f, _) => {f}
    case Inline(_, _, body) => DirectSpreads(body)
  }

  /** The direct names of a selection set are those of its items, wherever they stand. */
  lemma {:induction false} DirectMembers(items: seq<Selection>, x: string)
    ensures x in DirectFields(items) <==> exists i :: 0 <= i < |items| && x in FieldsOf(items[i])
    ensures x in DirectSpreads(items) <==> exists i :: 0 <= i < |items| && x in SpreadsOf(items[i])
  {
    if items == [] {
    } else {
      var rest := items[1..];
      DirectMembers(rest, x);
      assert forall i :: 0 <= i < |rest| ==> rest[i] == items[i + 1];
      assert forall i :: 1 <= i < |items| ==> items[i] == rest[i - 1];
    }
  }
}
