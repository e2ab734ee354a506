/**
 * What a GraphQL server executes, from the October 2021 edition of the GraphQL specification:
 * GetOperation (section 6.1) and CollectFields (section 6.3.2). The gateway never runs these;
 * they are the independent reference that its field collection is measured against.
 */
module Execution {
  import opened Prelude
  import opened Document
  import opened Reachability
  import opened Collector

  /** One gathered field. The specification groups these by response key, in this order. */
  datatype Gathered = Gathered(responseKey: string, name: string)

  datatype Collected = Collected(fields: seq<Gathered>, visited: set<string>)

  /** The outcome of `@skip`/`@include` on an item and of type conditions on the root type. */
  datatype Conditions = Conditions(keep: seq<Directive> -> bool, applies: string -> bool)

  function GatheredHere(item: Selection, w: Conditions): (r: seq<Gathered>)
  {
    if item.Field? && w.keep(item.directives) then
      [Gathered(if item.alias.Some? then item.alias.value else item.name, item.name)]
    else []
  }

  function MarkedHere(item: Selection, w: Conditions, visited: set<string>): (r: set<string>)
  {
    if item.Spread? && w.keep(item.directives) then visited + {item.fragment} else visited
  }

  function EnteredHere(item: Selection, fragments: Fragments, w: Conditions, visited: set<string>)
    : (r: seq<Selection>)
  {
    match item
    case Field(_, _, _) => []
    case Spread(f, directives) =>
      if w.keep(directives) && f !in visited && f in fragments && w.applies(fragments[f].typeCondition)
      then fragments[f].items else []
    case Inline(condition, directives, body) =>
      if w.keep(directives) && (condition.None? || w.applies(condition.value)) then body else []
  }

  function CollectFields(items: seq<Selection>, fragments: Fragments, w: Conditions, visited: set<string>)
    : (r: Collected)
    ensures visited <= r.visited
    decreases fragments.Keys - visited, Size(items)
  {
    if items == [] then Collected([], visited)
    else
      var inner := CollectFields(
        EnteredHere(items[0], fragments, w, visited), fragments, w, MarkedHere(items[0], w, visited));
      var rest := CollectFields(items[1..], fragments, w, inner.visited);
      Collected(GatheredHere(items[0], w) + inner.fields + rest.fields, rest.visited)
  }

  /** Names of the root fields an operation executes under given conditions. */
  function ExecutedFields(items: seq<Selection>, fragments: Fragments, w: Conditions): (r: set<string>)
  {
    set g | g in CollectFields(items, fragments, w, {}).fields :: g.name
  }

  function GetOperation(doc: GraphqlDocument, operationName: Option<string>): (r: Option<Operation>)
  {
    match operationName
    case None => if |doc.operations| == 1 then Some(doc.operations[0]) else None
    case Some(_) => FindOperation(doc.operations, operationName)
  }

  function FindOperation(operations: seq<Operation>, name: Option<string>): (r: Option<Operation>)
    ensures r.Some? ==> r.value in operations && r.value.name == name
  {
    if operations == [] then None
    else if operations[0].name == name then Some(operations[0])
    else FindOperation(operations[1..], name)
  }

  /** Whatever the server gathers is reachable, although its visited set fills differently. */
  lemma {:induction false} GatheredIsReachable(
    items: seq<Selection>, fragments: Fragments, w: Conditions, visited: set<string>, g: Gathered)
    requires g in CollectFields(items, fragments, w, visited).fields
    ensures FieldReachable(items, fragments, g.name)
    decreases fragments.Keys - visited, Size(items)
  {
    var entered, marked := EnteredHere(items[0], fragments, w, visited), MarkedHere(items[0], w, visited);
    var inner := CollectFields(entered, fragments, w, marked);
    BodyBelow(items, fragments, Progress([], visited));
    BelowEmpty(items, fragments);
    if g in GatheredHere(items[0], w) {
      assert g.name in DirectFields(items);
      DirectIsReachable(items, fragments);
    } else if g in inner.fields {
      GatheredIsReachable(entered, fragments, w, marked, g);
    } else {
      GatheredIsReachable(items[1..], fragments, w, inner.visited, g);
    }
  }

  /** Whatever `@skip`, `@include` and type conditions decide, every executed root field is collected. */
  lemma ExecutedIsCollected(items: seq<Selection>, fragments: Fragments, w: Conditions)
    ensures ExecutedFields(items, fragments, w) <= Elements(CollectTopFields(items, fragments))
  {
    forall g | g in CollectFields(items, fragments, w, {}).fields
      ensures g.name in CollectTopFields(items, fragments)
    {
      GatheredIsReachable(items, fragments, w, {}, g);
      CollectsExactlyReachable(items, fragments, g.name);
    }
  }

  // --- Tightness: nothing is collected that no execution could gather --------------------

  /** Nothing is skipped and every type condition applies. */
  const EVERYTHING: Conditions := Conditions((d: seq<Directive>) => true, (t: string) => true)

  function GatheredNames(fields: seq<Gathered>): (r: seq<string>)
  {
    seq(|fields|, i requires 0 <= i < |fields| => fields[i].name)
  }

  /** When nothing is skipped the two walks agree, mark for mark and name for name. */
  lemma {:induction false} WalkIsFullCollection(items: seq<Selection>, fragments: Fragments, p: Progress)
    ensures var r := CollectFields(items, fragments, EVERYTHING, p.visited);
            Walk(items, fragments, p) == Progress(PushAll(p.out, GatheredNames(r.fields)), r.visited)
    decreases fragments.Keys - p.visited, Size(items)
  {
    if items == [] {
    } else {
      var body, before := Body(items[0], fragments, p), Before(items[0], p);
      var inner := CollectFields(body, fragments, EVERYTHING, before.visited);
      var rest := CollectFields(items[1..], fragments, EVERYTHING, inner.visited);
      assert EnteredHere(items[0], fragments, EVERYTHING, p.visited) == body;
      assert MarkedHere(items[0], EVERYTHING, p.visited) == before.visited;
      WalkIsFullCollection(body, fragments, before);
      WalkIsFullCollection(items[1..], fragments, Walk(body, fragments, before));
      PushGathered(p.out, items[0], inner.fields, rest.fields);
    }
  }

  lemma PushGathered(out: seq<string>, item: Selection, inner: seq<Gathered>, rest: seq<Gathered>)
    ensures PushAll(out, GatheredNames(GatheredHere(item, EVERYTHING) + inner + rest))
         == PushAll(PushAll(Before(item, Progress(out, {})).out, GatheredNames(inner)), GatheredNames(rest))
  {
    var here := GatheredHere(item, EVERYTHING);
    assert GatheredNames(here + inner + rest)
        == GatheredNames(here) + GatheredNames(inner) + GatheredNames(rest);
    PushAllAppend(out, GatheredNames(here) + GatheredNames(inner), GatheredNames(rest));
    PushAllAppend(out, GatheredNames(here), GatheredNames(inner));
    if item.Field? {
      assert GatheredNames(here) == [item.name];
      assert PushAll(Push(out, item.name), []) == Push(out, item.name);
    } else {
      assert GatheredNames(here) == [];
    }
  }

  /** The collected list is the de-duplicated list of fields an execution that skips nothing gathers. */
  lemma CollectedIsFullExecution(items: seq<Selection>, fragments: Fragments)
    ensures CollectTopFields(items, fragments)
         == FirstOccurrences(GatheredNames(CollectFields(items, fragments, EVERYTHING, {}).fields))
    ensures Elements(CollectTopFields(items, fragments)) == ExecutedFields(items, fragments, EVERYTHING)
  {
    var names := GatheredNames(CollectFields(items, fragments, EVERYTHING, {}).fields);
    WalkIsFullCollection(items, fragments, Progress([], {}));
    PushAllIsFirstOccurrences(names);
    PushAllElements([], names);
    ExecutedIsCollected(items, fragments, EVERYTHING);
    assert forall i :: 0 <= i < |names| ==> names[i] in ExecutedFields(items, fragments, EVERYTHING);
  }
}
