/**
 * The naive expansion that the visited set replaces: every spread is replaced by its fragment's
 * body, as often as it occurs, with nothing remembered.
 */
module Expansion {
  import opened Prelude
  import opened Document
  import opened Reachability
  import opened Collector

  // --- Cut at a spread depth: defined for every fragment map ----------------------------

  function ExpandTo(items: seq<Selection>, fragments: Fragments, depth: nat): (r: seq<string>)
    decreases depth, Size(items), 1
  {
    if items == [] then []
    else ExpandItemTo(items[0], fragments, depth) + ExpandTo(items[1..], fragments, depth)
  }

  function ExpandItemTo(item: Selection, fragments: Fragments, depth: nat): (r: seq<string>)
    decreases depth, if item.Inline? then Size(item.items) + 1 else 1, 0
  {
    match item
    case Field(_, name, _) => [name]
    case Spread(f, _) => if depth > 0 && f in fragments then ExpandTo(fragments[f].items, fragments, depth - 1) else []
    case Inline(_, _, body) => ExpandTo(body, fragments, depth)
  }

  /** Every name the cut expansion yields is reached by a path no longer than the cut. */
  lemma {:induction false} CutSound(items: seq<Selection>, fragments: Fragments, depth: nat, f: string)
    returns (path: seq<string>)
    requires f in ExpandTo(items, fragments, depth)
    ensures |path| <= depth && ReachesField(items, fragments, path, f)
    decreases depth, Size(items)
  {
    if f in ExpandItemTo(items[0], fragments, depth) {
      match items[0]
      case Field(_, _, _) => path := [];
      case Spread(n, _) =>
        var rest := CutSound(fragments[n].items, fragments, depth - 1, f);
        path := [n] + rest;
        assert path[1..] == rest;
      case Inline(_, _, body) => path := CutSound(body, fragments, depth, f);
    } else {
      path := CutSound(items[1..], fragments, depth, f);
    }
  }

  /** Every name reached by a path no longer than the cut is in the cut expansion. */
  lemma {:induction false} CutComplete(
    items: seq<Selection>, fragments: Fragments, depth: nat, path: seq<string>, f: string)
    requires |path| <= depth && ReachesField(items, fragments, path, f)
    ensures f in ExpandTo(items, fragments, depth)
    decreases |path|, Size(items)
  {
    var head, rest := items[0], items[1..];
    if ReachesField(rest, fragments, path, f) {
      CutComplete(rest, fragments, depth, path, f);
    } else {
      assert if path == [] then f in FieldsOf(head) else path[0] in SpreadsOf(head);
      match head
      case Field(_, _, _) =>
      case Spread(n, _) => CutComplete(fragments[n].items, fragments, depth - 1, path[1..], f);
      case Inline(_, _, body) => CutComplete(body, fragments, depth, path, f);
    }
  }

  /** At any depth the cut expansion stays inside what the walk collects. */
  lemma CutWithinCollected(items: seq<Selection>, fragments: Fragments, depth: nat)
    ensures Elements(ExpandTo(items, fragments, depth)) <= Elements(CollectTopFields(items, fragments))
  {
    forall f | f in ExpandTo(items, fragments, depth)
      ensures f in CollectTopFields(items, fragments)
    {
      var path := CutSound(items, fragments, depth, f);
      CollectsExactlyReachable(items, fragments, f);
    }
  }

  /** From a depth of the number of defined fragments on, it yields exactly what the walk collects. */
  lemma DeepCutIsCollected(items: seq<Selection>, fragments: Fragments, depth: nat)
    requires depth >= |fragments|
    ensures Elements(ExpandTo(items, fragments, depth)) == Elements(CollectTopFields(items, fragments))
  {
    CutWithinCollected(items, fragments, depth);
    forall f | f in CollectTopFields(items, fragments)
      ensures f in ExpandTo(items, fragments, depth)
    {
      CollectsExactlyReachable(items, fragments, f);
      var path :| ReachesField(items, fragments, path, f);
      var short := ShortPath(items, fragments, path);
      CutComplete(items, fragments, depth, short, f);
    }
  }

  // --- Full expansion: defined where no cycle can be reached ----------------------------

  /** Defined fragments reachable from a selection set. */
  ghost function Names(items: seq<Selection>, fragments: Fragments): (r: set<string>)
  {
    set n | n in fragments && SpreadReachable(items, fragments, n)
  }

  /** No fragment that `items` can come to leads back to a spread of itself. */
  ghost predicate Acyclic(items: seq<Selection>, fragments: Fragments)
  {
    forall n :: n in Names(items, fragments) ==> !SpreadReachable(fragments[n].items, fragments, n)
  }

  lemma NamesOfRest(items: seq<Selection>, fragments: Fragments)
    requires items != []
    ensures Names(items[1..], fragments) <= Names(items, fragments)
    ensures items[0].Inline? ==> Names(items[0].items, fragments) <= Names(items, fragments)
  {
    BelowByDirect(items[1..], items, fragments);
    if items[0].Inline? {
      BelowByDirect(items[0].items, items, fragments);
    }
  }

  lemma NamesShrink(items: seq<Selection>, fragments: Fragments, n: string)
    requires Acyclic(items, fragments) && n in fragments && n in DirectSpreads(items)
    ensures Names(fragments[n].items, fragments) < Names(items, fragments)
    ensures Acyclic(fragments[n].items, fragments)
  {
    BelowBySpread(items, fragments, n);
    DirectIsReachable(items, fragments);
    assert n in Names(items, fragments) && n !in Names(fragments[n].items, fragments);
  }

  /** The unguarded recursion; it terminates because each step leaves a fragment behind for good. */
  ghost function Expand(items: seq<Selection>, fragments: Fragments): (r: seq<string>)
    requires Acyclic(items, fragments)
    decreases Names(items, fragments), Size(items)
  {
    if items == [] then []
    else
      NamesOfRest(items, fragments);
      var here :=
        match items[0]
        case Field(_, name, _) => [name]
        case Spread(f, _) =>
          if f in fragments then
            NamesShrink(items, fragments, f);
            Expand(fragments[f].items, fragments)
          else []
        case Inline(_, _, body) => Expand(body, fragments);
      here + Expand(items[1..], fragments)
  }

  /** The full expansion is what the cut expansion settles on. */
  lemma {:induction false} ExpandIsDeepCut(items: seq<Selection>, fragments: Fragments, depth: nat)
    requires Acyclic(items, fragments)
    requires depth >= |Names(items, fragments)|
    ensures ExpandTo(items, fragments, depth) == Expand(items, fragments)
    decreases depth, Size(items)
  {
    if items == [] {
    } else {
      NamesOfRest(items, fragments);
      SubsetIsSmaller(Names(items[1..], fragments), Names(items, fragments));
      ExpandIsDeepCut(items[1..], fragments, depth);
      match items[0]
      case Field(_, _, _) =>
      case Spread(n, _) =>
        if n in fragments {
          NamesShrink(items, fragments, n);
          SubsetIsSmaller(Names(fragments[n].items, fragments), Names(items, fragments));
          ExpandIsDeepCut(fragments[n].items, fragments, depth - 1);
        }
      case Inline(_, _, body) =>
        SubsetIsSmaller(Names(body, fragments), Names(items, fragments));
        ExpandIsDeepCut(body, fragments, depth);
    }
  }

  lemma {:induction false} SubsetIsSmaller<T>(a: set<T>, b: set<T>)
    requires a <= b
    ensures |a| <= |b|
    ensures a < b ==> |a| < |b|
  {
    assert |b| == |a| + |b - a| by {
      assert b == a + (b - a);
    }
  }

  lemma ExpandIsReachable(items: seq<Selection>, fragments: Fragments, f: string)
    requires Acyclic(items, fragments)
    ensures f in Expand(items, fragments) <==> FieldReachable(items, fragments, f)
  {
    SubsetIsSmaller(Names(items, fragments), fragments.Keys);
    ExpandIsDeepCut(items, fragments, |fragments|);
    DeepCutIsCollected(items, fragments, |fragments|);
    CollectsExactlyReachable(items, fragments, f);
    assert f in Expand(items, fragments) <==> f in Elements(ExpandTo(items, fragments, |fragments|));
    assert f in CollectTopFields(items, fragments) <==> f in Elements(CollectTopFields(items, fragments));
  }

  lemma BodyIsAcyclic(items: seq<Selection>, fragments: Fragments, p: Progress)
    requires items != [] && Acyclic(items, fragments)
    ensures Acyclic(Body(items[0], fragments, p), fragments)
  {
    BodyBelow(items, fragments, p);
  }

  /** Every marked fragment that `items` can still come to has all its fields collected. */
  ghost predicate MarkedAreDone(items: seq<Selection>, fragments: Fragments, p: Progress)
  {
    forall n, f :: n in p.visited && n in Names(items, fragments) ==>
      FieldReachable(fragments[n].items, fragments, f) ==> f in p.out
  }

  /** The walk extends its output by the expansion, skipping what is already there. */
  lemma {:induction false} WalkIsPushedExpansion(items: seq<Selection>, fragments: Fragments, p: Progress)
    requires Acyclic(items, fragments) && MarkedAreDone(items, fragments, p)
    ensures Walk(items, fragments, p).out == PushAll(p.out, Expand(items, fragments))
    decreases fragments.Keys - p.visited, Size(items)
  {
    if items == [] {
    } else {
      var rest := items[1..];
      var body, before := Body(items[0], fragments, p), Before(items[0], p);
      var inner := Walk(body, fragments, before);
      NamesOfRest(items, fragments);
      HeadExpansion(items, fragments, p);
      DoneAfterHead(items, fragments, p);
      WalkIsPushedExpansion(rest, fragments, inner);
      PushAllAppend(p.out, HeadOf(items, fragments), Expand(rest, fragments));
    }
  }

  /** What the first item of a selection set expands to. */
  ghost function HeadOf(items: seq<Selection>, fragments: Fragments): (r: seq<string>)
    requires Acyclic(items, fragments) && items != []
    ensures Acyclic(items[1..], fragments) && Expand(items, fragments) == r + Expand(items[1..], fragments)
  {
    NamesOfRest(items, fragments);
    match items[0]
    case Field(_, name, _) => [name]
    case Spread(f, _) =>
      if f in fragments then
        NamesShrink(items, fragments, f);
        Expand(fragments[f].items, fragments)
      else []
    case Inline(_, _, body) => Expand(body, fragments)
  }

  lemma {:induction false} HeadExpansion(items: seq<Selection>, fragments: Fragments, p: Progress)
    requires Acyclic(items, fragments) && items != [] && MarkedAreDone(items, fragments, p)
    ensures Walk(Body(items[0], fragments, p), fragments, Before(items[0], p)).out
         == PushAll(p.out, HeadOf(items, fragments))
    decreases fragments.Keys - p.visited, Size(items), 0
  {
    var body, before := Body(items[0], fragments, p), Before(items[0], p);
    match items[0]
    case Field(_, name, _) =>
    case Spread(n, _) =>
      if n in fragments {
        NamesShrink(items, fragments, n);
        DirectIsReachable(items, fragments);
        if n in p.visited {
          forall f | f in Expand(fragments[n].items, fragments)
            ensures f in p.out
          {
            ExpandIsReachable(fragments[n].items, fragments, f);
          }
          PushAllKnown(p.out, Expand(fragments[n].items, fragments));
        } else {
          WalkIsPushedExpansion(body, fragments, before);
        }
      }
    case Inline(_, _, _) =>
      NamesOfRest(items, fragments);
      WalkIsPushedExpansion(body, fragments, before);
  }

  lemma DoneAfterHead(items: seq<Selection>, fragments: Fragments, p: Progress)
    requires Acyclic(items, fragments) && items != [] && MarkedAreDone(items, fragments, p)
    requires Walk(Body(items[0], fragments, p), fragments, Before(items[0], p)).out
          == PushAll(p.out, HeadOf(items, fragments))
    ensures MarkedAreDone(items[1..], fragments, Walk(Body(items[0], fragments, p), fragments, Before(items[0], p)))
  {
    var body, before := Body(items[0], fragments, p), Before(items[0], p);
    var inner := Walk(body, fragments, before);
    NamesOfRest(items, fragments);
    PushAllElements(p.out, HeadOf(items, fragments));
    WalkSound(body, fragments, before);
    forall n, f | n in inner.visited && n in Names(items[1..], fragments)
      && FieldReachable(fragments[n].items, fragments, f)
      ensures f in inner.out
    {
      if n !in p.visited {
        if n in before.visited {
          NamesShrink(items, fragments, n);
          ExpandIsReachable(fragments[n].items, fragments, f);
        } else {
          BelowByReach(body, fragments, n);
          BodyIsAcyclic(items, fragments, p);
          ExpandIsReachable(body, fragments, f);
        }
        assert f in HeadOf(items, fragments);
        assert f in Elements(inner.out);
      } else {
        assert f in Elements(inner.out);
      }
    }
  }

  /** Where no cycle can be reached the collected list is, in order, the de-duplicated full expansion. */
  lemma CollectedIsFirstOccurrences(items: seq<Selection>, fragments: Fragments)
    requires Acyclic(items, fragments)
    ensures CollectTopFields(items, fragments) == FirstOccurrences(Expand(items, fragments))
    ensures forall depth: nat :: depth >= |fragments| ==>
              ExpandTo(items, fragments, depth) == Expand(items, fragments)
  {
    WalkIsPushedExpansion(items, fragments, Progress([], {}));
    PushAllIsFirstOccurrences(Expand(items, fragments));
    SubsetIsSmaller(Names(items, fragments), fragments.Keys);
    forall depth: nat | depth >= |fragments|
      ensures ExpandTo(items, fragments, depth) == Expand(items, fragments)
    {
      ExpandIsDeepCut(items, fragments, depth);
    }
  }

  // --- A cycle: `...A` with A = {...B f} and B = {...A g} -----------------------------------

  const LOOP_ROOT: seq<Selection> := [Spread("A", [])]
  const LOOP_A: seq<Selection> := [Spread("B", []), Field(None, "f", [])]
  const LOOP_B: seq<Selection> := [Spread("A", []), Field(None, "g", [])]
  const LOOP: Fragments := map["A" := Fragment("Query", LOOP_A), "B" := Fragment("Query", LOOP_B)]

  lemma LoopIsCyclic()
    ensures !Acyclic(LOOP_ROOT, LOOP)
  {
    assert ReachesSpread(LOOP_A, LOOP, ["B"], "A");
    assert ReachesSpread(LOOP_ROOT, LOOP, [], "A");
    assert "A" in Names(LOOP_ROOT, LOOP);
  }

  lemma LoopCollected()
    ensures CollectTopFields(LOOP_ROOT, LOOP) == ["g", "f"]
  {
    var both := {"A"} + {"B"};
    assert both + {"A"} == both;
    assert LOOP_A[1..] == [Field(None, "f", [])] && LOOP_B[1..] == [Field(None, "g", [])];
    assert Walk(LOOP_B[1..], LOOP, Progress([], both)) == Progress(["g"], both);
    assert Walk(LOOP_B, LOOP, Progress([], both)) == Progress(["g"], both);
    assert Walk(LOOP_A[1..], LOOP, Progress(["g"], both)) == Progress(["g", "f"], both);
    assert Walk(LOOP_A, LOOP, Progress([], {"A"})) == Progress(["g", "f"], both);
    var start := Progress([], {});
    assert Before(LOOP_ROOT[0], start) == Progress([], {"A"});
    assert Body(LOOP_ROOT[0], LOOP, start) == LOOP_A && LOOP_ROOT[1..] == [];
    assert Walk(LOOP_ROOT, LOOP, start) == Walk(LOOP_A, LOOP, Progress([], {"A"}));
  }

  lemma LoopExpanded()
    ensures FirstOccurrences(ExpandTo(LOOP_ROOT, LOOP, 3)) == ["f", "g"]
  {
    assert LOOP_A[1..] == [Field(None, "f", [])] && LOOP_B[1..] == [Field(None, "g", [])];
    assert ExpandTo(LOOP_A, LOOP, 0) == ["f"];
    assert ExpandTo(LOOP_B, LOOP, 1) == ["f", "g"];
    assert ExpandTo(LOOP_A, LOOP, 2) == ["f", "g", "f"];
    var cut := ExpandTo(LOOP_ROOT, LOOP, 3);
    assert cut == ["f", "g", "f"];
    PushAllIsFirstOccurrences(cut);
    assert PushAll(["f", "g"], ["f"]) == ["f", "g"];
    assert PushAll(["f"], ["g", "f"]) == PushAll(["f", "g"], ["f"]);
    assert PushAll([], cut) == PushAll(["f"], ["g", "f"]);
  }

  /** Where a cycle can be reached only the set agrees with deep expansion, not the order. */
  lemma CyclicOrderDiffers()
    ensures !Acyclic(LOOP_ROOT, LOOP)
    ensures CollectTopFields(LOOP_ROOT, LOOP) != FirstOccurrences(ExpandTo(LOOP_ROOT, LOOP, 3))
  {
    LoopIsCyclic();
    LoopCollected();
    LoopExpanded();
    assert ["g", "f"][0] != ["f", "g"][0];
  }
}
