/**
 * `collect_top_fields`: the visited-guarded depth-first walk over a possibly cyclic fragment
 * graph that gathers the field names selected at an operation's root.
 */
module Collector {
  import opened Prelude
  import opened Document
  import opened Reachability

  /** What the walk threads through its recursion. */
  datatype Progress = Progress(out: seq<string>, visited: set<string>)

  /** What one item changes before anything is descended into. */
  function Before(item: Selection, p: Progress): (q: Progress)
  {
    match item
    case Field(_, name, _) => p.(out := Push(p.out, name))
    case Spread(f, _) => p.(visited := p.visited + {f})
    case Inline(_, _, _) => p
  }

  /** The selection set an item makes the walk descend into. */
  function Body(item: Selection, fragments: Fragments, p: Progress): (r: seq<Selection>)
  {
    match item
    case Field(_, _, _) => []
    case Spread(f, _) => if f !in p.visited && f in fragments then fragments[f].items else []
    case Inline(_, _, body) => body
  }

  function Walk(items: seq<Selection>, fragments: Fragments, p: Progress): (q: Progress)
    ensures p.visited <= q.visited
    decreases fragments.Keys - p.visited, Size(items)
  {
    if items == [] then p
    else
      var inner := Walk(Body(items[0], fragments, p), fragments, Before(items[0], p));
      Walk(items[1..], fragments, inner)
  }

  function CollectTopFields(items: seq<Selection>, fragments: Fragments): (r: seq<string>)
  {
    Walk(items, fragments, Progress([], {})).out
  }

  // --- The walk collects exactly the reachable names ------------------------------------

  /** Whatever an item makes the walk descend into lies below the selection set. */
  lemma BodyBelow(items: seq<Selection>, fragments: Fragments, p: Progress)
    requires items != []
    ensures Below(Body(items[0], fragments, p), items, fragments)
    ensures Below(items[1..], items, fragments)
  {
    var body := Body(items[0], fragments, p);
    BelowByDirect(items[1..], items, fragments);
    if body == [] {
      BelowEmpty(items, fragments);
    } else if items[0].Inline? {
      BelowByDirect(body, items, fragments);
    } else {
      BelowBySpread(items, fragments, items[0].fragment);
    }
  }

  lemma DirectIsReachable(items: seq<Selection>, fragments: Fragments)
    ensures forall f :: f in DirectFields(items) ==> FieldReachable(items, fragments, f)
    ensures forall n :: n in DirectSpreads(items) ==> SpreadReachable(items, fragments, n)
  {
    assert forall f :: f in DirectFields(items) ==> ReachesField(items, fragments, [], f);
    assert forall n :: n in DirectSpreads(items) ==> ReachesSpread(items, fragments, [], n);
  }

  /** Soundness: nothing is collected or marked that is not reachable. */
  lemma {:induction false} WalkSound(items: seq<Selection>, fragments: Fragments, p: Progress)
    ensures var q := Walk(items, fragments, p);
            && (forall f :: f in q.out ==> f in p.out || FieldReachable(items, fragments, f))
            && (forall n :: n in q.visited ==> n in p.visited || SpreadReachable(items, fragments, n))
    decreases fragments.Keys - p.visited, Size(items)
  {
    if items == [] {
    } else {
      var body, before := Body(items[0], fragments, p), Before(items[0], p);
      WalkSound(body, fragments, before);
      WalkSound(items[1..], fragments, Walk(body, fragments, before));
      BodyBelow(items, fragments, p);
      DirectIsReachable(items, fragments);
      assert forall f :: f in before.out ==> f in p.out || f in DirectFields(items);
      assert forall n :: n in before.visited ==> n in p.visited || n in DirectSpreads(items);
    }
  }

  /** The direct names of fragment `n` have all been taken up. */
  ghost predicate Finished(n: string, fragments: Fragments, q: Progress)
  {
    n in fragments ==>
      DirectFields(fragments[n].items) <= Elements(q.out) && DirectSpreads(fragments[n].items) <= q.visited
  }

  /**
   * Completeness, on cyclic graphs too: a call may return while fragments marked before it are
   * still open on the stack, but every fragment it marked itself is finished.
   */
  lemma {:induction false} WalkCovers(items: seq<Selection>, fragments: Fragments, p: Progress)
    ensures var q := Walk(items, fragments, p);
            && Elements(p.out) <= Elements(q.out)
            && DirectFields(items) <= Elements(q.out)
            && DirectSpreads(items) <= q.visited
            && forall n :: n in q.visited && n !in p.visited ==> Finished(n, fragments, q)
    decreases fragments.Keys - p.visited, Size(items)
  {
    if items == [] {
    } else {
      var body, before := Body(items[0], fragments, p), Before(items[0], p);
      WalkCovers(body, fragments, before);
      WalkCovers(items[1..], fragments, Walk(body, fragments, before));
    }
  }

  /** When every marked fragment is finished, every path stays inside what was taken up. */
  lemma {:induction false} FinishedClosed(items: seq<Selection>, fragments: Fragments, q: Progress, path: seq<string>)
    requires DirectFields(items) <= Elements(q.out) && DirectSpreads(items) <= q.visited
    requires forall n :: n in q.visited ==> Finished(n, fragments, q)
    requires Leads(items, fragments, path)
    ensures DirectFields(End(items, fragments, path)) <= Elements(q.out)
    decreases |path|
  {
    if path == [] {
    } else {
      assert Finished(path[0], fragments, q);
      FinishedClosed(fragments[path[0]].items, fragments, q, path[1..]);
    }
  }

  /**
   * For every fragment map, cyclic, self-referential or with undefined spreads, the collected
   * names are exactly the reachable field names.
   */
  lemma CollectsExactlyReachable(items: seq<Selection>, fragments: Fragments, f: string)
    ensures f in CollectTopFields(items, fragments) <==> FieldReachable(items, fragments, f)
  {
    var start := Progress([], {});
    WalkSound(items, fragments, start);
    WalkCovers(items, fragments, start);
    if FieldReachable(items, fragments, f) {
      var path :| ReachesField(items, fragments, path, f);
      FinishedClosed(items, fragments, Walk(items, fragments, start), path);
    }
  }

  lemma {:induction false} WalkNoDuplicates(items: seq<Selection>, fragments: Fragments, p: Progress)
    requires NoDuplicates(p.out)
    ensures NoDuplicates(Walk(items, fragments, p).out)
    decreases fragments.Keys - p.visited, Size(items)
  {
    if items == [] {
    } else {
      var body, before := Body(items[0], fragments, p), Before(items[0], p);
      WalkNoDuplicates(body, fragments, before);
      WalkNoDuplicates(items[1..], fragments, Walk(body, fragments, before));
    }
  }

  // --- Work done by the walk ------------------------------------------------------------

  /** Items the walk looks at: one per iteration of the loop, over all recursive calls. */
  ghost function Steps(items: seq<Selection>, fragments: Fragments, p: Progress): (n: nat)
    decreases fragments.Keys - p.visited, Size(items)
  {
    if items == [] then 0
    else
      var body, before := Body(items[0], fragments, p), Before(items[0], p);
      1 + Steps(body, fragments, before) + Steps(items[1..], fragments, Walk(body, fragments, before))
  }

  /** Items in the bodies of the named fragments together. */
  ghost function TotalSize(names: set<string>, fragments: Fragments): (n: nat)
    requires names <= fragments.Keys
  {
    if names == {} then 0
    else
      var n :| n in names;
      Size(fragments[n].items) + TotalSize(names - {n}, fragments)
  }

  lemma {:induction false} TotalSizeWithout(names: set<string>, fragments: Fragments, n: string)
    requires n in names && names <= fragments.Keys
    ensures TotalSize(names, fragments) == Size(fragments[n].items) + TotalSize(names - {n}, fragments)
  {
    var m :| m in names && TotalSize(names, fragments) == Size(fragments[m].items) + TotalSize(names - {m}, fragments);
    if m != n {
      TotalSizeWithout(names - {m}, fragments, n);
      TotalSizeWithout(names - {n}, fragments, m);
      assert names - {m} - {n} == names - {n} - {m};
    }
  }

  lemma {:induction false} TotalSizeUnion(a: set<string>, b: set<string>, fragments: Fragments)
    requires a <= fragments.Keys && b <= fragments.Keys && a !! b
    ensures TotalSize(a + b, fragments) == TotalSize(a, fragments) + TotalSize(b, fragments)
    decreases a
  {
    if a == {} {
      assert a + b == b;
    } else {
      var n :| n in a;
      TotalSizeWithout(a, fragments, n);
      TotalSizeWithout(a + b, fragments, n);
      assert a + b - {n} == (a - {n}) + b;
      TotalSizeUnion(a - {n}, b, fragments);
    }
  }

  /** The defined fragments a walk enters. */
  ghost function Entered(items: seq<Selection>, fragments: Fragments, p: Progress): (r: set<string>)
    ensures r <= fragments.Keys
  {
    (Walk(items, fragments, p).visited - p.visited) * fragments.Keys
  }

  /** Exact cost: the root set once, and the body of each entered fragment once. */
  lemma {:induction false} StepsExactly(items: seq<Selection>, fragments: Fragments, p: Progress)
    ensures Steps(items, fragments, p)
         == Size(items) + TotalSize(Entered(items, fragments, p), fragments)
    decreases fragments.Keys - p.visited, Size(items)
  {
    if items == [] {
      assert Entered(items, fragments, p) == {};
    } else {
      var body, before := Body(items[0], fragments, p), Before(items[0], p);
      var inner := Walk(body, fragments, before);
      StepsExactly(body, fragments, before);
      StepsExactly(items[1..], fragments, inner);
      var first, second := Entered(body, fragments, before), Entered(items[1..], fragments, inner);
      TotalSizeUnion(first, second, fragments);
      var entered := Entered(items, fragments, p);
      if items[0].Spread? && items[0].fragment !in p.visited && items[0].fragment in fragments {
        var n := items[0].fragment;
        assert entered - {n} == first + second;
        TotalSizeWithout(entered, fragments, n);
      } else {
        assert entered == first + second;
      }
    }
  }

  /** The bound: items of the root set plus items of all fragment bodies. */
  lemma StepsBounded(items: seq<Selection>, fragments: Fragments)
    ensures Steps(items, fragments, Progress([], {})) <= Size(items) + TotalSize(fragments.Keys, fragments)
  {
    var entered := Entered(items, fragments, Progress([], {}));
    StepsExactly(items, fragments, Progress([], {}));
    TotalSizeUnion(entered, fragments.Keys - entered, fragments);
    assert entered + (fragments.Keys - entered) == fragments.Keys;
  }

  // --- The walk as the program runs it --------------------------------------------------

  /** The two buffers the recursive function updates in place. */
  class FieldCollector {
    var out: seq<string>
    var visited: set<string>
    ghost var steps: nat

    constructor ()
      ensures out == [] && visited == {} && steps == 0
    {
      out, visited, steps := [], {}, 0;
    }

    ghost function State(): (p: Progress)
      reads this
    {
      Progress(out, visited)
    }

    method Collect(items: seq<Selection>, fragments: Fragments)
      modifies this
      ensures State() == Walk(items, fragments, old(State()))
      ensures steps == old(steps) + Steps(items, fragments, old(State()))
      decreases fragments.Keys - visited, Size(items)
    {
      var i := 0;
      while i < |items|
        invariant 0 <= i <= |items|
        invariant old(visited) <= visited
        invariant Walk(items[i..], fragments, State()) == Walk(items, fragments, old(State()))
        invariant steps + Steps(items[i..], fragments, State())
               == old(steps) + Steps(items, fragments, old(State()))
      {
        ghost var here := State();
        SizeOfSuffix(items, i);
        assert items[i..][0] == items[i] && items[i..][1..] == items[i + 1..];
        steps := steps + 1;
        match items[i] {
          case Field(_, name, _) =>
            if name !in out {
              out := out + [name];
            }
          case Spread(f, _) =>
            if f !in visited {
              visited := visited + {f};
              if f in fragments {
                Collect(fragments[f].items, fragments);
              }
            }
          case Inline(_, _, body) =>
            Collect(body, fragments);
        }
        assert items[i].Spread? && items[i].fragment in here.visited ==> Before(items[i], here) == here;
        assert State() == Walk(Body(items[i], fragments, here), fragments, Before(items[i], here));
        i := i + 1;
      }
    }
  }
}
