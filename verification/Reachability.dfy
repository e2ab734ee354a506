/** Which fields and fragments a selection set leads to through chains of fragment spreads. */
module Reachability {
  import opened Prelude
  import opened Document

  /** `path` is a chain of spreads of defined fragments starting in `items`. */
  ghost predicate Leads(items: seq<Selection>, fragments: Fragments, path: seq<string>)
    decreases |path|
  {
    path == [] ||
    (path[0] in DirectSpreads(items) && path[0] in fragments &&
     Leads(fragments[path[0]].items, fragments, path[1..]))
  }

  /** The selection set at the end of a path. */
  ghost function End(items: seq<Selection>, fragments: Fragments, path: seq<string>): (r: seq<Selection>)
    requires Leads(items, fragments, path)
    decreases |path|
  {
    if path == [] then items else End(fragments[path[0]].items, fragments, path[1..])
  }

  ghost predicate ReachesField(items: seq<Selection>, fragments: Fragments, path: seq<string>, f: string)
  {
    Leads(items, fragments, path) && f in DirectFields(End(items, fragments, path))
  }

  ghost predicate ReachesSpread(items: seq<Selection>, fragments: Fragments, path: seq<string>, n: string)
  {
    Leads(items, fragments, path) && n in DirectSpreads(End(items, fragments, path))
  }

  /** Some chain of spreads leads from `items` to a field named `f`. */
  ghost predicate FieldReachable(items: seq<Selection>, fragments: Fragments, f: string)
  {
    exists path :: ReachesField(items, fragments, path, f)
  }

  /** Some chain of spreads leads from `items` to a spread of `n`. */
  ghost predicate SpreadReachable(items: seq<Selection>, fragments: Fragments, n: string)
  {
    exists path :: ReachesSpread(items, fragments, path, n)
  }

  /** Everything reachable from `a` is reachable from `b`. */
  ghost predicate Below(a: seq<Selection>, b: seq<Selection>, fragments: Fragments)
  {
    && (forall f :: FieldReachable(a, fragments, f) ==> FieldReachable(b, fragments, f))
    && (forall n :: SpreadReachable(a, fragments, n) ==> SpreadReachable(b, fragments, n))
  }

  /** Selection sets with more direct names reach more. */
  lemma BelowByDirect(a: seq<Selection>, b: seq<Selection>, fragments: Fragments)
    requires DirectFields(a) <= DirectFields(b)
    requires DirectSpreads(a) <= DirectSpreads(b)
    ensures Below(a, b, fragments)
  {
    forall path | Leads(a, fragments, path)
      ensures Leads(b, fragments, path)
      ensures path != [] ==> End(a, fragments, path) == End(b, fragments, path)
    {
    }
    forall f | FieldReachable(a, fragments, f)
      ensures FieldReachable(b, fragments, f)
    {
      var path :| ReachesField(a, fragments, path, f);
      assert ReachesField(b, fragments, path, f);
    }
    forall n | SpreadReachable(a, fragments, n)
      ensures SpreadReachable(b, fragments, n)
    {
      var path :| ReachesSpread(a, fragments, path, n);
      assert ReachesSpread(b, fragments, path, n);
    }
  }

  /** A spread fragment's body lies below the set that spreads it. */
  lemma BelowBySpread(items: seq<Selection>, fragments: Fragments, n: string)
    requires n in DirectSpreads(items) && n in fragments
    ensures Below(fragments[n].items, items, fragments)
  {
    var body := fragments[n].items;
    forall f | FieldReachable(body, fragments, f)
      ensures FieldReachable(items, fragments, f)
    {
      var path :| ReachesField(body, fragments, path, f);
      assert ([n] + path)[1..] == path;
      assert ReachesField(items, fragments, [n] + path, f);
    }
    forall m | SpreadReachable(body, fragments, m)
      ensures SpreadReachable(items, fragments, m)
    {
      var path :| ReachesSpread(body, fragments, path, m);
      assert ([n] + path)[1..] == path;
      assert ReachesSpread(items, fragments, [n] + path, m);
    }
  }

  lemma BelowEmpty(items: seq<Selection>, fragments: Fragments)
    ensures Below([], items, fragments)
  {
    BelowByDirect([], items, fragments);
  }

  lemma {:induction false} LeadsSplit(items: seq<Selection>, fragments: Fragments, a: seq<string>, b: seq<string>)
    ensures Leads(items, fragments, a + b)
       <==> Leads(items, fragments, a) && Leads(End(items, fragments, a), fragments, b)
    ensures Leads(items, fragments, a + b)
        ==> End(items, fragments, a + b) == End(End(items, fragments, a), fragments, b)
    decreases |a|
  {
    if a == [] {
      assert a + b == b;
    } else {
      assert (a + b)[0] == a[0] && (a + b)[1..] == a[1..] + b;
      if a[0] in fragments {
        LeadsSplit(fragments[a[0]].items, fragments, a[1..], b);
      }
    }
  }

  /** A spread reached from a defined fragment that is itself reached is reached. */
  lemma BelowByReach(items: seq<Selection>, fragments: Fragments, n: string)
    requires SpreadReachable(items, fragments, n) && n in fragments
    ensures Below(fragments[n].items, items, fragments)
  {
    var path :| ReachesSpread(items, fragments, path, n);
    var at := End(items, fragments, path);
    BelowBySpread(at, fragments, n);
    forall f | FieldReachable(at, fragments, f)
      ensures FieldReachable(items, fragments, f)
    {
      var more :| ReachesField(at, fragments, more, f);
      LeadsSplit(items, fragments, path, more);
      assert ReachesField(items, fragments, path + more, f);
    }
    forall m | SpreadReachable(at, fragments, m)
      ensures SpreadReachable(items, fragments, m)
    {
      var more :| ReachesSpread(at, fragments, more, m);
      LeadsSplit(items, fragments, path, more);
      assert ReachesSpread(items, fragments, path + more, m);
    }
  }

  lemma {:induction false} PathFacts(items: seq<Selection>, fragments: Fragments, path: seq<string>)
    requires Leads(items, fragments, path)
    ensures forall x :: x in path ==> x in fragments
    ensures path != [] ==>
              path[|path| - 1] in fragments && End(items, fragments, path) == fragments[path[|path| - 1]].items
    decreases |path|
  {
    if path == [] {
    } else {
      PathFacts(fragments[path[0]].items, fragments, path[1..]);
      assert forall x :: x in path ==> x == path[0] || x in path[1..];
    }
  }

  /** Cut the loop out of a path that enters the same fragment twice. */
  lemma CutLoop(items: seq<Selection>, fragments: Fragments, path: seq<string>, i: nat, j: nat)
    requires Leads(items, fragments, path) && i < j < |path| && path[i] == path[j]
    ensures Leads(items, fragments, path[..i + 1] + path[j + 1..])
    ensures End(items, fragments, path[..i + 1] + path[j + 1..]) == End(items, fragments, path)
  {
    assert path == path[..i + 1] + path[i + 1..] == path[..j + 1] + path[j + 1..];
    LeadsSplit(items, fragments, path[..i + 1], path[i + 1..]);
    LeadsSplit(items, fragments, path[..j + 1], path[j + 1..]);
    PathFacts(items, fragments, path[..i + 1]);
    PathFacts(items, fragments, path[..j + 1]);
    LeadsSplit(items, fragments, path[..i + 1], path[j + 1..]);
  }

  /** Pigeonhole: whatever is reachable is reachable without entering a fragment twice. */
  lemma {:induction false} ShortPath(items: seq<Selection>, fragments: Fragments, path: seq<string>)
    returns (short: seq<string>)
    requires Leads(items, fragments, path)
    ensures Leads(items, fragments, short)
    ensures End(items, fragments, short) == End(items, fragments, path)
    ensures |short| <= |fragments|
    decreases |path|
  {
    if NoDuplicates(path) {
      PathFacts(items, fragments, path);
      DistinctIsShort(path, fragments.Keys);
      short := path;
    } else {
      var i, j :| 0 <= i < j < |path| && path[i] == path[j];
      CutLoop(items, fragments, path, i, j);
      short := ShortPath(items, fragments, path[..i + 1] + path[j + 1..]);
    }
  }
}
