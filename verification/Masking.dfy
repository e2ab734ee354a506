/**
 * Ways of writing the same document differently: aliases, fragment names, inlined fragments and
 * the order of items. None of them changes which fields are collected.
 */
module Masking {
  import opened Prelude
  import opened Document
  import opened Reachability
  import opened Collector

  // --- Aliases, directives and fragment names -------------------------------------------

  ghost predicate Injective(rename: string -> string)
  {
    forall m, n :: rename(m) == rename(n) ==> m == n
  }

  /** `b` is `a` with fragments renamed and with any aliases, directives and type conditions. */
  ghost predicate Masked(a: seq<Selection>, b: seq<Selection>, rename: string -> string)
    decreases Size(a)
  {
    |a| == |b| &&
    (a != [] ==>
       && (match a[0]
           case Field(_, name, _) => b[0].Field? && b[0].name == name
           case Spread(f, _) => b[0].Spread? && b[0].fragment == rename(f)
           case Inline(_, _, body) => b[0].Inline? && Masked(body, b[0].items, rename))
       && Masked(a[1..], b[1..], rename))
  }

  ghost predicate MaskedFragments(fa: Fragments, fb: Fragments, rename: string -> string)
  {
    forall n :: (n in fa <==> rename(n) in fb) && (n in fa ==> Masked(fa[n].items, fb[rename(n)].items, rename))
  }

  /** The same fragments are marked, under their new names. */
  ghost predicate Mirrors(va: set<string>, vb: set<string>, rename: string -> string)
  {
    forall n :: n in va <==> rename(n) in vb
  }

  lemma {:induction false} MaskedWalk(
    a: seq<Selection>, fa: Fragments, pa: Progress, b: seq<Selection>, fb: Fragments, pb: Progress,
    rename: string -> string)
    requires Injective(rename) && Masked(a, b, rename) && MaskedFragments(fa, fb, rename)
    requires pa.out == pb.out && Mirrors(pa.visited, pb.visited, rename)
    ensures Walk(a, fa, pa).out == Walk(b, fb, pb).out
    ensures Mirrors(Walk(a, fa, pa).visited, Walk(b, fb, pb).visited, rename)
    decreases fa.Keys - pa.visited, Size(a)
  {
    if a == [] {
    } else {
      var bodyA, beforeA := Body(a[0], fa, pa), Before(a[0], pa);
      var bodyB, beforeB := Body(b[0], fb, pb), Before(b[0], pb);
      if a[0].Spread? {
        assert rename(a[0].fragment) == b[0].fragment;
      }
      MaskedWalk(bodyA, fa, beforeA, bodyB, fb, beforeB, rename);
      MaskedWalk(a[1..], fa, Walk(bodyA, fa, beforeA), b[1..], fb, Walk(bodyB, fb, beforeB), rename);
    }
  }

  /** Aliasing fields and renaming fragments leaves the collected list identical. */
  lemma MaskingChangesNothing(
    a: seq<Selection>, fa: Fragments, b: seq<Selection>, fb: Fragments, rename: string -> string)
    requires Injective(rename) && Masked(a, b, rename) && MaskedFragments(fa, fb, rename)
    ensures CollectTopFields(a, fa) == CollectTopFields(b, fb)
  {
    MaskedWalk(a, fa, Progress([], {}), b, fb, Progress([], {}), rename);
  }

  // --- Inlining a fragment --------------------------------------------------------------

  /** A selection set reaches what its items reach. */
  lemma ReachByItem(items: seq<Selection>, fragments: Fragments, f: string)
    ensures FieldReachable(items, fragments, f)
       <==> exists i :: 0 <= i < |items| && FieldReachable([items[i]], fragments, f)
  {
    if FieldReachable(items, fragments, f) {
      var path :| ReachesField(items, fragments, path, f);
      DirectMembers(items, if path == [] then f else path[0]);
      var i :| 0 <= i < |items| && if path == [] then f in FieldsOf(items[i]) else path[0] in SpreadsOf(items[i]);
      assert [items[i]][1..] == [];
      assert ReachesField([items[i]], fragments, path, f);
    }
    forall i | 0 <= i < |items| && FieldReachable([items[i]], fragments, f)
      ensures FieldReachable(items, fragments, f)
    {
      assert [items[i]][1..] == [];
      forall x
        ensures x in FieldsOf(items[i]) ==> x in DirectFields(items)
        ensures x in SpreadsOf(items[i]) ==> x in DirectSpreads(items)
      {
        DirectMembers(items, x);
      }
      BelowByDirect([items[i]], items, fragments);
    }
  }

  lemma SameReach(a: seq<Selection>, b: seq<Selection>, fragments: Fragments, f: string)
    requires |a| == |b|
    requires forall i :: 0 <= i < |a| ==>
               (FieldReachable([a[i]], fragments, f) <==> FieldReachable([b[i]], fragments, f))
    ensures FieldReachable(a, fragments, f) <==> FieldReachable(b, fragments, f)
  {
    ReachByItem(a, fragments, f);
    ReachByItem(b, fragments, f);
  }

  /** A spread of a defined fragment reaches what an inline copy of its body reaches. */
  lemma SpreadReachesBody(
    spread: Selection, inline: Selection, fragments: Fragments, f: string)
    requires spread.Spread? && spread.fragment in fragments
    requires inline.Inline? && inline.items == fragments[spread.fragment].items
    ensures FieldReachable([spread], fragments, f) <==> FieldReachable([inline], fragments, f)
  {
    assert [spread][1..] == [] && [inline][1..] == [];
    BelowByDirect(inline.items, [inline], fragments);
    BelowByDirect([inline], inline.items, fragments);
    BelowBySpread([spread], fragments, spread.fragment);
    if FieldReachable([spread], fragments, f) {
      var path :| ReachesField([spread], fragments, path, f);
      assert DirectFields([spread]) == {} && DirectSpreads([spread]) == {spread.fragment};
      assert path != [] && path[0] == spread.fragment;
      assert ReachesField(inline.items, fragments, path[1..], f);
    }
  }

  /** Replacing a spread by an inline copy of its fragment collects the same fields. */
  lemma InliningKeepsFields(
    items: seq<Selection>, fragments: Fragments, at: nat, inline: Selection)
    requires at < |items| && items[at].Spread? && items[at].fragment in fragments
    requires inline.Inline? && inline.items == fragments[items[at].fragment].items
    ensures Elements(CollectTopFields(items, fragments)) == Elements(CollectTopFields(items[at := inline], fragments))
  {
    var inlined := items[at := inline];
    forall f
      ensures f in CollectTopFields(items, fragments) <==> f in CollectTopFields(inlined, fragments)
    {
      CollectsExactlyReachable(items, fragments, f);
      CollectsExactlyReachable(inlined, fragments, f);
      forall i | 0 <= i < |items|
        ensures FieldReachable([items[i]], fragments, f) <==> FieldReachable([inlined[i]], fragments, f)
      {
        if i == at {
          SpreadReachesBody(items[at], inline, fragments, f);
        }
      }
      SameReach(items, inlined, fragments, f);
    }
  }

  // --- Order of items -------------------------------------------------------------------

  /** The same field and spread names, in whatever order, repetition and inline grouping. */
  ghost predicate SameNames(a: seq<Selection>, b: seq<Selection>)
  {
    DirectFields(a) == DirectFields(b) && DirectSpreads(a) == DirectSpreads(b)
  }

  ghost predicate SameFragments(fa: Fragments, fb: Fragments)
  {
    fa.Keys == fb.Keys && forall n :: n in fa ==> SameNames(fa[n].items, fb[n].items)
  }

  lemma NamesWithin(a: seq<Selection>, b: seq<Selection>)
    requires forall x :: x in a ==> x in b
    ensures DirectFields(a) <= DirectFields(b) && DirectSpreads(a) <= DirectSpreads(b)
  {
    forall name
      ensures name in DirectFields(a) ==> name in DirectFields(b)
      ensures name in DirectSpreads(a) ==> name in DirectSpreads(b)
    {
      DirectMembers(a, name);
      DirectMembers(b, name);
      assert forall i :: 0 <= i < |a| ==> a[i] in b;
    }
  }

  /** Permuting a selection set keeps its names. */
  lemma PermutationKeepsNames(a: seq<Selection>, b: seq<Selection>)
    requires multiset(a) == multiset(b)
    ensures SameNames(a, b)
  {
    forall x: Selection
      ensures x in a <==> x in b
    {
      assert x in a <==> x in multiset(a);
      assert x in b <==> x in multiset(b);
    }
    NamesWithin(a, b);
    NamesWithin(b, a);
  }

  /** So does rewriting the body of an inline fragment without changing its names. */
  lemma NestedKeepsNames(items: seq<Selection>, at: nat, body: seq<Selection>)
    requires at < |items| && items[at].Inline? && SameNames(items[at].items, body)
    ensures SameNames(items, items[at := items[at].(items := body)])
  {
    var changed := items[at := items[at].(items := body)];
    assert forall i :: 0 <= i < |items| ==>
      FieldsOf(items[i]) == FieldsOf(changed[i]) && SpreadsOf(items[i]) == SpreadsOf(changed[i]);
    forall name
      ensures name in DirectFields(items) <==> name in DirectFields(changed)
      ensures name in DirectSpreads(items) <==> name in DirectSpreads(changed)
    {
      DirectMembers(items, name);
      DirectMembers(changed, name);
    }
  }

  lemma {:induction false} SameNamesLead(
    a: seq<Selection>, fa: Fragments, b: seq<Selection>, fb: Fragments, path: seq<string>)
    requires SameNames(a, b) && SameFragments(fa, fb)
    ensures Leads(a, fa, path) <==> Leads(b, fb, path)
    ensures Leads(a, fa, path) ==> DirectFields(End(a, fa, path)) == DirectFields(End(b, fb, path))
    decreases |path|
  {
    if path != [] && path[0] in fa {
      SameNamesLead(fa[path[0]].items, fa, fb[path[0]].items, fb, path[1..]);
    }
  }

  /** Reordering the items of any selection sets collects the same fields. */
  lemma ReorderingKeepsFields(a: seq<Selection>, fa: Fragments, b: seq<Selection>, fb: Fragments)
    requires SameNames(a, b) && SameFragments(fa, fb)
    ensures Elements(CollectTopFields(a, fa)) == Elements(CollectTopFields(b, fb))
  {
    forall f
      ensures f in CollectTopFields(a, fa) <==> f in CollectTopFields(b, fb)
    {
      CollectsExactlyReachable(a, fa, f);
      CollectsExactlyReachable(b, fb, f);
      forall path
        ensures ReachesField(a, fa, path, f) <==> ReachesField(b, fb, path, f)
      {
        SameNamesLead(a, fa, b, fb, path);
      }
    }
  }
}
