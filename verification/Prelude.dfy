/** Value types and sequence vocabulary shared by every module of the model. */
module Prelude {

  datatype Option<+T> = None | Some(value: T)

  datatype Result<+T, +E> = Ok(value: T) | Err(error: E)

  function Elements<T>(s: seq<T>): (r: set<T>)
  {
    set x | x in s
  }

  ghost predicate NoDuplicates<T>(s: seq<T>)
  {
    forall i, j :: 0 <= i < j < |s| ==> s[i] != s[j]
  }

  /** A sequence without duplicates drawn from `pool` is no longer than `pool` is large. */
  lemma {:induction false} DistinctIsShort<T>(s: seq<T>, pool: set<T>)
    requires NoDuplicates(s)
    requires forall x :: x in s ==> x in pool
    ensures |s| <= |pool|
  {
    if s == [] {
    } else {
      var rest := s[1..];
      assert forall x :: x in rest ==> x in s && x != s[0];
      DistinctIsShort(rest, pool - {s[0]});
      assert s[0] in s;
    }
  }

  lemma Associate<T>(a: seq<T>, b: seq<T>, c: seq<T>)
    ensures a + (b + c) == a + b + c
  {
  }

  /** Taking the first element off a concatenation. */
  lemma Uncons<T>(a: seq<T>, b: seq<T>)
    requires a != []
    ensures (a + b)[0] == a[0] && (a + b)[1..] == a[1..] + b
  {
  }

  /** `Vec::push` guarded by `contains`: the de-duplicating append. */
  function Push<T(==)>(out: seq<T>, x: T): (r: seq<T>)
  {
    if x in out then out else out + [x]
  }

  function PushAll<T(==)>(out: seq<T>, s: seq<T>): (r: seq<T>)
    decreases |s|
  {
    if s == [] then out else PushAll(Push(out, s[0]), s[1..])
  }

  /** Keep every element at its first position only. */
  function FirstOccurrences<T(==)>(s: seq<T>): (r: seq<T>)
  {
    if s == [] then []
    else
      var init, last := s[..|s| - 1], s[|s| - 1];
      FirstOccurrences(init) + if last in init then [] else [last]
  }

  lemma {:induction false} PushAllAppend<T>(out: seq<T>, a: seq<T>, b: seq<T>)
    ensures PushAll(out, a + b) == PushAll(PushAll(out, a), b)
    decreases |a|
  {
    if a == [] {
      assert a + b == b;
    } else {
      assert (a + b)[0] == a[0] && (a + b)[1..] == a[1..] + b;
      PushAllAppend(Push(out, a[0]), a[1..], b);
    }
  }

  lemma {:induction false} PushAllElements<T>(out: seq<T>, s: seq<T>)
    ensures Elements(PushAll(out, s)) == Elements(out) + Elements(s)
    decreases |s|
  {
    if s == [] {
    } else {
      PushAllElements(Push(out, s[0]), s[1..]);
      assert Elements(Push(out, s[0])) == Elements(out) + {s[0]};
      assert Elements(s) == {s[0]} + Elements(s[1..]);
    }
  }

  /** Appending what is already there changes nothing. */
  lemma {:induction false} PushAllKnown<T>(out: seq<T>, s: seq<T>)
    requires Elements(s) <= Elements(out)
    ensures PushAll(out, s) == out
    decreases |s|
  {
    if s == [] {
    } else {
      assert s[0] in Elements(s);
      assert Elements(s[1..]) <= Elements(s);
      PushAllKnown(out, s[1..]);
    }
  }

  lemma {:induction false} PushAllIsFirstOccurrences<T>(s: seq<T>)
    ensures PushAll([], s) == FirstOccurrences(s)
    decreases |s|
  {
    if s == [] {
    } else {
      var init, last := s[..|s| - 1], s[|s| - 1];
      assert s == init + [last];
      PushAllAppend([], init, [last]);
      PushAllIsFirstOccurrences(init);
      PushAllElements([], init);
      assert last in init <==> last in Elements(PushAll([], init));
      assert PushAll(PushAll([], init), [last]) == PushAll(Push(PushAll([], init), last), []);
    }
  }

  lemma {:induction false} FirstWhere<T(!new)>(s: seq<T>, f: T -> bool) returns (i: nat)
    requires exists k :: 0 <= k < |s| && f(s[k])
    ensures i < |s| && f(s[i]) && forall j :: 0 <= j < i ==> !f(s[j])
  {
    if f(s[0]) {
      i := 0;
    } else {
      var k :| 0 <= k < |s| && f(s[k]);
      assert s[1..][k - 1] == s[k];
      var r := FirstWhere(s[1..], f);
      i := r + 1;
    }
  }

  lemma {:induction false} LastWhere<T(!new)>(s: seq<T>, f: T -> bool) returns (i: nat)
    requires exists k :: 0 <= k < |s| && f(s[k])
    ensures i < |s| && f(s[i]) && forall j :: i < j < |s| ==> !f(s[j])
  {
    var last := |s| - 1;
    if f(s[last]) {
      i := last;
    } else {
      var k :| 0 <= k < |s| && f(s[k]);
      assert s[..last][k] == s[k];
      i := LastWhere(s[..last], f);
    }
  }
}
