/** Ordered scope sets: what `BTreeSet<String>` gives back when iterated. */
module ScopeSets {
  import opened Prelude

  /** Strings in code-point order, which is the byte order of their UTF-8 encodings. */
  predicate Less(a: string, b: string)
  {
    b != [] && (a == [] || a[0] < b[0] || (a[0] == b[0] && Less(a[1..], b[1..])))
  }

  lemma {:induction false} LessTotal(a: string, b: string)
    ensures Less(a, b) || a == b || Less(b, a)
    ensures !(Less(a, b) && Less(b, a)) && !Less(a, a)
  {
    if a != [] && b != [] {
      LessTotal(a[1..], b[1..]);
      assert a[0] == b[0] && a[1..] == b[1..] ==> a == b by {
        assert a == [a[0]] + a[1..] && b == [b[0]] + b[1..];
      }
    }
    if a != [] {
      LessTotal(a[1..], a[1..]);
    }
  }

  lemma {:induction false} LessTransitive(a: string, b: string, c: string)
    requires Less(a, b) && Less(b, c)
    ensures Less(a, c)
  {
    if a != [] && a[0] == b[0] == c[0] {
      LessTransitive(a[1..], b[1..], c[1..]);
    }
  }

  ghost predicate StrictlySorted(s: seq<string>)
  {
    forall i, j :: 0 <= i < j < |s| ==> Less(s[i], s[j])
  }

  function Insert(s: seq<string>, x: string): (r: seq<string>)
  {
    if s == [] then [x]
    else if x == s[0] then s
    else if Less(x, s[0]) then [x] + s
    else [s[0]] + Insert(s[1..], x)
  }

  function InsertAll(s: seq<string>, xs: seq<string>): (r: seq<string>)
    decreases |xs|
  {
    if xs == [] then s else InsertAll(Insert(s, xs[0]), xs[1..])
  }

  lemma PrependSorted(x: string, s: seq<string>)
    requires StrictlySorted(s) && forall y :: y in s ==> Less(x, y)
    ensures StrictlySorted([x] + s) && Elements([x] + s) == {x} + Elements(s)
  {
    forall i, j | 0 <= i < j < |[x] + s|
      ensures Less(([x] + s)[i], ([x] + s)[j])
    {
      assert ([x] + s)[j] == s[j - 1];
    }
  }

  lemma HeadIsLeast(s: seq<string>)
    requires StrictlySorted(s) && s != []
    ensures forall y :: y in s[1..] ==> Less(s[0], y)
    ensures Elements(s) == {s[0]} + Elements(s[1..])
  {
    assert forall i :: 0 <= i < |s[1..]| ==> s[1..][i] == s[i + 1];
  }

  lemma {:induction false} InsertSorted(s: seq<string>, x: string)
    requires StrictlySorted(s)
    ensures StrictlySorted(Insert(s, x))
    ensures Elements(Insert(s, x)) == Elements(s) + {x}
  {
    if s == [] {
    } else {
      HeadIsLeast(s);
      LessTotal(x, s[0]);
      if Less(x, s[0]) {
        forall y | y in s
          ensures Less(x, y)
        {
          if y != s[0] {
            assert y in Elements(s);
            LessTransitive(x, s[0], y);
          }
        }
        PrependSorted(x, s);
      } else if x != s[0] {
        InsertSorted(s[1..], x);
        assert forall y :: y in Insert(s[1..], x) ==> y in Elements(Insert(s[1..], x));
        PrependSorted(s[0], Insert(s[1..], x));
      }
    }
  }

  lemma {:induction false} InsertAllSorted(s: seq<string>, xs: seq<string>)
    requires StrictlySorted(s)
    ensures StrictlySorted(InsertAll(s, xs))
    ensures Elements(InsertAll(s, xs)) == Elements(s) + Elements(xs)
    decreases |xs|
  {
    if xs == [] {
    } else {
      InsertSorted(s, xs[0]);
      InsertAllSorted(Insert(s, xs[0]), xs[1..]);
      assert Elements(xs) == {xs[0]} + Elements(xs[1..]);
    }
  }

  lemma {:induction false} InsertAllAppend(s: seq<string>, a: seq<string>, b: seq<string>)
    ensures InsertAll(s, a + b) == InsertAll(InsertAll(s, a), b)
    decreases |a|
  {
    if a == [] {
      assert a + b == b;
    } else {
      assert (a + b)[0] == a[0] && (a + b)[1..] == a[1..] + b;
      InsertAllAppend(Insert(s, a[0]), a[1..], b);
    }
  }

  /** A set of scopes has one sorted listing. */
  lemma {:induction false} SortedIsCanonical(a: seq<string>, b: seq<string>)
    requires StrictlySorted(a) && StrictlySorted(b) && Elements(a) == Elements(b)
    ensures a == b
  {
    EmptyElements(a);
    EmptyElements(b);
    if a != [] {
      assert a[0] in Elements(b) && b[0] in Elements(a);
      LessTotal(a[0], b[0]);
      assert a[0] == b[0];
      TailElements(a);
      TailElements(b);
      SortedIsCanonical(a[1..], b[1..]);
      assert a == [a[0]] + a[1..] && b == [b[0]] + b[1..];
    }
  }

  lemma EmptyElements(a: seq<string>)
    ensures a == [] <==> Elements(a) == {}
  {
    if a != [] {
      assert a[0] in Elements(a);
    }
  }

  lemma TailElements(a: seq<string>)
    requires StrictlySorted(a) && a != []
    ensures Elements(a[1..]) == Elements(a) - {a[0]}
  {
    assert forall i :: 0 <= i < |a[1..]| ==> a[1..][i] == a[i + 1];
    forall i | 0 < i < |a|
      ensures a[i] != a[0] && a[i] in a[1..]
    {
      LessTotal(a[0], a[i]);
      assert a[i] == a[1..][i - 1];
    }
  }

  /** The strings differ first at `k`, where `a` is smaller. */
  ghost predicate SmallerAt(a: string, b: string, k: int)
  {
    0 <= k < |a| && k < |b| && a[..k] == b[..k] && a[k] < b[k]
  }

  /** `a` comes before `b`: a proper prefix of it, or smaller at the first character that differs. */
  ghost predicate Precedes(a: string, b: string)
  {
    a < b || exists k :: SmallerAt(a, b, k)
  }

  lemma SmallerAtTail(a: string, b: string, k: nat)
    requires a != [] && b != [] && a[0] == b[0]
    ensures SmallerAt(a[1..], b[1..], k) <==> SmallerAt(a, b, k + 1)
  {
    if k < |a| - 1 && k < |b| - 1 {
      assert a[..k + 1] == [a[0]] + a[1..][..k] && b[..k + 1] == [b[0]] + b[1..][..k];
      assert a[1..][..k] == a[..k + 1][1..] && b[1..][..k] == b[..k + 1][1..];
    }
  }

  lemma PrefixTail(a: string, b: string)
    requires a != [] && b != [] && a[0] == b[0]
    ensures a[1..] < b[1..] <==> a < b
  {
    assert a == [a[0]] + a[1..] && b == [b[0]] + b[1..];
  }

  lemma {:induction false} LessMeans(a: string, b: string)
    ensures Less(a, b) <==> Precedes(a, b)
  {
    if a == [] || b == [] {
    } else if a[0] != b[0] {
      assert SmallerAt(a, b, 0) <==> a[0] < b[0];
    } else {
      LessMeans(a[1..], b[1..]);
      PrefixTail(a, b);
      forall k: nat
        ensures SmallerAt(a[1..], b[1..], k) <==> SmallerAt(a, b, k + 1)
      {
        SmallerAtTail(a, b, k);
      }
      if k :| SmallerAt(a, b, k) {
        assert SmallerAt(a[1..], b[1..], k - 1);
      }
    }
  }

  /** A listing in that order. */
  ghost predicate Ordered(s: seq<string>)
  {
    forall i, j :: 0 <= i < j < |s| ==> Precedes(s[i], s[j])
  }

  lemma SortedIsOrdered(s: seq<string>)
    requires StrictlySorted(s)
    ensures Ordered(s)
  {
    forall i, j | 0 <= i < j < |s|
      ensures Precedes(s[i], s[j])
    {
      LessMeans(s[i], s[j]);
    }
  }
}
