/**
 Small sequence utilities shared by the screens and the station engines.

 The components build their derived display state with JavaScript's array
 combinators: `filter(p).length` for counters, `filter(p)` for the lists a
 drop zone shows, and `filter((_, i) => i % 2 == 0)` to deal rescued animals
 out over two trees. Each of those is defined once here, together with an
 independent characterisation of what it returns.
 */
module Collections {

  /** An optional value: `null` in the components. */
  datatype Option<+T> = None | Some(value: T)

  /** The number of elements of `s` that satisfy `p` (`s.filter(p).length`). */
  function CountWhere<T>(s: seq<T>, p: T -> bool): (n: nat)
    ensures n <= |s|
    ensures n == |s| <==> forall i :: 0 <= i < |s| ==> p(s[i])
    ensures n == 0 <==> forall i :: 0 <= i < |s| ==> !p(s[i])
    decreases |s|
  {
    if |s| == 0 then 0
    else
      var rest := CountWhere(s[1..], p);
      assert forall i :: 1 <= i < |s| ==> s[i] == s[1..][i - 1];
      (if p(s[0]) then 1 else 0) + rest
  }

  /** The elements of `s` that satisfy `p`, in their original order (`s.filter(p)`). */
  function Filter<T>(s: seq<T>, p: T -> bool): (r: seq<T>)
    ensures |r| == CountWhere(s, p)
    ensures forall i :: 0 <= i < |r| ==> r[i] in s && p(r[i])
    ensures forall i :: 0 <= i < |s| && p(s[i]) ==> s[i] in r
    ensures multiset(r) <= multiset(s)
    decreases |s|
  {
    if |s| == 0 then []
    else
      var rest := Filter(s[1..], p);
      assert s == [s[0]] + s[1..];
      if p(s[0]) then [s[0]] + rest else rest
  }

  /** Counting over a one-element list counts that element exactly when it satisfies `p`. */
  lemma CountSingleton<T>(x: T, p: T -> bool)
    ensures CountWhere([x], p) == if p(x) then 1 else 0
  {
  }

  /** Counting is additive over concatenation. */
  lemma {:induction false} CountWhereAppend<T>(s: seq<T>, t: seq<T>, p: T -> bool)
    ensures CountWhere(s + t, p) == CountWhere(s, p) + CountWhere(t, p)
    decreases |s|
  {
    if |s| == 0 {
      assert s + t == t;
    } else {
      assert (s + t)[0] == s[0];
      assert (s + t)[1..] == s[1..] + t;
      CountWhereAppend(s[1..], t, p);
    }
  }

  /** When exactly the first `k` elements satisfy `p`, the count is `k`. */
  lemma {:induction false} CountPrefix<T>(s: seq<T>, p: T -> bool, k: nat)
    requires k <= |s|
    requires forall i :: 0 <= i < |s| ==> (p(s[i]) <==> i < k)
    ensures CountWhere(s, p) == k
    decreases |s|
  {
    if k > 0 {
      var t := s[1..];
      forall i | 0 <= i < |t| ensures p(t[i]) <==> i < k - 1 {
        assert t[i] == s[i + 1];
      }
      CountPrefix(t, p, k - 1);
    }
  }

  /** Filtering a one-element list keeps that element exactly when it satisfies `p`. */
  lemma FilterSingleton<T>(x: T, p: T -> bool)
    ensures Filter([x], p) == if p(x) then [x] else []
  {
  }

  /**
   Filtering distributes over concatenation: the kept elements of `s` come
   first, in order, followed by those of `t`. With `FilterSingleton` this
   pins `Filter` down completely, order included.
   */
  lemma {:induction false} FilterAppend<T>(s: seq<T>, t: seq<T>, p: T -> bool)
    ensures Filter(s + t, p) == Filter(s, p) + Filter(t, p)
    decreases |s|
  {
    if |s| == 0 {
      assert s + t == t;
    } else {
      assert (s + t)[0] == s[0];
      assert (s + t)[1..] == s[1..] + t;
      FilterAppend(s[1..], t, p);
      if p(s[0]) {
        assert [s[0]] + (Filter(s[1..], p) + Filter(t, p)) == ([s[0]] + Filter(s[1..], p)) + Filter(t, p);
      }
    }
  }

  /** The first element of `s` that satisfies `p`, if any (`s.find(p)`). */
  function Find<T>(s: seq<T>, p: T -> bool): (r: Option<T>)
    ensures r.None? <==> forall i :: 0 <= i < |s| ==> !p(s[i])
    ensures r.Some? ==> exists k :: (0 <= k < |s| && s[k] == r.value && p(r.value)
      && forall i :: 0 <= i < k ==> !p(s[i]))
    decreases |s|
  {
    if |s| == 0 then None
    else if p(s[0]) then Some(s[0])
    else
      var r := Find(s[1..], p);
      assert forall i :: 1 <= i < |s| ==> s[i] == s[1..][i - 1];
      r
  }

  /**
   When every element satisfying `whole` satisfies exactly one of `a` and `b`
   (and nothing else satisfies either), filtering by `a` and by `b` splits
   the elements kept by `whole` between them.
   */
  lemma {:induction false} FilterSplit<T>(s: seq<T>, whole: T -> bool, a: T -> bool, b: T -> bool)
    requires forall i :: 0 <= i < |s| ==> ((a(s[i]) || b(s[i])) <==> whole(s[i])) && !(a(s[i]) && b(s[i]))
    ensures multiset(Filter(s, a)) + multiset(Filter(s, b)) == multiset(Filter(s, whole))
    decreases |s|
  {
    if |s| > 0 {
      var t := s[1..];
      forall i | 0 <= i < |t|
        ensures ((a(t[i]) || b(t[i])) <==> whole(t[i])) && !(a(t[i]) && b(t[i]))
      {
        assert t[i] == s[i + 1];
      }
      FilterSplit(t, whole, a, b);
      FilterCons(s, a);
      FilterCons(s, b);
      FilterCons(s, whole);
    }
  }

  /** Filtering a non-empty sequence keeps or drops its head and filters the rest. */
  lemma FilterCons<T>(s: seq<T>, p: T -> bool)
    requires |s| > 0
    ensures multiset(Filter(s, p)) == (if p(s[0]) then multiset{s[0]} else multiset{}) + multiset(Filter(s[1..], p))
  {
  }

  /** Filtering a sequence without repetitions leaves one without repetitions. */
  lemma {:induction false} FilterDistinct<T>(s: seq<T>, p: T -> bool)
    requires Distinct(s)
    ensures Distinct(Filter(s, p))
    decreases |s|
  {
    if |s| > 0 {
      var t := s[1..];
      DistinctTail(s);
      FilterDistinct(t, p);
      if p(s[0]) {
        DistinctCons(s[0], Filter(t, p));
      }
    }
  }

  /** Dropping the first element keeps a sequence free of repetitions, and that element is not in the rest. */
  lemma DistinctTail<T>(s: seq<T>)
    requires Distinct(s) && |s| > 0
    ensures Distinct(s[1..]) && s[0] !in s[1..]
  {
    var t := s[1..];
    forall i, j | 0 <= i < j < |t| ensures t[i] != t[j] {
      assert t[i] == s[i + 1] && t[j] == s[j + 1];
    }
    forall i | 0 <= i < |t| ensures t[i] != s[0] {
      assert t[i] == s[i + 1];
    }
  }

  /** Putting an element in front of a sequence without repetitions that lacks it keeps it free of them. */
  lemma DistinctCons<T>(x: T, t: seq<T>)
    requires Distinct(t) && x !in t
    ensures Distinct([x] + t)
  {
    var r := [x] + t;
    forall i, j | 0 <= i < j < |r| ensures r[i] != r[j] {
      assert r[j] == t[j - 1];
      if i > 0 {
        assert r[i] == t[i - 1];
      }
    }
  }

  /** `find` returns the first element that satisfies the predicate. */
  lemma {:induction false} FindFirst<T>(s: seq<T>, p: T -> bool, k: nat)
    requires k < |s| && p(s[k])
    requires forall i :: 0 <= i < k ==> !p(s[i])
    ensures Find(s, p) == Some(s[k])
    decreases k
  {
    if k > 0 {
      FindFirst(s[1..], p, k - 1);
    }
  }

  /**
   Every other element of `s`, starting with the first one when `takeFirst`
   holds: `Alternate(s, true)` is `s.filter((_, i) => i % 2 == 0)` and
   `Alternate(s, false)` is `s.filter((_, i) => i % 2 != 0)`.
   */
  function Alternate<T>(s: seq<T>, takeFirst: bool): seq<T>
    decreases |s|
  {
    if |s| == 0 then []
    else (if takeFirst then [s[0]] else []) + Alternate(s[1..], !takeFirst)
  }

  /** The even-position elements are exactly `s[0], s[2], s[4], …`. */
  lemma {:induction false} AlternateEvenPositions<T>(s: seq<T>)
    ensures |Alternate(s, true)| == (|s| + 1) / 2
    ensures |Alternate(s, false)| == |s| / 2
    ensures forall k :: 0 <= k < |Alternate(s, true)| ==> Alternate(s, true)[k] == s[2 * k]
    ensures forall k :: 0 <= k < |Alternate(s, false)| ==> Alternate(s, false)[k] == s[2 * k + 1]
    decreases |s|
  {
    if |s| > 0 {
      var t := s[1..];
      AlternateEvenPositions(t);
      assert Alternate(s, true) == [s[0]] + Alternate(t, false);
      assert Alternate(s, false) == Alternate(t, true);
      forall k | 0 <= k < |Alternate(s, true)|
        ensures Alternate(s, true)[k] == s[2 * k]
      {
        if k > 0 {
          assert Alternate(s, true)[k] == Alternate(t, false)[k - 1] == t[2 * (k - 1) + 1];
        }
      }
      forall k | 0 <= k < |Alternate(s, false)|
        ensures Alternate(s, false)[k] == s[2 * k + 1]
      {
        assert Alternate(s, false)[k] == t[2 * k];
      }
    }
  }

  /** The position of the first element `Alternate` takes: 0 when it takes the first one, 1 otherwise. */
  function FirstTaken(takeFirst: bool): nat {
    if takeFirst then 0 else 1
  }

  /** Element `k` of an alternating half is element `2k` or `2k + 1` of `s`. */
  lemma AlternateAt<T>(s: seq<T>, takeFirst: bool)
    ensures forall k :: 0 <= k < |Alternate(s, takeFirst)| ==>
      2 * k + FirstTaken(takeFirst) < |s| && Alternate(s, takeFirst)[k] == s[2 * k + FirstTaken(takeFirst)]
  {
    AlternateEvenPositions(s);
    if takeFirst {
      assert forall k :: 0 <= k < |Alternate(s, true)| ==> Alternate(s, true)[k] == s[2 * k];
    } else {
      assert forall k :: 0 <= k < |Alternate(s, false)| ==> Alternate(s, false)[k] == s[2 * k + 1];
    }
  }

  /** The two alternating halves together hold every element of `s` exactly once. */
  lemma {:induction false} AlternatePartition<T>(s: seq<T>)
    ensures multiset(Alternate(s, true)) + multiset(Alternate(s, false)) == multiset(s)
    decreases |s|
  {
    if |s| > 0 {
      var t := s[1..];
      AlternatePartition(t);
      assert s == [s[0]] + t;
      assert Alternate(s, true) == [s[0]] + Alternate(t, false);
      assert Alternate(s, false) == Alternate(t, true);
    }
  }

  /** Whether no element of `s` appears twice. */
  predicate Distinct<T(==)>(s: seq<T>) {
    forall i, j :: 0 <= i < j < |s| ==> s[i] != s[j]
  }

  /** When `s` has no repeated element, no element lands in both alternating halves. */
  lemma AlternateDisjoint<T>(s: seq<T>)
    requires Distinct(s)
    ensures forall x :: x in Alternate(s, true) ==> x !in Alternate(s, false)
  {
    AlternatePartition(s);
    forall x | x in Alternate(s, true)
      ensures x !in Alternate(s, false)
    {
      DistinctCountsOnce(s, x);
      assert multiset(Alternate(s, true))[x] >= 1;
    }
  }

  /** In a sequence without repetitions every element occurs at most once. */
  lemma {:induction false} DistinctCountsOnce<T>(s: seq<T>, x: T)
    requires Distinct(s)
    ensures multiset(s)[x] <= 1
    decreases |s|
  {
    if |s| > 0 {
      var t := s[1..];
      assert s == [s[0]] + t;
      DistinctTail(s);
      DistinctCountsOnce(t, x);
      if x == s[0] {
        assert x !in t by {
          forall i | 0 <= i < |t| ensures t[i] != x {
            assert t[i] == s[i + 1];
          }
        }
      }
    }
  }
}
