/** Finite sums over sets, and the list operations the simulator's Python code relies on. */
module Collections {

  datatype Option<+T> = None | Some(value: T)

  // ---------- sums over finite sets ----------

  /** The sum of `m` over `s`, independent of any enumeration order (see SumRemove). */
  ghost function Sum<T>(s: set<T>, m: map<T, real>): real
    requires s <= m.Keys
  {
    if s == {} then 0.0 else
    var x :| x in s;
    m[x] + Sum(s - {x}, m)
  }

  lemma {:induction false} SumRemove<T>(s: set<T>, x: T, m: map<T, real>)
    requires s <= m.Keys && x in s
    ensures Sum(s, m) == m[x] + Sum(s - {x}, m)
  {
    var y :| y in s && Sum(s, m) == m[y] + Sum(s - {y}, m);
    if y != x {
      SumRemove(s - {y}, x, m);
      SumRemove(s - {x}, y, m);
      assert s - {y} - {x} == s - {x} - {y};
    }
  }

  lemma SumAdd<T>(s: set<T>, x: T, m: map<T, real>)
    requires s + {x} <= m.Keys && x !in s
    ensures Sum(s + {x}, m) == Sum(s, m) + m[x]
  {
    SumRemove(s + {x}, x, m);
    assert s + {x} - {x} == s;
  }

  lemma {:induction false} SumAgree<T>(s: set<T>, m: map<T, real>, m': map<T, real>)
    requires s <= m.Keys && s <= m'.Keys
    requires forall x :: x in s ==> m[x] == m'[x]
    ensures Sum(s, m) == Sum(s, m')
  {
    if s != {} {
      var x :| x in s;
      SumAgree(s - {x}, m, m');
      SumRemove(s, x, m);
      SumRemove(s, x, m');
    }
  }

  /** Changing one summand changes the sum by the difference. */
  lemma SumUpdate<T>(s: set<T>, x: T, m: map<T, real>, m': map<T, real>)
    requires s <= m.Keys && s <= m'.Keys
    requires forall y :: y in s && y != x ==> m[y] == m'[y]
    ensures Sum(s, m') == if x in s then Sum(s, m) - m[x] + m'[x] else Sum(s, m)
  {
    if x in s {
      SumAgree(s - {x}, m, m');
      SumRemove(s, x, m);
      SumRemove(s, x, m');
    } else {
      SumAgree(s, m, m');
    }
  }

  lemma {:induction false} SumUnion<T>(s: set<T>, t: set<T>, m: map<T, real>)
    requires s + t <= m.Keys && s !! t
    ensures Sum(s + t, m) == Sum(s, m) + Sum(t, m)
  {
    if t == {} {
      assert s + t == s;
    } else {
      var x :| x in t;
      SumUnion(s, t - {x}, m);
      SumRemove(t, x, m);
      SumRemove(s + t, x, m);
      assert s + t - {x} == s + (t - {x});
    }
  }

  lemma {:induction false} SumNonNegative<T>(s: set<T>, m: map<T, real>)
    requires s <= m.Keys
    requires forall x :: x in s ==> 0.0 <= m[x]
    ensures 0.0 <= Sum(s, m)
  {
    if s != {} {
      var x :| x in s;
      SumNonNegative(s - {x}, m);
      SumRemove(s, x, m);
    }
  }

  lemma {:induction false} SumConstant<T>(s: set<T>, m: map<T, real>, c: real)
    requires s <= m.Keys
    requires forall x :: x in s ==> m[x] == c
    ensures Sum(s, m) == |s| as real * c
  {
    if s != {} {
      var x :| x in s;
      SumConstant(s - {x}, m, c);
      SumRemove(s, x, m);
      assert |s| == |s - {x}| + 1;
    }
  }

  // ---------- cardinalities ----------

  lemma {:induction false} SubsetCardinality<T>(s: set<T>, t: set<T>)
    requires s <= t
    ensures |s| <= |t|
    ensures |s| == |t| ==> s == t
  {
    assert t == s + (t - s);
  }

  lemma SplitCardinality<T>(s: set<T>, part: set<T>)
    requires part <= s
    ensures |s| == |part| + |s - part|
  {
    assert s == part + (s - part);
  }

  /** An injective image has as many elements as its domain. */
  lemma {:induction false} ImageCardinality<S, T>(s: set<S>, t: set<T>, f: S -> T)
    requires forall x, y :: x in s && y in s && f(x) == f(y) ==> x == y
    requires t == set x | x in s :: f(x)
    ensures |s| == |t|
  {
    if s != {} {
      var x :| x in s;
      var s', t' := s - {x}, t - {f(x)};
      assert t' == set y | y in s' :: f(y);
      ImageCardinality(s', t', f);
      assert |s| == |s'| + 1;
      assert f(x) in t;
      assert |t| == |t'| + 1;
    } else {
      assert t == {};
    }
  }

  /** Growing and shrinking a set step by step, as single equations. */
  lemma SetSteps<T>(s: set<T>, a: set<T>, b: set<T>)
    ensures s + a + b == s + (a + b)
    ensures s - a - b == s - (a + b)
  {
  }

  lemma TakeOne<T>(s: set<T>, todo: set<T>, x: T)
    requires todo <= s && x in todo
    ensures s - (todo - {x}) == s - todo + {x} && x !in s - todo
  {
  }

  // ---------- lists ----------

  ghost predicate NoDup<T>(s: seq<T>) {
    forall i, j :: 0 <= i < j < |s| ==> s[i] != s[j]
  }

  lemma Prefixes<T>(s: seq<T>, i: nat)
    requires i <= |s|
    ensures s[..0] == [] && s[..|s|] == s
    ensures i < |s| ==> s[..i + 1] == s[..i] + [s[i]]
  {
  }

  /** list.index: the first position of `x`. */
  function IndexOf<T(==)>(s: seq<T>, x: T): (i: nat)
    requires x in s
    ensures i < |s| && s[i] == x && x !in s[..i]
  {
    if s[0] == x then 0 else 1 + IndexOf(s[1..], x)
  }

  /** list.remove: without the first occurrence of `x`. */
  function RemoveFirst<T(==)>(s: seq<T>, x: T): (r: seq<T>)
    requires x in s
  {
    var i := IndexOf(s, x);
    s[..i] + s[i + 1..]
  }

  /** Removing from a list without repetitions removes the element and nothing else. */
  lemma RemoveFirstNoDup<T>(s: seq<T>, x: T)
    requires NoDup(s) && x in s
    ensures NoDup(RemoveFirst(s, x))
    ensures forall y :: y in RemoveFirst(s, x) <==> y in s && y != x
  {
    var i := IndexOf(s, x);
    var r := RemoveFirst(s, x);
    forall y | y in s && y != x
      ensures y in r
    {
      var j :| 0 <= j < |s| && s[j] == y;
      assert y == if j < i then r[j] else r[j - 1];
    }
  }

  lemma AppendNoDup<T>(s: seq<T>, x: T)
    requires NoDup(s) && x !in s
    ensures NoDup(s + [x])
    ensures forall y :: y in s + [x] <==> y in s || y == x
  {
  }

  /** Python iterates a set in some order: a list of its elements without repetitions. */
  method SetToList<T(==)>(s: set<T>) returns (list: seq<T>)
    ensures NoDup(list)
    ensures forall x :: x in list <==> x in s
    ensures |list| == |s|
  {
    list := [];
    var todo := s;
    while todo != {}
      invariant todo <= s && NoDup(list)
      invariant forall x :: x in list <==> x in s - todo
      invariant |list| + |todo| == |s|
    {
      var x :| x in todo;
      AppendNoDup(list, x);
      todo := todo - {x};
      list := list + [x];
    }
  }
}
