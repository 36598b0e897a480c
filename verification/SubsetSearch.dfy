/** What the global optimizer computes: which corrupting links to disable, and why its pruned search loses nothing. */
module SubsetSearch {
  import opened Collections
  import opened Fabrics

  /** The ToRs that disabling `s` would push below the constraint. */
  function Violators(links: set<Link>, up: set<Link>, min: int, s: set<Link>): set<Tor> {
    set t | t in AffectedByAny(links, s) && PathCount(up - s, t) < min
  }

  lemma SafeIffNoViolators(links: set<Link>, up: set<Link>, min: int, s: set<Link>)
    ensures Safe(links, up, min, s) <==> Violators(links, up, min, s) == {}
  {
    forall t | t in AffectedByAny(links, s)
      ensures PathCount(up - s, t) >= min <==> t !in Violators(links, up, min, s)
    {}
  }

  /** `d` is a safe subset of `c`, and no safe subset of `c` carries more loss. */
  ghost predicate Optimal(links: set<Link>, up: set<Link>, min: int, rate: map<Link, real>, c: set<Link>,
                          d: set<Link>) {
    && d <= c <= rate.Keys && Safe(links, up, min, d)
    && forall s :: s <= c && Safe(links, up, min, s) ==> Sum(s, rate) <= Sum(d, rate)
  }

  lemma NothingOptimal(links: set<Link>, up: set<Link>, min: int, rate: map<Link, real>)
    ensures Optimal(links, up, min, rate, {}, {})
  {
    assert AffectedByAny(links, {}) == {};
  }

  lemma OptimalWithin(links: set<Link>, up: set<Link>, min: int, rate: map<Link, real>, c: set<Link>, d: set<Link>)
    requires Optimal(links, up, min, rate, c, d)
    ensures d <= c
  {
  }

  // ---------- the bulk step ----------

  /** The links of `c` upstream of no ToR that would be violated if all of `c` went down. */
  function Unconstrained(links: set<Link>, up: set<Link>, min: int, c: set<Link>): set<Link> {
    set l | l in c && AffectedTors(links, l) !! Violators(links, up, min, c)
  }

  lemma UnconstrainedAvoidsViolators(links: set<Link>, up: set<Link>, min: int, c: set<Link>, t: Tor)
    requires t in Violators(links, up, min, c)
    ensures t !in AffectedByAny(links, Unconstrained(links, up, min, c))
  {
  }

  /** Any part of the bulk step is safe, also next to other links of `c`. */
  lemma BulkSafe(links: set<Link>, up: set<Link>, min: int, c: set<Link>, b: set<Link>)
    requires b <= Unconstrained(links, up, min, c)
    ensures Safe(links, up, min, b)
  {
    forall t | t in AffectedByAny(links, b)
      ensures PathCount(up - b, t) >= min
    {
      assert t in AffectedByAny(links, Unconstrained(links, up, min, c));
      assert t in AffectedByAny(links, c);
      assert t !in Violators(links, up, min, c);
      PathsAntitone(up - c, up - b, t);
    }
  }

  /** Disabling the bulk links first takes nothing away from any safe choice. */
  lemma BulkCostsNothing(links: set<Link>, up: set<Link>, min: int, c: set<Link>, s: set<Link>)
    requires up <= links && c <= links && s <= c && Safe(links, up, min, s)
    ensures var b := Unconstrained(links, up, min, c); Safe(links, up - b, min, s - b)
  {
    var b := Unconstrained(links, up, min, c);
    assert up - b - (s - b) == up - s - b;
    forall t | t in AffectedByAny(links, s - b)
      ensures PathCount(up - b - (s - b), t) >= min
    {
      assert t in AffectedByAny(links, s) && t in AffectedByAny(links, c);
      if t in Violators(links, up, min, c) {
        UnconstrainedAvoidsViolators(links, up, min, c, t);
        PathsLocal(links, up - s, b, t);
      } else {
        PathsAntitone(up - c, up - s - b, t);
      }
    }
  }

  /** What `s` gains over `b` is made up for by `d`. */
  lemma BulkGain(b: set<Link>, d: set<Link>, s: set<Link>, rate: map<Link, real>)
    requires b <= rate.Keys && d <= rate.Keys && s <= rate.Keys && b !! d
    requires (forall l :: l in b ==> 0.0 <= rate[l]) && Sum(s - b, rate) <= Sum(d, rate)
    ensures Sum(s, rate) <= Sum(b + d, rate)
  {
    SumUnion(b, d, rate);
    SumUnion(s - b, s * b, rate);
    assert s == (s - b) + s * b;
    SumUnion(b - s, s * b, rate);
    assert b == (b - s) + s * b;
    SumNonNegative(b - s, rate);
  }

  /** The bulk step followed by an optimal choice among the rest is an optimal choice. */
  lemma TwoStagesOptimal(links: set<Link>, up: set<Link>, min: int, rate: map<Link, real>, c: set<Link>, d: set<Link>)
    requires up <= links && c <= links && c <= rate.Keys
    requires forall l :: l in c ==> 0.0 <= rate[l]
    requires var b := Unconstrained(links, up, min, c); Optimal(links, up - b, min, rate, c - b, d)
    ensures Optimal(links, up, min, rate, c, Unconstrained(links, up, min, c) + d)
  {
    var b := Unconstrained(links, up, min, c);
    BulkSafe(links, up, min, c, b);
    SafeExtend(links, up, min, b, d);
    forall s | s <= c && Safe(links, up, min, s)
      ensures Sum(s, rate) <= Sum(b + d, rate)
    {
      BulkCostsNothing(links, up, min, c, s);
      BulkGain(b, d, s, rate);
    }
  }

  // ---------- what optimality means for the links left enabled ----------

  /** A link that could be disabled on top of an optimal choice carries no loss. */
  lemma OptimalLeavesNoLoss(links: set<Link>, up: set<Link>, min: int, rate: map<Link, real>, c: set<Link>,
                            d: set<Link>, l: Link)
    requires up <= links && c <= links && Optimal(links, up, min, rate, c, d)
    requires l in c - d && Safe(links, up - d, min, {l})
    ensures rate[l] <= 0.0
  {
    SafeExtend(links, up, min, d, {l});
    SumAdd(d, l, rate);
  }

  /** With positive rates, no link left over by an optimal choice can be disabled on top of it. */
  lemma OptimalIsMaximal(links: set<Link>, up: set<Link>, min: int, rate: map<Link, real>, c: set<Link>, d: set<Link>)
    requires up <= links && c <= links && Optimal(links, up, min, rate, c, d)
    requires forall l :: l in c ==> rate[l] > 0.0
    ensures forall l :: l in c - d ==> !Safe(links, up - d, min, {l})
  {
    forall l | l in c - d && Safe(links, up - d, min, {l})
      ensures rate[l] <= 0.0
    {
      OptimalLeavesNoLoss(links, up, min, rate, c, d, l);
    }
  }

  // ---------- enumerating subsets ----------

  function Singletons(c: set<Link>): set<set<Link>> {
    set l | l in c :: {l}
  }

  lemma SingletonsNothing()
    ensures Singletons({}) == {}
  {
  }

  lemma SingletonsStep(c: set<Link>, l: Link)
    ensures Singletons(c + {l}) == Singletons(c) + {{l}}
  {
  }

  lemma SingletonsAre(c: set<Link>)
    ensures forall l :: l in c ==> {l} in Singletons(c)
    ensures forall s :: s in Singletons(c) ==> s <= c
  {
  }

  function ToSet(xs: seq<Link>): set<Link> {
    set x | x in xs
  }

  function WithFirst(x: Link, sets: seq<set<Link>>): (r: seq<set<Link>>)
    ensures |r| == |sets| && forall i :: 0 <= i < |r| ==> r[i] == sets[i] + {x}
  {
    seq(|sets|, i requires 0 <= i < |sets| => sets[i] + {x})
  }

  /** itertools.combinations: the `k`-element selections from a list, in order of position. */
  function Combinations(xs: seq<Link>, k: nat): seq<set<Link>> {
    if k == 0 then [{}]
    else if xs == [] then []
    else WithFirst(xs[0], Combinations(xs[1..], k - 1)) + Combinations(xs[1..], k)
  }

  lemma WithFirstMembers(x: Link, sets: seq<set<Link>>, s: set<Link>)
    requires forall t :: t in sets ==> x !in t
    ensures s in WithFirst(x, sets) <==> x in s && s - {x} in sets
  {
    var first := WithFirst(x, sets);
    if s in first {
      var i :| 0 <= i < |first| && first[i] == s;
      assert x !in sets[i] && s - {x} == sets[i];
    }
    if x in s && s - {x} in sets {
      var i :| 0 <= i < |sets| && sets[i] == s - {x};
      assert first[i] == s;
    }
  }

  lemma {:induction false} CombinationsWithin(xs: seq<Link>, k: nat)
    ensures forall t :: t in Combinations(xs, k) ==> t <= ToSet(xs)
  {
    if k > 0 && xs != [] {
      CombinationsWithin(xs[1..], k - 1);
      CombinationsWithin(xs[1..], k);
      var smaller := Combinations(xs[1..], k - 1);
      var first := WithFirst(xs[0], smaller);
      forall i | 0 <= i < |first|
        ensures first[i] <= ToSet(xs)
      {
        assert smaller[i] in smaller;
      }
    }
  }

  /** A selection either contains `x` or is made from the others. */
  lemma SelectionSplits(x: Link, others: set<Link>, s: set<Link>, k: nat)
    requires x !in others && k > 0
    ensures s <= others + {x} && |s| == k <==>
              if x in s then s - {x} <= others && |s - {x}| == k - 1 else s <= others && |s| == k
  {
    if x in s {
      assert |s| == |s - {x}| + 1;
    }
  }

  /** Every `k`-element subset is enumerated, and nothing else. */
  lemma {:induction false} CombinationsComplete(xs: seq<Link>, k: nat, s: set<Link>)
    requires NoDup(xs)
    ensures s in Combinations(xs, k) <==> s <= ToSet(xs) && |s| == k
  {
    if k == 0 {
      assert |s| == 0 <==> s == {};
    } else if xs == [] {
      assert s <= ToSet(xs) ==> s == {};
    } else {
      var x, rest := xs[0], xs[1..];
      assert x !in rest;
      CombinationsComplete(rest, k, s);
      CombinationsComplete(rest, k - 1, s - {x});
      CombinationsWithin(rest, k - 1);
      WithFirstMembers(x, Combinations(rest, k - 1), s);
      SelectionSplits(x, ToSet(rest), s, k);
      assert ToSet(xs) == ToSet(rest) + {x};
    }
  }

  lemma CombinationsAre(xs: seq<Link>, k: nat)
    requires NoDup(xs)
    ensures forall s :: s in Combinations(xs, k) <==> s <= ToSet(xs) && |s| == k
  {
    forall s ensures s in Combinations(xs, k) <==> s <= ToSet(xs) && |s| == k {
      CombinationsComplete(xs, k, s);
    }
  }

  lemma WithFirstDistinct(x: Link, smaller: seq<set<Link>>, without: seq<set<Link>>)
    requires NoDup(smaller) && NoDup(without)
    requires forall t :: t in smaller || t in without ==> x !in t
    ensures NoDup(WithFirst(x, smaller) + without)
  {
    var first := WithFirst(x, smaller);
    forall i, j | 0 <= i < j < |smaller|
      ensures first[i] != first[j]
    {
      assert smaller[i] in smaller && smaller[j] in smaller;
      assert first[i] - {x} == smaller[i] && first[j] - {x} == smaller[j];
    }
    forall i, j | 0 <= i < |first| && 0 <= j < |without|
      ensures first[i] != without[j]
    {
      assert x in first[i] && without[j] in without;
    }
  }

  /** No subset is enumerated twice. */
  lemma {:induction false} CombinationsDistinct(xs: seq<Link>, k: nat)
    requires NoDup(xs)
    ensures NoDup(Combinations(xs, k))
  {
    if k > 0 && xs != [] {
      var x, rest := xs[0], xs[1..];
      var smaller, without := Combinations(rest, k - 1), Combinations(rest, k);
      CombinationsDistinct(rest, k - 1);
      CombinationsDistinct(rest, k);
      CombinationsWithin(rest, k - 1);
      CombinationsWithin(rest, k);
      assert x !in rest;
      WithFirstDistinct(x, smaller, without);
    }
  }

  // ---------- the pruned search ----------

  datatype Candidate = Candidate(remaining: real, links: set<Link>)

  /** The queue holds exactly the safe ones among the subsets `seen`, each keyed by the loss it would leave. */
  ghost predicate Queued(links: set<Link>, up: set<Link>, min: int, rate: map<Link, real>, total: real,
                         seen: set<set<Link>>, entries: multiset<Candidate>)
  {
    && (forall s :: s in seen ==> s <= rate.Keys && s != {})
    && (forall c :: c in entries ==>
          c.links in seen && Safe(links, up, min, c.links) && c.remaining == total - Sum(c.links, rate))
    && (forall s :: s in seen && Safe(links, up, min, s) ==> Candidate(total - Sum(s, rate), s) in entries)
  }

  /** What one processed subset contributes to the queue. */
  ghost function EntryOf(links: set<Link>, up: set<Link>, min: int, rate: map<Link, real>, total: real,
                         s: set<Link>): multiset<Candidate>
    requires s <= rate.Keys
  {
    if Safe(links, up, min, s) then multiset{Candidate(total - Sum(s, rate), s)} else multiset{}
  }

  lemma QueuedNothing(links: set<Link>, up: set<Link>, min: int, rate: map<Link, real>, total: real)
    ensures Queued(links, up, min, rate, total, {}, multiset{})
  {
  }

  lemma QueuedStep(links: set<Link>, up: set<Link>, min: int, rate: map<Link, real>, total: real,
                   seen: set<set<Link>>, entries: multiset<Candidate>, s: set<Link>)
    requires Queued(links, up, min, rate, total, seen, entries) && s <= rate.Keys && s != {}
    ensures Queued(links, up, min, rate, total, seen + {s}, entries + EntryOf(links, up, min, rate, total, s))
  {
  }

  /** A safe set consists of links that are safe alone. */
  lemma SafeMembers(links: set<Link>, up: set<Link>, min: int, s: set<Link>)
    requires Safe(links, up, min, s)
    ensures forall l :: l in s ==> Safe(links, up, min, {l})
  {
    forall l | l in s
      ensures Safe(links, up, min, {l})
    {
      SafeSubset(links, up, min, s, {l});
    }
  }

  /** Supersets of rejected sets need no check of their own. */
  lemma SupersetRejected(links: set<Link>, up: set<Link>, min: int, rejected: set<Link>, s: set<Link>)
    requires !Safe(links, up, min, rejected) && rejected <= s
    ensures !Safe(links, up, min, s)
  {
    if Safe(links, up, min, s) {
      SafeSubset(links, up, min, s, rejected);
    }
  }

  /** Every nonempty safe subset of `c` has been seen: the singletons of `c`, and the larger subsets of the safe
      singletons. */
  ghost predicate Explored(links: set<Link>, up: set<Link>, min: int, c: set<Link>, seen: set<set<Link>>) {
    forall s :: s <= c && s != {} && Safe(links, up, min, s) ==> s in seen
  }

  lemma SinglesAndCombinationsExplore(links: set<Link>, up: set<Link>, min: int, c: set<Link>, singles: set<Link>,
                                      seen: set<set<Link>>)
    requires forall l :: l in c ==> {l} in seen
    requires forall l :: l in c && Safe(links, up, min, {l}) ==> l in singles
    requires forall s :: s <= singles && |s| >= 2 ==> s in seen
    ensures Explored(links, up, min, c, seen)
  {
    forall s | s <= c && s != {} && Safe(links, up, min, s)
      ensures s in seen
    {
      SafeMembers(links, up, min, s);
      var l :| l in s;
      if s != {l} {
        assert |s| == |s - {l}| + 1;
      }
    }
  }

  /** If no single link is safe, nothing is. */
  lemma NoSinglesExplore(links: set<Link>, up: set<Link>, min: int, rate: map<Link, real>, total: real, c: set<Link>,
                         seen: set<set<Link>>, entries: multiset<Candidate>)
    requires Queued(links, up, min, rate, total, seen, entries) && entries == multiset{}
    requires forall l :: l in c ==> {l} in seen
    ensures Explored(links, up, min, c, seen)
  {
    forall s | s <= c && s != {}
      ensures !Safe(links, up, min, s)
    {
      var l :| l in s;
      assert {l} in seen;
      assert !Safe(links, up, min, {l});
      SupersetRejected(links, up, min, {l}, s);
    }
  }

  /** An explored, nonempty queue yields an optimal choice; an explored, empty one shows that nothing can go. */
  lemma LeastIsOptimal(links: set<Link>, up: set<Link>, min: int, rate: map<Link, real>, total: real, c: set<Link>,
                       seen: set<set<Link>>, entries: multiset<Candidate>, least: Option<Candidate>)
    requires Queued(links, up, min, rate, total, seen, entries) && Explored(links, up, min, c, seen)
    requires c <= rate.Keys && forall l :: l in c ==> 0.0 <= rate[l]
    requires forall s :: s in seen ==> s <= c
    requires least.None? ==> entries == multiset{}
    requires least.Some? ==> least.value in entries && forall d :: d in entries ==> least.value.remaining <= d.remaining
    ensures Optimal(links, up, min, rate, c, if least.Some? then least.value.links else {})
    ensures least.Some? ==> least.value.links != {}
  {
    var best := if least.Some? then least.value.links else {};
    forall s | s <= c && Safe(links, up, min, s)
      ensures Sum(s, rate) <= Sum(best, rate)
    {
      if s == {} {
        SumNonNegative(best, rate);
      } else {
        assert Candidate(total - Sum(s, rate), s) in entries;
      }
    }
  }

  // ---------- maximality from one event to the next ----------

  /** No corrupting link could be disabled without pushing some ToR below the constraint. */
  ghost predicate Maximal(links: set<Link>, up: set<Link>, min: int, corrupting: set<Link>) {
    forall l :: l in corrupting ==> !Safe(links, up, min, {l})
  }

  /** Disabling a link makes it no easier to disable another. */
  lemma MaximalDrop(links: set<Link>, up: set<Link>, min: int, corrupting: set<Link>, l: Link)
    requires Maximal(links, up, min, corrupting)
    ensures Maximal(links, up - {l}, min, corrupting + {l} - {l})
  {
    forall k | k in corrupting + {l} - {l}
      ensures !Safe(links, up - {l}, min, {k})
    {
      if Safe(links, up - {l}, min, {k}) {
        UnsafeWithFewerLinks(links, up, up - {l}, min, {k});
      }
    }
  }

  lemma OptimalMakesMaximal(links: set<Link>, up: set<Link>, min: int, rate: map<Link, real>, c: set<Link>,
                            d: set<Link>)
    requires up <= links && c <= links && Optimal(links, up, min, rate, c, d)
    requires forall l :: l in c ==> l in rate && rate[l] > 0.0
    ensures Maximal(links, up - d, min, c - d)
  {
    OptimalIsMaximal(links, up, min, rate, c, d);
  }

  /** The constraint survives a safe removal, and an optimal one. */
  lemma MeetsAfter(links: set<Link>, tors: set<Tor>, up: set<Link>, min: int, s: set<Link>)
    requires up <= links && s <= links && AffectedByAny(links, s) <= tors
    requires Meets(tors, up, min) && Safe(links, up, min, s)
    ensures Meets(tors, up - s, min)
  {
    SafeMeets(links, tors, up, min, s);
  }

  lemma MeetsMoreLinks(tors: set<Tor>, up: set<Link>, up': set<Link>, min: int)
    requires Meets(tors, up, min) && up <= up'
    ensures Meets(tors, up', min)
  {
    forall t | t in tors ensures PathCount(up', t) >= min { PathsAntitone(up, up', t); }
  }
}
