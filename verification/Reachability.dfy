/** Reachability in a graph given by its successor sets: the reference against which the
    worklists and depth-first searches of the repository are stated. */
module Reachability {

  function Succ<T>(edges: map<T, set<T>>, x: T): set<T> {
    if x in edges then edges[x] else {}
  }

  ghost predicate IsPath<T>(edges: map<T, set<T>>, p: seq<T>) {
    |p| > 0 && forall i :: 0 <= i < |p| - 1 ==> p[i + 1] in Succ(edges, p[i])
  }

  ghost predicate PathTo<T>(edges: map<T, set<T>>, seeds: set<T>, p: seq<T>, x: T) {
    IsPath(edges, p) && p[0] in seeds && p[|p| - 1] == x
  }

  ghost predicate Reaches<T(!new)>(edges: map<T, set<T>>, seeds: set<T>, x: T) {
    exists p :: PathTo(edges, seeds, p, x)
  }

  ghost predicate Closed<T>(edges: map<T, set<T>>, s: set<T>) {
    forall x :: x in s ==> Succ(edges, x) <= s
  }

  lemma {:induction false} SeedReaches<T(!new)>(edges: map<T, set<T>>, seeds: set<T>, x: T)
    requires x in seeds
    ensures Reaches(edges, seeds, x)
  {
    assert PathTo(edges, seeds, [x], x);
  }

  lemma {:induction false} StepReaches<T(!new)>(edges: map<T, set<T>>, seeds: set<T>, x: T, y: T)
    requires Reaches(edges, seeds, x) && y in Succ(edges, x)
    ensures Reaches(edges, seeds, y)
  {
    var p :| PathTo(edges, seeds, p, x);
    var q := p + [y];
    forall i | 0 <= i < |q| - 1
      ensures q[i + 1] in Succ(edges, q[i])
    {
      if i < |p| - 1 {
        assert p[i + 1] in Succ(edges, p[i]);
      }
    }
    assert PathTo(edges, seeds, q, y);
  }

  lemma {:induction false} PathStays<T>(edges: map<T, set<T>>, s: set<T>, p: seq<T>, i: nat)
    requires Closed(edges, s) && IsPath(edges, p) && p[0] in s && i < |p|
    ensures p[i] in s
  {
    if i > 0 {
      PathStays(edges, s, p, i - 1);
      assert p[i - 1 + 1] in Succ(edges, p[i - 1]);
    }
  }

  lemma {:induction false} SuccessorsReach<T(!new)>(edges: map<T, set<T>>, seeds: set<T>, x: T)
    requires Reaches(edges, seeds, x)
    ensures forall y :: y in Succ(edges, x) ==> Reaches(edges, seeds, y)
  {
    forall y | y in Succ(edges, x)
      ensures Reaches(edges, seeds, y)
    {
      StepReaches(edges, seeds, x, y);
    }
  }

  /** A closed set that contains the seeds contains all they reach. */
  lemma {:induction false} ReachStaysInClosed<T(!new)>(edges: map<T, set<T>>, seeds: set<T>, s: set<T>, x: T)
    requires seeds <= s && Closed(edges, s) && Reaches(edges, seeds, x)
    ensures x in s
  {
    var p :| PathTo(edges, seeds, p, x);
    PathStays(edges, s, p, |p| - 1);
  }

  /** More seeds reach more. */
  lemma {:induction false} ReachMonotone<T(!new)>(edges: map<T, set<T>>, small: set<T>, large: set<T>, x: T)
    requires small <= large && Reaches(edges, small, x)
    ensures Reaches(edges, large, x)
  {
    var p :| PathTo(edges, small, p, x);
    assert PathTo(edges, large, p, x);
  }

  /** What a successor reaches is reached. */
  lemma {:induction false} FirstStep<T(!new)>(edges: map<T, set<T>>, x: T, y: T, z: T)
    requires y in Succ(edges, x) && Reaches(edges, {y}, z)
    ensures Reaches(edges, {x}, z)
  {
    var p :| PathTo(edges, {y}, p, z);
    var q := [x] + p;
    forall i | 0 <= i < |q| - 1
      ensures q[i + 1] in Succ(edges, q[i])
    {
      if i > 0 {
        assert p[i - 1 + 1] in Succ(edges, p[i - 1]);
      }
    }
    assert PathTo(edges, {x}, q, z);
  }

  /** A reached element is a seed or a successor of a reached element. */
  lemma {:induction false} LastStep<T(!new)>(edges: map<T, set<T>>, seeds: set<T>, x: T)
    requires Reaches(edges, seeds, x)
    ensures x in seeds || exists e :: Reaches(edges, seeds, e) && x in Succ(edges, e)
  {
    var p :| PathTo(edges, seeds, p, x);
    if |p| > 1 {
      var q := p[..|p| - 1];
      forall i | 0 <= i < |q| - 1
        ensures q[i + 1] in Succ(edges, q[i])
      {
        assert p[i + 1] in Succ(edges, p[i]);
      }
      assert PathTo(edges, seeds, q, p[|p| - 2]);
      assert p[|p| - 2 + 1] in Succ(edges, p[|p| - 2]);
    }
  }

  /** A worklist half drained: all it holds is reached, and what is reached is
      expanded or still to be found through the pending elements. */
  ghost predicate Draining<T(!new)>(edges: map<T, set<T>>, seeds: set<T>, expanded: set<T>, pending: set<T>) {
    && (forall x :: x in expanded || x in pending ==> Reaches(edges, seeds, x))
    && seeds <= expanded + pending
    && (forall x :: x in expanded ==> Succ(edges, x) <= expanded + pending)
  }

  lemma {:induction false} DrainingStarts<T(!new)>(edges: map<T, set<T>>, seeds: set<T>)
    ensures Draining(edges, seeds, {}, seeds)
  {
    forall x | x in seeds
      ensures Reaches(edges, seeds, x)
    {
      SeedReaches(edges, seeds, x);
    }
  }

  /** Expanding one pending element, whose successors are put on the list unless
      they were expanded before. */
  lemma {:induction false} DrainingStep<T(!new)>(
    edges: map<T, set<T>>, seeds: set<T>, expanded: set<T>, pending: set<T>, x: T, rest: set<T>)
    requires Draining(edges, seeds, expanded, pending)
    requires x in pending && pending - {x} <= rest <= pending
    ensures Draining(edges, seeds, expanded + {x}, rest + (Succ(edges, x) - (expanded + {x})))
  {
    SuccessorsReach(edges, seeds, x);
  }

  lemma {:induction false} Drained<T(!new)>(edges: map<T, set<T>>, seeds: set<T>, expanded: set<T>)
    requires Draining(edges, seeds, expanded, {})
    ensures forall x :: x in expanded <==> Reaches(edges, seeds, x)
  {
    forall x | Reaches(edges, seeds, x)
      ensures x in expanded
    {
      ReachStaysInClosed(edges, seeds, expanded, x);
    }
  }

  /** Expanding one more element of a finite universe leaves fewer to expand. */
  lemma {:induction false} OneFewer<T>(universe: set<T>, done: set<T>, x: T)
    requires x in universe && x !in done
    ensures |universe - (done + {x})| < |universe - done|
  {
    assert universe - done == (universe - (done + {x})) + {x};
  }

  // ---------------------------------------------------------- stacks as sets

  function Elements<T>(s: seq<T>): set<T> {
    set x | x in s
  }

  lemma {:induction false} ElementsPush<T>(s: seq<T>, t: seq<T>)
    ensures Elements(s + t) == Elements(s) + Elements(t)
  {
    assert forall x :: x in s + t <==> x in s || x in t;
  }

  lemma {:induction false} ElementsPop<T>(s: seq<T>)
    requires s != []
    ensures Elements(s) == Elements(s[..|s| - 1]) + {s[|s| - 1]}
  {
    var rest, top := s[..|s| - 1], s[|s| - 1];
    assert s == rest + [top];
    ElementsPush(rest, [top]);
    assert Elements([top]) == {top};
  }

  lemma {:induction false} ElementsTakeMore<T>(s: seq<T>, i: nat)
    requires i < |s|
    ensures Elements(s[..i + 1]) == Elements(s[..i]) + {s[i]}
  {
    ElementsPop(s[..i + 1]);
    assert s[..i + 1][..i] == s[..i];
  }

  lemma {:induction false} ElementsAll<T>(s: seq<T>)
    ensures Elements(s[..|s|]) == Elements(s)
  {
    assert s[..|s|] == s;
  }
}
