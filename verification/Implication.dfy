/** The implication relation between permissions: IMPLIED_PERMISSIONS read as a
    finite graph, and the worklist loop that closes it. Nothing is assumed of the
    graph: it may have cycles and dangling targets. */
module Implication {
  import opened Wrappers

  type Graph<T> = map<T, set<T>>

  ghost predicate Edge<T>(g: Graph<T>, a: T, b: T) {
    a in g && b in g[a]
  }

  /** b lies exactly n edges after a. */
  ghost predicate Steps<T(!new)>(g: Graph<T>, a: T, b: T, n: nat) {
    if n == 0 then a == b else exists m :: Edge(g, a, m) && Steps(g, m, b, n - 1)
  }

  /** b is implied by a, directly or through others: one edge or more. */
  ghost predicate Reaches<T(!new)>(g: Graph<T>, a: T, b: T) {
    exists n: nat :: n > 0 && Steps(g, a, b, n)
  }

  lemma {:induction false} StepsConcat<T(!new)>(g: Graph<T>, a: T, b: T, c: T, i: nat, j: nat)
    requires Steps(g, a, b, i) && Steps(g, b, c, j)
    ensures Steps(g, a, c, i + j)
  {
    if i == 0 {
    } else {
      var m :| Edge(g, a, m) && Steps(g, m, b, i - 1);
      StepsConcat(g, m, b, c, i - 1, j);
      assert Edge(g, a, m) && Steps(g, m, c, i + j - 1);
    }
  }

  lemma EdgeReaches<T(!new)>(g: Graph<T>, a: T, b: T)
    requires Edge(g, a, b)
    ensures Reaches(g, a, b)
  {
    assert Steps(g, b, b, 0);
    assert Steps(g, a, b, 1);
  }

  lemma ReachesTransitive<T(!new)>(g: Graph<T>, a: T, b: T, c: T)
    requires Reaches(g, a, b) && Reaches(g, b, c)
    ensures Reaches(g, a, c)
  {
    var i: nat :| i > 0 && Steps(g, a, b, i);
    var j: nat :| j > 0 && Steps(g, b, c, j);
    StepsConcat(g, a, b, c, i, j);
  }

  /** Any set that holds the successors of a and of its own members holds everything a reaches. */
  lemma {:induction false} ClosedContainsSteps<T(!new)>(g: Graph<T>, s: set<T>, a: T, b: T, n: nat)
    requires n > 0 && Steps(g, a, b, n)
    requires forall x, y :: (x == a || x in s) && Edge(g, x, y) ==> y in s
    ensures b in s
  {
    var m :| Edge(g, a, m) && Steps(g, m, b, n - 1);
    if n > 1 {
      ClosedContainsSteps(g, s, m, b, n - 1);
    }
  }

  ghost predicate IsTranspose<T(!new)>(g: Graph<T>, r: Graph<T>) {
    forall a, b :: Edge(r, a, b) <==> Edge(g, b, a)
  }

  lemma {:induction false} TransposeSteps<T(!new)>(g: Graph<T>, r: Graph<T>, a: T, b: T, n: nat)
    requires IsTranspose(g, r) && Steps(g, a, b, n)
    ensures Steps(r, b, a, n)
  {
    if n == 0 {
    } else {
      var m :| Edge(g, a, m) && Steps(g, m, b, n - 1);
      TransposeSteps(g, r, m, b, n - 1);
      assert Edge(r, m, a);
      assert Steps(r, a, a, 0) && Steps(r, m, a, 1);
      StepsConcat(r, b, m, a, n - 1, 1);
    }
  }

  /** Reversing every edge reverses reachability: q is implied by p in the table
      exactly when p is found from q in the reversed table. */
  lemma TransposeReaches<T(!new)>(g: Graph<T>, r: Graph<T>, a: T, b: T)
    requires IsTranspose(g, r)
    ensures Reaches(g, a, b) <==> Reaches(r, b, a)
  {
    if Reaches(g, a, b) {
      var n: nat :| n > 0 && Steps(g, a, b, n);
      TransposeSteps(g, r, a, b, n);
    }
    if Reaches(r, b, a) {
      var n: nat :| n > 0 && Steps(r, b, a, n);
      TransposeSteps(r, g, b, a, n);
    }
  }

  /** The reversed dictionary, filled in one (source, target) pair at a time. */
  method ReverseGraph<T(==,!new)>(g: Graph<T>) returns (r: Graph<T>)
    ensures IsTranspose(g, r)
  {
    r := map[];
    var sources := g.Keys;
    while sources != {}
      invariant sources <= g.Keys
      invariant forall a, b :: Edge(r, a, b) <==> Edge(g, b, a) && b !in sources
    {
      var src :| src in sources;
      sources := sources - {src};
      var targets := g[src];
      while targets != {}
        invariant targets <= g[src]
        invariant src !in sources && sources < g.Keys
        invariant forall a, b :: Edge(r, a, b) <==> Edge(g, b, a) && b !in sources && !(b == src && a in targets)
      {
        var dest :| dest in targets;
        targets := targets - {dest};
        ghost var was := r;
        r := r[dest := (if dest in r then r[dest] else {}) + {src}];
        assert Edge(g, src, dest);
        assert forall a, b :: Edge(r, a, b) <==> Edge(was, a, b) || (a == dest && b == src);
      }
    }
  }

  /** Puts a set in some order, as iterating a Python set does. */
  method InSomeOrder<T(==)>(s: set<T>) returns (l: seq<T>)
    ensures forall x :: x in l <==> x in s
  {
    l := [];
    var rest := s;
    while rest != {}
      invariant forall x :: x in s <==> x in l || x in rest
    {
      var x :| x in rest;
      rest := rest - {x};
      l := l + [x];
    }
  }

  ghost function Targets<T(!new)>(g: Graph<T>): set<T> {
    set a, b | a in g && b in g[a] :: b
  }

  /** The worklist loop of get_implied_perms. Every permission found is in the worklist
      or has had its own direct implications added to the result. */
  method ImpliedPerms<T(==,!new)>(table: Graph<T>, explicitPerm: T, reverse: bool, restriction: Option<set<T>>)
    returns (result: set<T>)
    ensures forall q :: q in result <==>
                     && (if reverse then Reaches(table, q, explicitPerm) else Reaches(table, explicitPerm, q))
                     && (restriction.Some? ==> q in restriction.value)
  {
    var g := table;
    if reverse {
      g := ReverseGraph(table);
      forall q ensures Reaches(g, explicitPerm, q) <==> Reaches(table, q, explicitPerm) {
        TransposeReaches(table, g, q, explicitPerm);
      }
    }
    var permsToProcess := [explicitPerm];
    result := {};
    while permsToProcess != []
      invariant result <= Targets(g)
      invariant forall x :: x in permsToProcess ==> x == explicitPerm || x in result
      invariant forall x :: x in result ==> Reaches(g, explicitPerm, x)
      invariant forall x, y :: (x == explicitPerm || x in result) && x !in permsToProcess && Edge(g, x, y) ==>
                                 y in result
      decreases Targets(g) - result, |permsToProcess|
    {
      var last := |permsToProcess| - 1;
      var thisExplicitPerm := permsToProcess[last];
      ghost var before := permsToProcess;
      permsToProcess := permsToProcess[..last];
      assert before == permsToProcess + [thisExplicitPerm];
      if thisExplicitPerm !in g {
        continue;
      }
      var implied := g[thisExplicitPerm];
      forall y | y in implied ensures Reaches(g, explicitPerm, y) {
        assert Edge(g, thisExplicitPerm, y);
        EdgeReaches(g, thisExplicitPerm, y);
        if thisExplicitPerm != explicitPerm {
          ReachesTransitive(g, explicitPerm, thisExplicitPerm, y);
        }
      }
      ghost var found := result;
      var extension := InSomeOrder(implied - result);
      permsToProcess := permsToProcess + extension;
      result := result + implied;
      if extension != [] {
        assert extension[0] in extension;
        assert extension[0] in Targets(g) - found && extension[0] !in Targets(g) - result;
      } else {
        assert forall y :: y in implied - found ==> y in extension;
        assert result == found;
      }
    }
    forall q | Reaches(g, explicitPerm, q) ensures q in result {
      var n: nat :| n > 0 && Steps(g, explicitPerm, q, n);
      ClosedContainsSteps(g, result, explicitPerm, q, n);
    }
    if restriction.Some? {
      result := result * restriction.value;
    }
  }
}
