/** The walk of recalculate_descendants_perms over the children of an asset. */
module DescendantWalk {
  import opened Wrappers
  import opened PermissionTables
  import opened PermissionRows
  import opened PermissionInheritance
  import opened AssetForest

  lemma {:induction false} DepthBound(depth: Depths) returns (bound: nat)
    ensures forall m :: m in depth ==> depth[m] <= bound
    decreases |depth|
  {
    if m :| m in depth {
      var rest := depth - {m};
      assert rest.Keys == depth.Keys - {m};
      var b := DepthBound(rest);
      bound := if b < depth[m] then depth[m] else b;
      forall k | k in depth ensures depth[k] <= bound {
        assert k == m || k in rest;
      }
    } else {
      bound := 0;
    }
  }

  /** The recalculation of the descendants of n, once the subtrees of the children in `done` are. */
  ghost predicate RecalculatedUnder(t: Tables, assets: Assets, before: Table, after: Table, done: set<AssetId>) {
    && after.Keys == before.Keys
    && forall m :: m in assets && m in before ==>
                     after[m] == if exists c :: c in done && Below(t, assets, m, c)
                                 then Recalculated(t, assets[m], before[m], ParentPerms(t, assets, after, m))
                                 else before[m]
  }

  predicate AreVisited(t: Tables, assets: Assets, s: set<AssetId>, n: AssetId) {
    forall c :: c in s ==> IsVisited(t, assets, c, n)
  }

  /** An asset lies below one child of n at most, and n lies below none. */
  lemma {:induction false} SubtreesAreDisjoint(t: Tables, assets: Assets, depth: Depths, n: AssetId, c1: AssetId,
                                               c2: AssetId, m: AssetId)
    requires Ranked(assets, depth) && IsVisited(t, assets, c1, n) && IsVisited(t, assets, c2, n)
    requires Below(t, assets, m, c1) && Below(t, assets, m, c2)
    ensures c1 == c2 && m != n
    decreases if m in depth then depth[m] else 0
  {
    BelowUnfolds(t, assets, m, c1);
    BelowUnfolds(t, assets, m, c2);
    NotBelowChild(t, assets, depth, n, c1);
    NotBelowChild(t, assets, depth, n, c2);
    if m != c1 && m != c2 {
      assert IsVisited(t, assets, m, assets[m].parent.value);
      SubtreesAreDisjoint(t, assets, depth, n, c1, c2, assets[m].parent.value);
    }
  }

  lemma NotBelowChild(t: Tables, assets: Assets, depth: Depths, n: AssetId, c: AssetId)
    requires Ranked(assets, depth) && IsVisited(t, assets, c, n)
    ensures !Below(t, assets, n, c)
  {
    if Below(t, assets, n, c) {
      var k: nat :| Climbs(t, assets, n, c, k);
      ClimbingLowersDepth(t, assets, depth, n, c, k);
    }
  }

  lemma {:induction false} BelowSomeChild(t: Tables, assets: Assets, n: AssetId, m: AssetId, k: nat)
    returns (c: AssetId)
    requires k > 0 && Climbs(t, assets, m, n, k)
    ensures IsVisited(t, assets, c, n) && Below(t, assets, m, c)
    decreases k
  {
    if k == 1 {
      c := m;
      assert Climbs(t, assets, m, m, 0);
    } else {
      c := BelowSomeChild(t, assets, n, assets[m].parent.value, k - 1);
      BelowUnfolds(t, assets, m, c);
    }
  }

  lemma AllChildrenDone(t: Tables, assets: Assets, before: Table, after: Table, n: AssetId, done: set<AssetId>)
    requires n in assets
    requires RecalculatedUnder(t, assets, before, after, done)
    requires forall c :: c in done <==> IsVisited(t, assets, c, n)
    ensures RecalculatedBelow(t, assets, before, after, n)
  {
    forall m | m in assets ensures StrictlyBelow(t, assets, m, n) <==> exists c :: c in done && Below(t, assets, m, c) {
      if StrictlyBelow(t, assets, m, n) {
        var k: nat :| Climbs(t, assets, assets[m].parent.value, n, k);
        assert Climbs(t, assets, m, n, k + 1);
        var c := BelowSomeChild(t, assets, n, m, k + 1);
      }
      if c :| c in done && Below(t, assets, m, c) {
        assert Climbs(t, assets, n, n, 0);
        var k: nat :| Climbs(t, assets, m, c, k);
        BelowChildIsStrictlyBelow(t, assets, n, c, m, k);
      }
    }
  }

  lemma {:induction false} BelowChildIsStrictlyBelow(t: Tables, assets: Assets, n: AssetId, c: AssetId, m: AssetId,
                                                     k: nat)
    requires n in assets && IsVisited(t, assets, c, n) && Climbs(t, assets, m, c, k)
    ensures StrictlyBelow(t, assets, m, n)
    decreases k
  {
    if k == 0 {
      assert Climbs(t, assets, n, n, 0);
    } else {
      BelowChildIsStrictlyBelow(t, assets, n, c, assets[m].parent.value, k - 1);
      BelowUnfolds(t, assets, assets[m].parent.value, n);
    }
  }

  /** Recalculating one more child and what is below it. */
  lemma OneMoreChild(t: Tables, assets: Assets, depth: Depths, before: Table, table1: Table, table2: Table,
                     table3: Table, n: AssetId, done: set<AssetId>, c: AssetId)
    requires Ranked(assets, depth) && before.Keys == assets.Keys && n in assets
    requires AreVisited(t, assets, done, n) && c !in done && IsVisited(t, assets, c, n)
    requires RecalculatedUnder(t, assets, before, table1, done)
    requires table2 == table1[c := Recalculated(t, assets[c], table1[c], EffectivePerms(t, before[n]))]
    requires RecalculatedBelow(t, assets, table2, table3, c)
    ensures RecalculatedUnder(t, assets, before, table3, done + {c})
  {
    forall m | m in assets
      ensures table3[m] == if exists d :: d in done + {c} && Below(t, assets, m, d)
                           then Recalculated(t, assets[m], before[m], ParentPerms(t, assets, table3, m))
                           else before[m]
    {
      OneMoreChildAt(t, assets, depth, before, table1, table2, table3, n, done, c, m);
    }
  }

  /** What is below c has not been visited yet. */
  lemma UntouchedBelow(t: Tables, assets: Assets, depth: Depths, before: Table, table1: Table, n: AssetId,
                       done: set<AssetId>, c: AssetId)
    requires Ranked(assets, depth) && before.Keys == assets.Keys && n in assets
    requires AreVisited(t, assets, done, n) && c !in done && IsVisited(t, assets, c, n)
    requires RecalculatedUnder(t, assets, before, table1, done)
    ensures forall k :: k in assets && Below(t, assets, k, c) ==> table1[k] == before[k] && k != n
  {
    forall k | k in assets && Below(t, assets, k, c) ensures table1[k] == before[k] && k != n {
      if d :| d in done && Below(t, assets, k, d) {
        SubtreesAreDisjoint(t, assets, depth, n, c, d, k);
      }
      SubtreesAreDisjoint(t, assets, depth, n, c, c, k);
    }
  }

  lemma OneMoreChildAt(t: Tables, assets: Assets, depth: Depths, before: Table, table1: Table, table2: Table,
                       table3: Table, n: AssetId, done: set<AssetId>, c: AssetId, m: AssetId)
    requires Ranked(assets, depth) && before.Keys == assets.Keys && n in assets && m in assets
    requires AreVisited(t, assets, done, n) && c !in done && IsVisited(t, assets, c, n)
    requires RecalculatedUnder(t, assets, before, table1, done)
    requires table2 == table1[c := Recalculated(t, assets[c], table1[c], EffectivePerms(t, before[n]))]
    requires RecalculatedBelow(t, assets, table2, table3, c)
    ensures table3[m] == if exists d :: d in done + {c} && Below(t, assets, m, d)
                         then Recalculated(t, assets[m], before[m], ParentPerms(t, assets, table3, m))
                         else before[m]
  {
    UntouchedBelow(t, assets, depth, before, table1, n, done, c);
    forall k | k in assets && !Below(t, assets, k, c) ensures table3[k] == table1[k] {
      BelowUnfolds(t, assets, k, c);
    }
    NotBelowChild(t, assets, depth, n, c);
    forall d | d in done ensures !Below(t, assets, n, d) {
      NotBelowChild(t, assets, depth, n, d);
    }
    BelowUnfolds(t, assets, m, c);
    if Below(t, assets, m, c) {
      if m == c {
        if StrictlyBelow(t, assets, c, c) {
          StrictlyBelowIsDeeper(t, assets, depth, c, c);
        }
      }
    } else if d :| d in done && Below(t, assets, m, d) {
      BelowUnfolds(t, assets, m, d);
      assert ParentPerms(t, assets, table3, m) == ParentPerms(t, assets, table1, m);
    }
  }
}
