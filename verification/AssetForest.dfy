/** The forest of assets and the permission table over it: recalculation of everything below an asset,
    the recursive definition of effective permissions, and their agreement. */
module AssetForest {
  import opened Wrappers
  import opened PermissionTables
  import opened PartialPermissions
  import opened PermissionRows
  import opened PermissionInvariants
  import opened PermissionInheritance
  import opened PermissionSaves

  type Assets = map<AssetId, Asset>
  type Table = map<AssetId, Rows>
  type Depths = map<AssetId, nat>

  predicate IsChild(assets: Assets, m: AssetId, n: AssetId) {
    m in assets && assets[m].parent == Some(n)
  }

  /** Parents exist and links never close a loop: some depth grows along them. */
  ghost predicate Ranked(assets: Assets, depth: Depths) {
    && depth.Keys == assets.Keys
    && forall m, n :: IsChild(assets, m, n) ==> n in assets && depth[n] < depth[m]
  }

  ghost predicate IsForest(assets: Assets) {
    exists depth :: Ranked(assets, depth)
  }

  /** The walk over the children of n goes on to m: the type of n may have children, and m is not in the trash. */
  predicate IsVisited(t: Tables, assets: Assets, m: AssetId, n: AssetId) {
    IsChild(assets, m, n) && n in assets && assets[n].kind in t.withChildren && !assets[m].pendingDelete
  }

  /** Climbing k visited links from m leads to n. */
  ghost predicate Climbs(t: Tables, assets: Assets, m: AssetId, n: AssetId, k: nat)
    decreases k
  {
    && m in assets
    && if k == 0 then m == n
       else assets[m].parent.Some? && IsVisited(t, assets, m, assets[m].parent.value) &&
            Climbs(t, assets, assets[m].parent.value, n, k - 1)
  }

  /** m is n or one of the descendants that the walk from n comes to. */
  ghost predicate Below(t: Tables, assets: Assets, m: AssetId, n: AssetId) {
    exists k: nat :: Climbs(t, assets, m, n, k)
  }

  ghost predicate StrictlyBelow(t: Tables, assets: Assets, m: AssetId, n: AssetId) {
    && m in assets && assets[m].parent.Some? && IsVisited(t, assets, m, assets[m].parent.value)
    && Below(t, assets, assets[m].parent.value, n)
  }

  lemma BelowUnfolds(t: Tables, assets: Assets, m: AssetId, n: AssetId)
    ensures Below(t, assets, m, n) <==> (m in assets && m == n) || StrictlyBelow(t, assets, m, n)
  {
    if m in assets && m == n {
      assert Climbs(t, assets, m, n, 0);
    }
    if StrictlyBelow(t, assets, m, n) {
      var k: nat :| Climbs(t, assets, assets[m].parent.value, n, k);
      assert Climbs(t, assets, m, n, k + 1);
    }
    if Below(t, assets, m, n) {
      var k: nat :| Climbs(t, assets, m, n, k);
      if k > 0 {
        assert Climbs(t, assets, assets[m].parent.value, n, k - 1);
      }
    }
  }

  lemma {:induction false} ClimbingLowersDepth(t: Tables, assets: Assets, depth: Depths, m: AssetId, n: AssetId, k: nat)
    requires Ranked(assets, depth) && Climbs(t, assets, m, n, k)
    ensures n in assets && depth[n] + k <= depth[m]
    decreases k
  {
    if k > 0 {
      assert IsChild(assets, m, assets[m].parent.value);
      ClimbingLowersDepth(t, assets, depth, assets[m].parent.value, n, k - 1);
    }
  }

  lemma StrictlyBelowIsDeeper(t: Tables, assets: Assets, depth: Depths, m: AssetId, n: AssetId)
    requires Ranked(assets, depth) && StrictlyBelow(t, assets, m, n)
    ensures n in assets && depth[n] < depth[m]
  {
    var k: nat :| Climbs(t, assets, assets[m].parent.value, n, k);
    assert IsChild(assets, m, assets[m].parent.value);
    ClimbingLowersDepth(t, assets, depth, assets[m].parent.value, n, k);
  }

  lemma NotBelowItself(t: Tables, assets: Assets, n: AssetId)
    requires IsForest(assets)
    ensures !StrictlyBelow(t, assets, n, n)
  {
    var depth :| Ranked(assets, depth);
    if StrictlyBelow(t, assets, n, n) {
      StrictlyBelowIsDeeper(t, assets, depth, n, n);
    }
  }

  // ---- The permission table ----

  ghost predicate OwnersOk(assets: Assets) {
    forall n :: n in assets ==> OwnerOk(assets[n])
  }

  /** Every asset can be given whatever it can inherit. */
  ghost predicate Placed(t: Tables, assets: Assets) {
    forall n :: n in assets ==> PlacementOk(t, assets[n])
  }

  /** What n inherits from: its parent's stored effective permissions. */
  ghost function ParentPerms(t: Tables, assets: Assets, table: Table, n: AssetId): Perms {
    if n in assets && assets[n].parent.Some? && assets[n].parent.value in table
    then EffectivePerms(t, table[assets[n].parent.value])
    else {}
  }

  ghost predicate WellPlaced(t: Tables, assets: Assets, table: Table) {
    t.Wf() && IsForest(assets) && OwnersOk(assets) && table.Keys == assets.Keys
  }

  /** Every asset's rows satisfy the row invariants. */
  ghost predicate RowsOk(t: Tables, assets: Assets, table: Table) {
    forall n :: n in assets && n in table ==> NodeOk(t, assets[n], table[n])
  }

  /** Every asset's stored effective permissions are what a recalculation would give. */
  ghost predicate SettledAt(t: Tables, assets: Assets, table: Table, n: AssetId) {
    n in assets && n in table ==> Settled(t, assets[n], table[n], ParentPerms(t, assets, table, n))
  }

  ghost predicate AllSettled(t: Tables, assets: Assets, table: Table) {
    forall n :: n in assets ==> SettledAt(t, assets, table, n)
  }

  // ---- The recursive definition ----

  /** Effective permissions as the documentation defines them: explicit grants and what the owner or the
      parent's effective permissions give, less explicit denials. Stored inherited rows play no part. */
  ghost function EntitledPerms(t: Tables, assets: Assets, table: Table, depth: Depths, n: AssetId): Perms
    requires Ranked(assets, depth) && table.Keys == assets.Keys && n in assets
    decreases depth[n]
  {
    var parentPerms :=
      if assets[n].parent.None? then {}
      else
        assert IsChild(assets, n, assets[n].parent.value);
        EntitledPerms(t, assets, table, depth, assets[n].parent.value);
    EffectivePerms(t, Recalculated(t, assets[n], OwnRows(table[n]), parentPerms))
  }

  /** An asset's own permissions and its parent's are the defined ones. */
  ghost predicate AgreesAbove(t: Tables, assets: Assets, table: Table, depth: Depths, n: AssetId) {
    && WellPlaced(t, assets, table) && Ranked(assets, depth) && n in assets
    && forall m :: m in assets && (m == n || assets[n].parent == Some(m)) ==>
                     EffectivePerms(t, table[m]) == EntitledPerms(t, assets, table, depth, m)
  }

  lemma EntitledUnfolds(t: Tables, assets: Assets, table: Table, depth: Depths, n: AssetId, u: User, p: Perm)
    requires AgreesAbove(t, assets, table, depth, n)
    ensures Effective(t, table[n], u, p) <==>
            && (Explicit(table[n], u, p, false) || Inherits(t, assets[n], ParentPerms(t, assets, table, n), u, p))
            && !Explicit(table[n], u, p, true)
            && (u == ANONYMOUS_USER_ID ==> p in t.allowedAnonymous)
  {
    assert assets[n].parent.Some? ==> IsChild(assets, n, assets[n].parent.value);
    forall deny ensures Explicit(OwnRows(table[n]), u, p, deny) <==> Explicit(table[n], u, p, deny) {
    }
    assert (u, p) in EffectivePerms(t, table[n]) <==> Effective(t, table[n], u, p);
  }

  /** The definition, spelled out for one user and one permission. */
  lemma EntitledMeans(t: Tables, assets: Assets, table: Table, depth: Depths, n: AssetId, u: User, p: Perm)
    requires AgreesAbove(t, assets, table, depth, n)
    ensures Effective(t, table[n], u, p) <==>
            && (|| Row(u, p, false, false) in table[n]
                || if assets[n].owner == Some(u) then p in t.Assignable(assets[n].kind) && p != PartialSubmissions
                   else
                     && assets[n].parent.Some? && assets[n].parent.value in table
                     && exists q :: q in t.heritable && t.heritable[q] == p &&
                                    Effective(t, table[assets[n].parent.value], u, q))
            && Row(u, p, true, false) !in table[n]
            && (u == ANONYMOUS_USER_ID ==> p in t.allowedAnonymous)
  {
    EntitledUnfolds(t, assets, table, depth, n, u, p);
  }

  lemma RecalculatedFromOwnRows(t: Tables, a: Asset, R: Rows, parentPerms: Perms)
    ensures Recalculated(t, a, OwnRows(R), parentPerms) == Recalculated(t, a, R, parentPerms)
  {
    forall u, p, deny ensures Explicit(OwnRows(R), u, p, deny) <==> Explicit(R, u, p, deny) {
    }
    RowsEqual(Recalculated(t, a, OwnRows(R), parentPerms), Recalculated(t, a, R, parentPerms));
  }

  /** When every asset agrees with a recalculation from its parent, the stored effective
      permissions of every asset are exactly the recursively defined ones. */
  lemma {:induction false} SettledIsEntitled(t: Tables, assets: Assets, table: Table, depth: Depths, n: AssetId)
    requires Ranked(assets, depth) && table.Keys == assets.Keys && n in assets
    requires AllSettled(t, assets, table)
    ensures EffectivePerms(t, table[n]) == EntitledPerms(t, assets, table, depth, n)
    decreases depth[n]
  {
    var parentPerms := ParentPerms(t, assets, table, n);
    if assets[n].parent.Some? {
      assert IsChild(assets, n, assets[n].parent.value);
      SettledIsEntitled(t, assets, table, depth, assets[n].parent.value);
    }
    RecalculatedFromOwnRows(t, assets[n], table[n], parentPerms);
    assert SettledAt(t, assets, table, n);
    assert EffectivePerms(t, table[n]) == EffectivePerms(t, Recalculated(t, assets[n], table[n], parentPerms));
  }

  // ---- recalculate_descendants_perms ----

  /** `after` is `before` with the inherited rows of every descendant that the walk comes to calculated again,
      each from the new effective permissions of its parent, and nothing else changed. */
  ghost predicate RecalculatedBelow(t: Tables, assets: Assets, before: Table, after: Table, n: AssetId) {
    && after.Keys == before.Keys
    && forall m :: m in assets && m in before ==>
                     after[m] == if StrictlyBelow(t, assets, m, n)
                                 then Recalculated(t, assets[m], before[m], ParentPerms(t, assets, after, m))
                                 else before[m]
  }

  /** There is only one such table: the recalculation is a function of the table it starts from. */
  lemma {:induction false} RecalculatedBelowIsUnique(t: Tables, assets: Assets, depth: Depths, before: Table,
                                                     after1: Table, after2: Table, n: AssetId, m: AssetId)
    requires Ranked(assets, depth) && before.Keys == assets.Keys && m in assets
    requires RecalculatedBelow(t, assets, before, after1, n) && RecalculatedBelow(t, assets, before, after2, n)
    ensures after1[m] == after2[m]
    decreases depth[m]
  {
    if assets[m].parent.Some? {
      assert IsChild(assets, m, assets[m].parent.value);
      RecalculatedBelowIsUnique(t, assets, depth, before, after1, after2, n, assets[m].parent.value);
    }
  }

  lemma {:induction false} RecalculatedBelowIsOkAt(t: Tables, assets: Assets, depth: Depths, before: Table,
                                                   after: Table, n: AssetId, m: AssetId)
    requires t.Wf() && Placed(t, assets) && before.Keys == assets.Keys && Ranked(assets, depth) && m in assets
    requires RecalculatedBelow(t, assets, before, after, n)
    requires forall k :: k in assets ==>
                           if StrictlyBelow(t, assets, k, n) then NodeOk(t, assets[k], OwnRows(before[k]))
                           else NodeOk(t, assets[k], before[k])
    ensures NodeOk(t, assets[m], after[m])
    decreases depth[m]
  {
    if StrictlyBelow(t, assets, m, n) {
      var parent := assets[m].parent.value;
      assert IsChild(assets, m, parent);
      RecalculatedBelowIsOkAt(t, assets, depth, before, after, n, parent);
      EffectivePermsAreParentPermsOk(t, assets[parent], after[parent]);
      RecalculatedIsNodeOk(t, assets[m], before[m], assets[parent].kind, ParentPerms(t, assets, after, m));
    }
  }

  /** A recalculation below n keeps the row invariants everywhere. */
  lemma RecalculatedBelowIsOk(t: Tables, assets: Assets, before: Table, after: Table, n: AssetId)
    requires WellPlaced(t, assets, before) && Placed(t, assets) && RowsOk(t, assets, before)
    requires RecalculatedBelow(t, assets, before, after, n)
    ensures RowsOk(t, assets, after)
  {
    var depth :| Ranked(assets, depth);
    forall m | m in assets ensures NodeOk(t, assets[m], OwnRows(before[m])) {
      OwnRowsStaySound(t, assets[m], assets[m], before[m]);
    }
    forall m | m in assets ensures NodeOk(t, assets[m], after[m]) {
      RecalculatedBelowIsOkAt(t, assets, depth, before, after, n, m);
    }
  }

  /** A recalculation below n settles whatever it comes to, and
      unsettles nothing but children of what it came to. */
  lemma RecalculatedBelowSettles(t: Tables, assets: Assets, before: Table, after: Table, n: AssetId, m: AssetId)
    requires before.Keys == assets.Keys && m in assets && RecalculatedBelow(t, assets, before, after, n)
    ensures StrictlyBelow(t, assets, m, n) ==> SettledAt(t, assets, after, m)
    ensures !StrictlyBelow(t, assets, m, n) && (assets[m].parent.Some? ==>
                                                  !StrictlyBelow(t, assets, assets[m].parent.value, n)) ==>
              (SettledAt(t, assets, after, m) <==> SettledAt(t, assets, before, m))
  {
    if StrictlyBelow(t, assets, m, n) {
      RecalculatedIsSettled(t, assets[m], before[m], ParentPerms(t, assets, after, m));
    }
  }

  /** Explicit rows are never touched. */
  lemma RecalculatedBelowKeepsExplicit(t: Tables, assets: Assets, before: Table, after: Table, n: AssetId, m: AssetId,
                                       u: User, p: Perm, deny: bool)
    requires before.Keys == assets.Keys && m in assets && RecalculatedBelow(t, assets, before, after, n)
    ensures Explicit(after[m], u, p, deny) <==> Explicit(before[m], u, p, deny)
  {}

  /** Recalculating again changes nothing. */
  lemma RecalculatedBelowIsIdempotent(t: Tables, assets: Assets, before: Table, after: Table, n: AssetId)
    requires before.Keys == assets.Keys && RecalculatedBelow(t, assets, before, after, n)
    ensures RecalculatedBelow(t, assets, after, after, n)
  {
    forall m | m in assets && StrictlyBelow(t, assets, m, n)
      ensures after[m] == Recalculated(t, assets[m], after[m], ParentPerms(t, assets, after, m))
    {
      RecalculatedIsIdempotent(t, assets[m], before[m], ParentPerms(t, assets, after, m));
    }
  }

  /** Only the last rows of n count: recalculating for one state of n and then for
      another is recalculating for the latter. */
  lemma RecalculatedBelowComposes(t: Tables, assets: Assets, before: Table, mid: Table, after: Table, n: AssetId,
                                  R1: Rows, R2: Rows)
    requires IsForest(assets) && before.Keys == assets.Keys && n in assets
    requires RecalculatedBelow(t, assets, before[n := R1], mid, n)
    requires RecalculatedBelow(t, assets, mid[n := R2], after, n)
    ensures RecalculatedBelow(t, assets, before[n := R2], after, n)
  {
    var depth :| Ranked(assets, depth);
    forall m | m in assets && StrictlyBelow(t, assets, m, n)
      ensures after[m] == Recalculated(t, assets[m], before[m], ParentPerms(t, assets, after, m))
    {
      StrictlyBelowIsDeeper(t, assets, depth, m, n);
      RowsEqual(Recalculated(t, assets[m], mid[m], ParentPerms(t, assets, after, m)),
                Recalculated(t, assets[m], before[m], ParentPerms(t, assets, after, m)));
    }
  }
}
