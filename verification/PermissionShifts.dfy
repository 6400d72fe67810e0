/** What a change of the rows of one asset does to the assets below it, and which of them it leaves behind: the walk
    over descendants passes by children of assets whose type has none, and children in the trash. */
module PermissionShifts {
  import opened Wrappers
  import opened PermissionTables
  import opened PartialPermissions
  import opened PermissionRows
  import opened PermissionInvariants
  import opened PermissionInheritance
  import opened AssetForest

  // ---- One child ----

  predicate Differs(t: Tables, R1: Rows, R2: Rows, u: User, p: Perm) {
    Effective(t, R1, u, p) != Effective(t, R2, u, p)
  }

  /** What u gets from the parent decides about p: u does not own the asset, and no explicit row is for p. */
  predicate IsOpen(b: Asset, R: Rows, u: User, p: Perm) {
    b.owner != Some(u) && !IsExplicit(R, u, p)
  }

  /** The child is open to nothing in which two states of its parent differ. */
  ghost predicate Unmoved(t: Tables, b: Asset, R: Rows, before: Rows, after: Rows) {
    forall u, q :: q in t.heritable && Differs(t, before, after, u, q) ==> !IsOpen(b, R, u, t.heritable[q])
  }

  lemma InheritsFromEffective(t: Tables, b: Asset, R: Rows, u: User, q: Perm)
    requires t.InheritanceIsInjective() && b.parent.Some? && b.owner != Some(u) && q in t.heritable
    ensures Inherits(t, b, EffectivePerms(t, R), u, t.heritable[q]) <==> Effective(t, R, u, q)
  {
    assert (u, q) in EffectivePerms(t, R) <==> Effective(t, R, u, q);
  }

  /** A recalculated child gives p otherwise for another state of its parent exactly
      when it is open to p and the parent differs in what is translated to p. */
  lemma RecalculatedDiffersIff(t: Tables, b: Asset, R: Rows, before: Rows, after: Rows, u: User, p: Perm)
    requires t.InheritanceIsInjective() && t.AnonymousOk() && b.parent.Some?
    ensures Differs(t, Recalculated(t, b, R, EffectivePerms(t, before)),
                    Recalculated(t, b, R, EffectivePerms(t, after)), u, p) <==>
            IsOpen(b, R, u, p) &&
            exists q :: q in t.heritable && t.heritable[q] == p && Differs(t, before, after, u, q)
  {
    RecalculatedEffective(t, b, R, EffectivePerms(t, before), u, p);
    RecalculatedEffective(t, b, R, EffectivePerms(t, after), u, p);
    if b.owner != Some(u) {
      if q :| q in t.heritable && t.heritable[q] == p {
        InheritsFromEffective(t, b, before, u, q);
        InheritsFromEffective(t, b, after, u, q);
      }
    }
  }

  /** A child that agrees with one state of its parent agrees with the other state exactly when it is unmoved. */
  lemma UnmovedIff(t: Tables, b: Asset, R: Rows, S: Rows, before: Rows, after: Rows)
    requires t.Wf() && b.parent.Some?
    requires forall u, p, deny :: Explicit(S, u, p, deny) <==> Explicit(R, u, p, deny)
    requires Settled(t, b, S, EffectivePerms(t, before))
    ensures Settled(t, b, S, EffectivePerms(t, after)) <==> Unmoved(t, b, R, before, after)
  {
    var Rb, Ra := Recalculated(t, b, S, EffectivePerms(t, before)), Recalculated(t, b, S, EffectivePerms(t, after));
    forall u, p
      ensures Effective(t, S, u, p) == Effective(t, Ra, u, p) <==>
              forall q :: q in t.heritable && t.heritable[q] == p && Differs(t, before, after, u, q) ==>
                            !IsOpen(b, R, u, p)
    {
      RecalculatedDiffersIff(t, b, S, before, after, u, p);
      assert Effective(t, S, u, p) <==> Effective(t, Rb, u, p);
    }
    if Settled(t, b, S, EffectivePerms(t, after)) {
      forall u, q | q in t.heritable && Differs(t, before, after, u, q) ensures !IsOpen(b, R, u, t.heritable[q]) {
        assert Effective(t, S, u, t.heritable[q]) == Effective(t, Ra, u, t.heritable[q]);
      }
    }
  }

  // ---- Everything below ----

  /** Replacing the rows of n changes whether u has p on k, d visited links further down: it changes what p is
      translated from on n, and every asset on the way is open. This can be told before the walk. */
  ghost predicate Moves(t: Tables, assets: Assets, before: Table, n: AssetId, N: Rows, k: AssetId, u: User, p: Perm,
                        d: nat)
    requires n in before
    decreases d
  {
    if d == 0 then k == n && Differs(t, before[n], N, u, p)
    else
      && k in assets && k in before && assets[k].parent.Some? && IsVisited(t, assets, k, assets[k].parent.value)
      && IsOpen(assets[k], before[k], u, p)
      && exists q :: q in t.heritable && t.heritable[q] == p &&
                     Moves(t, assets, before, n, N, assets[k].parent.value, u, q, d - 1)
  }

  ghost predicate IsMoved(t: Tables, assets: Assets, before: Table, n: AssetId, N: Rows, k: AssetId, u: User, p: Perm)
    requires n in before
  {
    exists d: nat :: Moves(t, assets, before, n, N, k, u, p, d)
  }

  /** The walk does not come to m, but m takes something from its parent that the change moves. */
  ghost predicate IsStranded(t: Tables, assets: Assets, before: Table, n: AssetId, N: Rows, m: AssetId)
    requires n in before
  {
    && m in assets && m in before && assets[m].parent.Some? && !IsVisited(t, assets, m, assets[m].parent.value)
    && exists u, q :: q in t.heritable && IsOpen(assets[m], before[m], u, t.heritable[q]) &&
                      IsMoved(t, assets, before, n, N, assets[m].parent.value, u, q)
  }

  ghost predicate NoneStranded(t: Tables, assets: Assets, before: Table, n: AssetId, N: Rows)
    requires n in before
  {
    forall m :: !IsStranded(t, assets, before, n, N, m)
  }

  lemma {:induction false} MovesClimbs(t: Tables, assets: Assets, before: Table, n: AssetId, N: Rows, k: AssetId,
                                       u: User, p: Perm, d: nat)
    requires n in before && n in assets && Moves(t, assets, before, n, N, k, u, p, d)
    ensures Climbs(t, assets, k, n, d)
    decreases d
  {
    if d > 0 {
      var q :| q in t.heritable && t.heritable[q] == p &&
               Moves(t, assets, before, n, N, assets[k].parent.value, u, q, d - 1);
      MovesClimbs(t, assets, before, n, N, assets[k].parent.value, u, q, d - 1);
    }
  }

  /** One link up. */
  lemma IsMovedUnfolds(t: Tables, assets: Assets, before: Table, n: AssetId, N: Rows, k: AssetId, u: User, p: Perm)
    requires IsForest(assets) && n in before && n in assets && k in assets && k in before
    ensures IsMoved(t, assets, before, n, N, k, u, p) <==>
            if k == n then Differs(t, before[n], N, u, p)
            else
              && assets[k].parent.Some? && IsVisited(t, assets, k, assets[k].parent.value)
              && IsOpen(assets[k], before[k], u, p)
              && exists q :: q in t.heritable && t.heritable[q] == p &&
                             IsMoved(t, assets, before, n, N, assets[k].parent.value, u, q)
  {
    var depth :| Ranked(assets, depth);
    if IsMoved(t, assets, before, n, N, k, u, p) {
      var d: nat :| Moves(t, assets, before, n, N, k, u, p, d);
      MovesClimbs(t, assets, before, n, N, k, u, p, d);
      ClimbingLowersDepth(t, assets, depth, k, n, d);
      if d > 0 {
        var q :| q in t.heritable && t.heritable[q] == p &&
                 Moves(t, assets, before, n, N, assets[k].parent.value, u, q, d - 1);
        assert IsMoved(t, assets, before, n, N, assets[k].parent.value, u, q);
      }
    }
    if k == n {
      if Differs(t, before[n], N, u, p) {
        assert Moves(t, assets, before, n, N, k, u, p, 0);
      }
    } else if && assets[k].parent.Some? && IsVisited(t, assets, k, assets[k].parent.value)
              && IsOpen(assets[k], before[k], u, p) {
      if q :| q in t.heritable && t.heritable[q] == p &&
              IsMoved(t, assets, before, n, N, assets[k].parent.value, u, q) {
        var d: nat :| Moves(t, assets, before, n, N, assets[k].parent.value, u, q, d);
        assert Moves(t, assets, before, n, N, k, u, p, d + 1);
      }
    }
  }

  /** Only what the walk comes to is moved. */
  lemma MovedIsBelow(t: Tables, assets: Assets, before: Table, n: AssetId, N: Rows, k: AssetId, u: User, p: Perm)
    requires n in before && n in assets && IsMoved(t, assets, before, n, N, k, u, p)
    ensures Below(t, assets, k, n)
  {
    var d: nat :| Moves(t, assets, before, n, N, k, u, p, d);
    MovesClimbs(t, assets, before, n, N, k, u, p, d);
  }

  /** The assets other than n agree with a recalculation. */
  ghost predicate OthersSettled(t: Tables, assets: Assets, table: Table, n: AssetId) {
    forall m :: m in assets && m != n ==> SettledAt(t, assets, table, m)
  }

  /** After the walk, exactly what is moved has changed. */
  lemma {:induction false} WalkMovesIff(t: Tables, assets: Assets, depth: Depths, before: Table, after: Table,
                                        n: AssetId, N: Rows, k: AssetId, u: User, p: Perm)
    requires WellPlaced(t, assets, before) && Ranked(assets, depth) && n in assets && k in assets
    requires OthersSettled(t, assets, before, n)
    requires RecalculatedBelow(t, assets, before[n := N], after, n)
    ensures Differs(t, before[k], after[k], u, p) <==> IsMoved(t, assets, before, n, N, k, u, p)
    decreases depth[k]
  {
    IsMovedUnfolds(t, assets, before, n, N, k, u, p);
    NotBelowItself(t, assets, n);
    if k != n && StrictlyBelow(t, assets, k, n) {
      var b, parent := assets[k], assets[k].parent.value;
      assert IsChild(assets, k, parent);
      forall q ensures Differs(t, before[parent], after[parent], u, q) <==>
                       IsMoved(t, assets, before, n, N, parent, u, q)
      {
        WalkMovesIff(t, assets, depth, before, after, n, N, parent, u, q);
      }
      assert SettledAt(t, assets, before, k);
      RecalculatedDiffersIff(t, b, before[k], before[parent], after[parent], u, p);
      assert after[k] == Recalculated(t, b, before[k], EffectivePerms(t, after[parent]));
    } else if k != n && IsMoved(t, assets, before, n, N, k, u, p) {
      MovedIsBelow(t, assets, before, n, N, k, u, p);
      BelowUnfolds(t, assets, k, n);
      assert false;
    }
  }

  /** A child that the walk does not come to agrees with its parent after the walk
      exactly when it is open to nothing that is moved there. */
  lemma PassedByIff(t: Tables, assets: Assets, before: Table, after: Table, n: AssetId, N: Rows, m: AssetId, k: AssetId)
    requires WellPlaced(t, assets, before) && n in assets && IsChild(assets, m, k) && k in assets
    requires OthersSettled(t, assets, before, n) && m != n && after.Keys == before.Keys
    requires RecalculatedBelow(t, assets, before[n := N], after, n) && !StrictlyBelow(t, assets, m, n)
    ensures SettledAt(t, assets, after, m) <==>
            forall u, q :: q in t.heritable && IsMoved(t, assets, before, n, N, k, u, q) ==>
                             !IsOpen(assets[m], before[m], u, t.heritable[q])
  {
    var depth :| Ranked(assets, depth);
    forall u, q ensures Differs(t, before[k], after[k], u, q) <==> IsMoved(t, assets, before, n, N, k, u, q) {
      WalkMovesIff(t, assets, depth, before, after, n, N, k, u, q);
    }
    assert SettledAt(t, assets, before, m) && after[m] == before[m];
    UnmovedIff(t, assets[m], before[m], before[m], before[k], after[k]);
    assert SettledAt(t, assets, after, m) <==> Unmoved(t, assets[m], before[m], before[k], after[k]);
    assert forall u, q :: Differs(t, before[k], after[k], u, q) <==> IsMoved(t, assets, before, n, N, k, u, q);
  }

  /** After the walk another asset than n agrees with a recalculation exactly when it is not stranded. */
  lemma WalkSettlesOtherIff(t: Tables, assets: Assets, before: Table, after: Table, n: AssetId, N: Rows, m: AssetId)
    requires WellPlaced(t, assets, before) && n in assets && m in assets && m != n
    requires OthersSettled(t, assets, before, n)
    requires RecalculatedBelow(t, assets, before[n := N], after, n)
    ensures SettledAt(t, assets, after, m) <==> !IsStranded(t, assets, before, n, N, m)
  {
    if StrictlyBelow(t, assets, m, n) {
      RecalculatedBelowSettles(t, assets, before[n := N], after, n, m);
    } else if assets[m].parent.Some? {
      var depth :| Ranked(assets, depth);
      var k := assets[m].parent.value;
      assert IsChild(assets, m, k);
      PassedByIff(t, assets, before, after, n, N, m, k);
      if IsVisited(t, assets, m, k) {
        VisitedOrUnmoved(t, assets, before, n, N, m, k);
      }
    } else {
      assert SettledAt(t, assets, before, m) && after[m] == before[m];
    }
  }

  lemma VisitedOrUnmoved(t: Tables, assets: Assets, before: Table, n: AssetId, N: Rows, m: AssetId, k: AssetId)
    requires n in assets && n in before && IsVisited(t, assets, m, k) && !StrictlyBelow(t, assets, m, n)
    ensures forall u, q :: !IsMoved(t, assets, before, n, N, k, u, q)
  {
    forall u, q ensures !IsMoved(t, assets, before, n, N, k, u, q) {
      if IsMoved(t, assets, before, n, N, k, u, q) {
        MovedIsBelow(t, assets, before, n, N, k, u, q);
      }
    }
  }

  /** After the walk the whole forest agrees with a recalculation exactly when n does and nothing is stranded. */
  lemma WalkSettlesIff(t: Tables, assets: Assets, before: Table, after: Table, n: AssetId, N: Rows)
    requires WellPlaced(t, assets, before) && n in assets && OthersSettled(t, assets, before, n)
    requires RecalculatedBelow(t, assets, before[n := N], after, n)
    ensures AllSettled(t, assets, after) <==>
            SettledAt(t, assets, after, n) && NoneStranded(t, assets, before, n, N)
  {
    forall m | m in assets && m != n
      ensures SettledAt(t, assets, after, m) <==> !IsStranded(t, assets, before, n, N, m)
    {
      WalkSettlesOtherIff(t, assets, before, after, n, N, m);
    }
    NotStrandedItself(t, assets, before, n, N);
  }

  lemma NotStrandedItself(t: Tables, assets: Assets, before: Table, n: AssetId, N: Rows)
    requires IsForest(assets) && n in assets && n in before
    ensures !IsStranded(t, assets, before, n, N, n)
  {
    if IsStranded(t, assets, before, n, N, n) {
      var depth :| Ranked(assets, depth);
      var k := assets[n].parent.value;
      var u, q :| q in t.heritable && IsMoved(t, assets, before, n, N, k, u, q);
      assert IsChild(assets, n, k);
      MovedIsBelow(t, assets, before, n, N, k, u, q);
      var d: nat :| Climbs(t, assets, k, n, d);
      ClimbingLowersDepth(t, assets, depth, k, n, d);
    }
  }

  // ---- Forests in which nothing can be stranded ----

  /** Every asset with children is of a type that may have them, and no child is in the trash. */
  predicate AllVisited(t: Tables, assets: Assets) {
    forall m :: m in assets && assets[m].parent.Some? ==> IsVisited(t, assets, m, assets[m].parent.value)
  }

  lemma NothingIsPassedBy(t: Tables, assets: Assets, before: Table, n: AssetId, N: Rows)
    requires AllVisited(t, assets) && n in before
    ensures NoneStranded(t, assets, before, n, N)
  {}

  /** Without a change nothing is stranded either. */
  lemma NothingMoves(t: Tables, assets: Assets, before: Table, n: AssetId, N: Rows)
    requires n in before && forall u, p :: !Differs(t, before[n], N, u, p)
    ensures NoneStranded(t, assets, before, n, N)
  {
    forall k, u, p, d: nat ensures !Moves(t, assets, before, n, N, k, u, p, d) {
      NothingMovesAt(t, assets, before, n, N, k, u, p, d);
    }
  }

  lemma {:induction false} NothingMovesAt(t: Tables, assets: Assets, before: Table, n: AssetId, N: Rows, k: AssetId,
                                          u: User, p: Perm, d: nat)
    requires n in before && forall v, q :: !Differs(t, before[n], N, v, q)
    ensures !Moves(t, assets, before, n, N, k, u, p, d)
    decreases d
  {
    if d > 0 && Moves(t, assets, before, n, N, k, u, p, d) {
      var q :| q in t.heritable && t.heritable[q] == p &&
               Moves(t, assets, before, n, N, assets[k].parent.value, u, q, d - 1);
      NothingMovesAt(t, assets, before, n, N, assets[k].parent.value, u, q, d - 1);
    }
  }
}
