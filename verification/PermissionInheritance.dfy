/** Inherited rows: what they are calculated from, and how each operation leaves the stored
    effective permissions of an asset in agreement with a recalculation. */
module PermissionInheritance {
  import opened Wrappers
  import opened PermissionTables
  import opened PartialPermissions
  import opened PermissionRows
  import opened PermissionInvariants

  /** Inheritance gives p to u: as the owner, or by translating what u effectively has on the parent. */
  ghost predicate Inherits(t: Tables, a: Asset, parentPerms: Perms, u: User, p: Perm) {
    if a.owner == Some(u) then p in t.OwnerPerms(a.kind)
    else a.parent.Some? && exists q :: (u, q) in parentPerms && q in t.heritable && t.heritable[q] == p
  }

  /** The rows once inherited rows have been thrown away and calculated again. */
  ghost function Recalculated(t: Tables, a: Asset, R: Rows, parentPerms: Perms): (R': Rows)
    ensures forall u, p, deny :: Explicit(R', u, p, deny) <==> Explicit(R, u, p, deny)
    ensures forall u, p :: Inherited(R', u, p) <==> Inherits(t, a, parentPerms, u, p)
    ensures forall r :: r in R' && r.inherited ==> !r.deny
  {
    var users := (set x | x in parentPerms :: x.0) + (if a.owner.Some? then {a.owner.value} else {});
    (set r | r in R && !r.inherited)
    + (set u, p: Perm | u in users && Inherits(t, a, parentPerms, u, p) :: Row(u, p, false, true))
  }

  /** What a recalculation makes effective. */
  lemma RecalculatedEffective(t: Tables, b: Asset, S: Rows, parentPerms: Perms, u: User, p: Perm)
    ensures Effective(t, Recalculated(t, b, S, parentPerms), u, p) <==>
            && (Explicit(S, u, p, false) || Inherits(t, b, parentPerms, u, p))
            && !Explicit(S, u, p, true)
            && (u == ANONYMOUS_USER_ID ==> p in t.allowedAnonymous)
  {
    var R' := Recalculated(t, b, S, parentPerms);
    assert Explicit(R', u, p, false) <==> Explicit(S, u, p, false);
    assert Explicit(R', u, p, true) <==> Explicit(S, u, p, true);
    assert Inherited(R', u, p) <==> Inherits(t, b, parentPerms, u, p);
  }

  lemma RowsEqual(R1: Rows, R2: Rows)
    requires forall u, p, deny :: Explicit(R1, u, p, deny) <==> Explicit(R2, u, p, deny)
    requires forall u, p :: Inherited(R1, u, p) <==> Inherited(R2, u, p)
    requires forall r :: r in R1 + R2 && r.inherited ==> !r.deny
    ensures R1 == R2
  {
    forall r ensures r in R1 <==> r in R2 {
      if r.inherited {
        assert !r.deny ==> (Inherited(R1, r.user, r.perm) <==> Inherited(R2, r.user, r.perm));
      } else {
        assert Explicit(R1, r.user, r.perm, r.deny) <==> Explicit(R2, r.user, r.perm, r.deny);
      }
    }
  }

  /** Recalculating twice is recalculating once. */
  lemma RecalculatedIsIdempotent(t: Tables, a: Asset, R: Rows, parentPerms: Perms)
    ensures Recalculated(t, a, Recalculated(t, a, R, parentPerms), parentPerms) == Recalculated(t, a, R, parentPerms)
  {
    RowsEqual(Recalculated(t, a, Recalculated(t, a, R, parentPerms), parentPerms), Recalculated(t, a, R, parentPerms));
  }

  predicate OwnerOk(a: Asset) {
    a.owner != Some(ANONYMOUS_USER_ID)
  }

  /** The asset can be given whatever it can inherit. */
  predicate PlacementOk(t: Tables, a: Asset) {
    OwnerOk(a) && (a.parent.Some? ==> t.HeritableRange() <= t.Assignable(a.kind))
  }

  /** What a child may rely on about its parent's effective permissions. */
  ghost predicate ParentPermsOk(t: Tables, parentKind: AssetType, parentPerms: Perms) {
    && (forall u, p :: (u, p) in parentPerms ==> p in t.Assignable(parentKind))
    && (forall u, p, q :: (u, p) in parentPerms && t.Implies(p, q) && q in t.Assignable(parentKind) ==>
                            (u, q) in parentPerms)
    && PublicPermsOk(t, parentPerms)
  }

  /** The part of it that holds of all effective permissions, whatever the parent's rows are. */
  predicate PublicPermsOk(t: Tables, parentPerms: Perms) {
    forall p :: (ANONYMOUS_USER_ID, p) in parentPerms ==> p in t.allowedAnonymous
  }

  lemma EffectivePermsAreParentPermsOk(t: Tables, a: Asset, R: Rows)
    requires t.Wf() && NodeOk(t, a, R)
    ensures ParentPermsOk(t, a.kind, EffectivePerms(t, R))
  {
    forall u, p | Effective(t, R, u, p) ensures p in t.Assignable(a.kind) {
      assert Row(u, p, false, false) in R || Row(u, p, false, true) in R;
    }
    NodeOkIsClosed(t, a, R);
  }

  lemma InheritsIsInheritable(t: Tables, a: Asset, parentPerms: Perms, u: User, p: Perm)
    requires Inherits(t, a, parentPerms, u, p)
    ensures Inheritable(t, a, u, p)
  {}

  /** What a translated permission implies on the child is translated from something implied on the parent. */
  lemma TranslationKeepsImplication(t: Tables, p: Perm, q: Perm, kind: AssetType, parentKind: AssetType)
    returns (r: Perm)
    requires t.HeritableOk() && p in t.Assignable(parentKind)
    requires p in t.heritable && t.Implies(t.heritable[p], q) && q in t.Assignable(kind)
    ensures t.Implies(p, r) && r in t.Assignable(parentKind) && r in t.heritable && t.heritable[r] == q
  {
    assert t.TranslationIsKept(p, q, kind, parentKind);
    r :| t.Implies(p, r) && r in t.Assignable(parentKind) && r in t.heritable && t.heritable[r] == q;
  }

  lemma InheritsIsClosed(t: Tables, a: Asset, parentKind: AssetType, parentPerms: Perms, u: User, p: Perm, q: Perm)
    requires t.Wf() && (a.parent.Some? ==> ParentPermsOk(t, parentKind, parentPerms))
    requires Inherits(t, a, parentPerms, u, p) && t.Implies(p, q) && q in t.Assignable(a.kind)
    ensures Inherits(t, a, parentPerms, u, q)
  {
    if a.owner == Some(u) {
      assert q != PartialSubmissions;
    } else {
      var p0 :| (u, p0) in parentPerms && p0 in t.heritable && t.heritable[p0] == p;
      var r := TranslationKeepsImplication(t, p0, q, a.kind, parentKind);
      assert (u, r) in parentPerms;
    }
  }

  /** What a child inherits is allowed where the user is anonymous, and it can be given. */
  lemma InheritsFits(t: Tables, a: Asset, parentPerms: Perms, u: User, p: Perm)
    requires t.Wf() && OwnerOk(a) && (a.parent.Some? ==> PublicPermsOk(t, parentPerms))
    requires Inherits(t, a, parentPerms, u, p)
    ensures u == ANONYMOUS_USER_ID ==> p in t.allowedAnonymous
    ensures PlacementOk(t, a) ==> p in t.Assignable(a.kind)
  {}

  /** Recalculating the inherited rows makes them fit, whatever the explicit rows are. */
  lemma RecalculatedFits(t: Tables, a: Asset, R: Rows, parentPerms: Perms)
    requires t.Wf() && OwnerOk(a) && (a.parent.Some? ==> PublicPermsOk(t, parentPerms))
    requires forall p :: Explicit(R, ANONYMOUS_USER_ID, p, false) ==> p in t.allowedAnonymous
    ensures InheritedFit(t, a, Recalculated(t, a, R, parentPerms))
  {
    var R' := Recalculated(t, a, R, parentPerms);
    forall r | r in R'
      ensures r.inherited ==> !r.deny && Inheritable(t, a, r.user, r.perm)
      ensures r.user == ANONYMOUS_USER_ID && !r.deny ==> r.perm in t.allowedAnonymous
    {
      if r.inherited {
        assert Inherited(R', r.user, r.perm);
        InheritsFits(t, a, parentPerms, r.user, r.perm);
        InheritsIsInheritable(t, a, parentPerms, r.user, r.perm);
      } else {
        assert Explicit(R, r.user, r.perm, r.deny);
      }
    }
  }

  lemma RecalculatedIsConsistent(t: Tables, a: Asset, R: Rows, parentPerms: Perms, agreeing: bool)
    requires t.Wf() && OwnerOk(a) && (a.parent.Some? ==> PublicPermsOk(t, parentPerms))
    requires forall p :: Explicit(R, ANONYMOUS_USER_ID, p, false) ==> p in t.allowedAnonymous
    requires NotBoth(R) && (agreeing ==> Answerable(t, a, R) && GrantsAgree(t, R))
    ensures RowsConsistent(t, a, Recalculated(t, a, R, parentPerms), agreeing)
  {
    var R' := Recalculated(t, a, R, parentPerms);
    RecalculatedFits(t, a, R, parentPerms);
    if PermsFit(t, a, R) {
      forall r | r in R' && !r.inherited ensures r.perm in t.Assignable(a.kind) {
        assert Explicit(R, r.user, r.perm, r.deny);
      }
    }
  }

  /** Recalculating the inherited rows restores every invariant of the asset, whatever the old ones were. */
  lemma RecalculatedIsNodeOk(t: Tables, a: Asset, R: Rows, parentKind: AssetType, parentPerms: Perms)
    requires t.Wf() && PlacementOk(t, a) && (a.parent.Some? ==> ParentPermsOk(t, parentKind, parentPerms))
    requires NodeOk(t, a, OwnRows(R))
    ensures NodeOk(t, a, Recalculated(t, a, R, parentPerms))
  {
    var R' := Recalculated(t, a, R, parentPerms);
    forall u, p, deny ensures Explicit(R', u, p, deny) <==> Explicit(OwnRows(R), u, p, deny) {
    }
    forall r: Row | !r.inherited ensures r in R' ==> r in OwnRows(R) {
      assert Explicit(R', r.user, r.perm, r.deny) <==> Explicit(OwnRows(R), r.user, r.perm, r.deny);
    }
    forall p | Explicit(R, ANONYMOUS_USER_ID, p, false) ensures p in t.allowedAnonymous {
      assert Row(ANONYMOUS_USER_ID, p, false, false) in OwnRows(R);
    }
    RecalculatedFits(t, a, R, parentPerms);
    forall r | r in R' ensures r.perm in t.Assignable(a.kind) {
      if r.inherited {
        assert Inherited(R', r.user, r.perm);
        InheritsFits(t, a, parentPerms, r.user, r.perm);
      }
    }
    forall u, p, q | Inherited(R', u, p) && t.Implies(p, q) && q in t.Assignable(a.kind) ensures Inherited(R', u, q) {
      InheritsIsClosed(t, a, parentKind, parentPerms, u, p, q);
    }
  }

  function OwnRows(R: Rows): Rows {
    set r | r in R && !r.inherited
  }

  // ---- Stored effective permissions against a recalculation ----

  /** The stored rows give exactly the effective permissions that a recalculation would give. */
  ghost predicate Settled(t: Tables, a: Asset, R: Rows, parentPerms: Perms) {
    forall u, p :: Effective(t, R, u, p) <==> Effective(t, Recalculated(t, a, R, parentPerms), u, p)
  }

  lemma RecalculatedIsSettled(t: Tables, a: Asset, R: Rows, parentPerms: Perms)
    ensures Settled(t, a, Recalculated(t, a, R, parentPerms), parentPerms)
  {
    RecalculatedIsIdempotent(t, a, R, parentPerms);
  }

  lemma AssignedKeepsSettled(t: Tables, a: Asset, R: Rows, u: User, p: Perm, deny: bool, parentPerms: Perms)
    requires t.Wf() && InheritedFit(t, a, R) && MayAssign(t, a, u, p, deny) && Settled(t, a, R, parentPerms)
    ensures Settled(t, a, AssignedCone(t, a, R, u, p, deny), parentPerms)
  {
    var S := t.Cone(a.kind, p, deny);
    var R' := AssignedCone(t, a, R, u, p, deny);
    AssignedKeepsRowsFit(t, a, R, u, p, deny);
    forall v, q ensures Effective(t, R', v, q) <==> Effective(t, Recalculated(t, a, R', parentPerms), v, q) {
      AssignedKeepsInherited(t, a, R, u, p, deny, v, q);
      assert Effective(t, R, v, q) <==> Effective(t, Recalculated(t, a, R, parentPerms), v, q);
      if v == u && q !in S && !deny {
        if x :| x in S && !Explicit(R, u, x, false) && q in t.Contradicts(x) {
          GrantConeFits(t, a, u, p, x);
          ContradictedIsNotInheritable(t, a, u, x, q);
          if Inherits(t, a, parentPerms, u, q) {
            InheritsIsInheritable(t, a, parentPerms, u, q);
          }
        }
      }
    }
  }

  lemma AssignOutcomeKeepsSettled(t: Tables, a: Asset, R: Rows, u: User, p: Perm, deny: bool,
                                  partialPerms: PartialPerms, parentPerms: Perms)
    requires t.Wf() && InheritedFit(t, a, R) && Settled(t, a, R, parentPerms)
    requires AssignOutcome(t, a, R, u, p, deny, false, partialPerms).Ok?
    ensures Settled(t, a, AssignOutcome(t, a, R, u, p, deny, false, partialPerms).value.rows, parentPerms)
  {
    var R1 := WithRow(t, a, R, u, p, deny);
    AssignInTwo(t, a, R, u, p, deny, partialPerms);
    AssignedKeepsRowsFit(t, a, R, u, p, deny);
    AssignedKeepsSettled(t, a, R, u, p, deny, parentPerms);
    if BringsAdding(t, a.kind, p, partialPerms) {
      AssignedKeepsSettled(t, a, R1, u, AddSubmissions, false, parentPerms);
    }
  }

  /** q can be given, and implies a permission that the removal of p turns into a denial. */
  ghost predicate ImpliesInherited(t: Tables, a: Asset, R: Rows, u: User, p: Perm, q: Perm) {
    q in t.Assignable(a.kind) && exists x :: TurnsIntoDenial(R, u, Affected(t, a.kind, p), x) && t.Implies(q, x)
  }

  /** What remove_perm needs of the rows for the removal to outlive the next recalculation: each permission it goes
      over that would be inherited again still has its inherited row, or is denied, or implies one
      that has its inherited row and is not denied yet. */
  ghost predicate RemovalHolds(t: Tables, a: Asset, R: Rows, parentPerms: Perms, u: User, p: Perm) {
    forall q :: q in Affected(t, a.kind, p) && Inherits(t, a, parentPerms, u, q) ==>
      || Inherited(R, u, q)
      || Explicit(R, u, q, true)
      || ImpliesInherited(t, a, R, u, p, q)
  }

  lemma NewlyDeniedWhen(t: Tables, a: Asset, R: Rows, u: User, p: Perm, x: Perm, q: Perm)
    requires TurnsIntoDenial(R, u, Affected(t, a.kind, p), x)
    requires q == x || (t.Implies(q, x) && q in t.Assignable(a.kind))
    ensures NewlyDenied(t, a.kind, R, u, Affected(t, a.kind, p), q)
  {
    assert q in t.Cone(a.kind, x, true);
  }

  lemma NewlyDeniedBecause(t: Tables, a: Asset, R: Rows, u: User, p: Perm, q: Perm)
    requires NewlyDenied(t, a.kind, R, u, Affected(t, a.kind, p), q)
    ensures Inherited(R, u, q) || ImpliesInherited(t, a, R, u, p, q)
  {
    var x :| TurnsIntoDenial(R, u, Affected(t, a.kind, p), x) && q in t.Cone(a.kind, x, true);
    if q != x {
      assert t.Implies(q, x);
    }
  }

  lemma DeniedAfterRemoval(t: Tables, a: Asset, R: Rows, parentPerms: Perms, u: User, p: Perm, q: Perm)
    requires q in Affected(t, a.kind, p)
    ensures Explicit(RemovedAll(t, a, R, u, p), u, q, true) <==>
            Inherited(R, u, q) || Explicit(R, u, q, true) || ImpliesInherited(t, a, R, u, p, q)
  {
    RemovedExplicit(t, a, R, u, p, u, q);
    if !Explicit(R, u, q, true) {
      if NewlyDenied(t, a.kind, R, u, Affected(t, a.kind, p), q) {
        NewlyDeniedBecause(t, a, R, u, p, q);
      }
      if Inherited(R, u, q) {
        NewlyDeniedWhen(t, a, R, u, p, q, q);
      }
      if ImpliesInherited(t, a, R, u, p, q) {
        var x :| TurnsIntoDenial(R, u, Affected(t, a.kind, p), x) && t.Implies(q, x);
        NewlyDeniedWhen(t, a, R, u, p, x, q);
      }
    }
  }

  /** remove_perm leaves the stored permissions in agreement with a recalculation exactly when RemovalHolds. */
  lemma RemovedIsSettledIff(t: Tables, a: Asset, R: Rows, parentPerms: Perms, u: User, p: Perm)
    requires t.Wf() && OwnerOk(a) && (a.parent.Some? ==> PublicPermsOk(t, parentPerms))
    requires Settled(t, a, R, parentPerms)
    ensures Settled(t, a, RemovedAll(t, a, R, u, p), parentPerms) <==> RemovalHolds(t, a, R, parentPerms, u, p)
  {
    var R' := RemovedAll(t, a, R, u, p);
    var R2 := Recalculated(t, a, R', parentPerms);
    forall v, q | !(v == u && q in Affected(t, a.kind, p)) ensures Effective(t, R', v, q) <==> Effective(t, R2, v, q) {
      RemovedExplicit(t, a, R, u, p, v, q);
      if NewlyDenied(t, a.kind, R, u, Affected(t, a.kind, p), q) {
        NewlyDeniedIsAffected(t, a, R, u, p, q);
      }
      assert Effective(t, R, v, q) <==> Effective(t, Recalculated(t, a, R, parentPerms), v, q);
    }
    forall q | q in Affected(t, a.kind, p)
      ensures !Effective(t, R', u, q)
      ensures Effective(t, R2, u, q) <==> Inherits(t, a, parentPerms, u, q) && !Explicit(R', u, q, true)
    {
      RemovedExplicit(t, a, R, u, p, u, q);
      if Inherits(t, a, parentPerms, u, q) {
        InheritsFits(t, a, parentPerms, u, q);
      }
    }
    forall q | q in Affected(t, a.kind, p) && Inherits(t, a, parentPerms, u, q)
      ensures Explicit(R', u, q, true) <==>
              || Inherited(R, u, q)
              || Explicit(R, u, q, true)
              || ImpliesInherited(t, a, R, u, p, q)
    {
      DeniedAfterRemoval(t, a, R, parentPerms, u, p, q);
    }
  }

  /** A fresh recalculation meets the condition. */
  lemma FreshRemovalHolds(t: Tables, a: Asset, R: Rows, parentPerms: Perms, u: User, p: Perm)
    ensures RemovalHolds(t, a, Recalculated(t, a, R, parentPerms), parentPerms, u, p)
  {}
}
