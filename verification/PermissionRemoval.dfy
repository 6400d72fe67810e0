/** What a removal is worth: when it outlives recalculation, and two histories after which it does not work. */
module PermissionRemoval {
  import opened Wrappers
  import opened PermissionTables
  import opened PartialPermissions
  import opened PermissionRows
  import opened PermissionInvariants
  import opened PermissionInheritance

  /** k recalculations in a row, the parent being as it is. */
  ghost function RecalculatedTimes(t: Tables, a: Asset, R: Rows, parentPerms: Perms, k: nat): Rows {
    if k == 0 then R else Recalculated(t, a, RecalculatedTimes(t, a, R, parentPerms, k - 1), parentPerms)
  }

  lemma {:induction false} ManyRecalculations(t: Tables, a: Asset, R: Rows, parentPerms: Perms, k: nat)
    ensures k > 0 ==> RecalculatedTimes(t, a, R, parentPerms, k) == Recalculated(t, a, R, parentPerms)
  {
    if k > 1 {
      ManyRecalculations(t, a, R, parentPerms, k - 1);
      RecalculatedIsIdempotent(t, a, R, parentPerms);
    }
  }

  /** Removing p from freshly recalculated rows takes p, and all that implies p, from u, and nothing else from
      anyone; and that stays so through any number of recalculations. */
  lemma RemovalSurvives(t: Tables, a: Asset, R: Rows, parentPerms: Perms,
                        u: User, p: Perm, v: User, q: Perm, k: nat)
    requires t.Wf() && OwnerOk(a) && (a.parent.Some? ==> PublicPermsOk(t, parentPerms))
    requires R == Recalculated(t, a, R, parentPerms)
    ensures Effective(t, RecalculatedTimes(t, a, RemovedAll(t, a, R, u, p), parentPerms, k), v, q) <==>
            Effective(t, R, v, q) && !(v == u && q in Affected(t, a.kind, p))
  {
    var R' := RemovedAll(t, a, R, u, p);
    RemovedTakesEffect(t, a, R, u, p, v, q);
    FreshRemovalHolds(t, a, R, parentPerms, u, p);
    RemovedIsSettledIff(t, a, R, parentPerms, u, p);
    ManyRecalculations(t, a, R', parentPerms, k);
  }

  /** Removing an inherited permission, granting it, and removing it again leaves no denial:
      the second removal works only until the next recalculation. */
  lemma SecondRemovalComesBack(t: Tables, a: Asset, R: Rows, parentPerms: Perms, u: User, p: Perm)
    requires t.Wf() && RowsConsistent(t, a, R, false) && R == Recalculated(t, a, R, parentPerms)
    requires Inherits(t, a, parentPerms, u, p) && MayAssign(t, a, u, p, false)
    ensures var R1 := RemovedAll(t, a, R, u, p);
            var R2 := AssignedCone(t, a, R1, u, p, false);
            var R3 := RemovedAll(t, a, R2, u, p);
            !Effective(t, R1, u, p) && Effective(t, R2, u, p) && !Effective(t, R3, u, p) &&
            Effective(t, Recalculated(t, a, R3, parentPerms), u, p)
  {
    var R1 := RemovedAll(t, a, R, u, p);
    var R2 := AssignedCone(t, a, R1, u, p, false);
    var R3 := RemovedAll(t, a, R2, u, p);
    RemovedKeepsConsistent(t, a, R, u, p, false);
    RemovedTakesEffect(t, a, R, u, p, u, p);
    AssignedTakesEffect(t, a, R1, u, p, false, p);
    RemovedTakesEffect(t, a, R2, u, p, u, p);
    forall x | x in Affected(t, a.kind, p) ensures !Inherited(R2, u, x) {
      RemovedExplicit(t, a, R, u, p, u, x);
      AssignedKeepsInherited(t, a, R1, u, p, false, u, x);
    }
    RemovedExplicit(t, a, R2, u, p, u, p);
    assert !NewlyDenied(t, a.kind, R2, u, Affected(t, a.kind, p), p);
    assert !Explicit(R2, u, p, true);
  }

  /** Removing an inherited permission that the partial permission implies denies the partial permission too. */
  lemma RemovalDeniesPartial(t: Tables, a: Asset, R: Rows, u: User, p: Perm)
    requires Inherited(R, u, p) && !Explicit(R, u, p, true) && p in t.allAssignable && p in t.Assignable(a.kind)
    requires PartialSubmissions in t.Cone(a.kind, p, true) && !Explicit(R, u, PartialSubmissions, true)
    ensures RemoveOutcome(t, a, R, u, p, false) == Ok(Change(RemovedAll(t, a, R, u, p), true))
    ensures Explicit(RemovedAll(t, a, R, u, p), u, PartialSubmissions, true)
    ensures !Explicit(RemovedAll(t, a, R, u, p), u, p, false)
  {
    assert TurnsIntoDenial(R, u, Affected(t, a.kind, p), p);
    assert NewlyDenied(t, a.kind, R, u, Affected(t, a.kind, p), PartialSubmissions);
    RemovedExplicit(t, a, R, u, p, u, PartialSubmissions);
    RemovedExplicit(t, a, R, u, p, u, p);
  }

  /** Granting it afterwards leaves that denial, when nothing granted contradicts the partial permission. */
  lemma GrantKeepsPartialDenied(t: Tables, a: Asset, R: Rows, u: User, p: Perm)
    requires t.PartialIsShallow() && MayAssign(t, a, u, p, false) && p != PartialSubmissions
    requires !Explicit(R, u, p, false) && Explicit(R, u, PartialSubmissions, true)
    requires forall x :: x in t.Cone(a.kind, p, false) ==> PartialSubmissions !in t.Contradicts(x)
    ensures var R2 := AssignedCone(t, a, R, u, p, false);
            && AssignOutcome(t, a, R, u, p, false, false, map[]) == Ok(Change(R2, true))
            && Explicit(R2, u, p, false) && !Explicit(R2, u, p, true) && Explicit(R2, u, PartialSubmissions, true)
  {
    var R2 := AssignedCone(t, a, R, u, p, false);
    assert !t.Implies(p, PartialSubmissions);
    assert PartialSubmissions !in t.Cone(a.kind, p, false);
    assert p in t.Cone(a.kind, p, false);
    assert Cleared(t, R, u, t.Cone(a.kind, p, false), false, Row(u, p, true, false));
  }

  /** After an inherited permission that the partial permission implies was removed and granted again, a save
      brings its inherited row back, but the denial of the partial permission stays; and now
      the permission cannot be removed: the call raises and changes nothing. */
  lemma SecondRemovalIsRefused(t: Tables, a: Asset, R: Rows, parentPerms: Perms, u: User, p: Perm)
    requires t.Wf() && InheritedFit(t, a, R) && R == Recalculated(t, a, R, parentPerms)
    requires Inherits(t, a, parentPerms, u, p) && Effective(t, R, u, p) && MayAssign(t, a, u, p, false)
    requires PartialSubmissions in t.Cone(a.kind, p, true) && !Explicit(R, u, PartialSubmissions, true)
    requires forall x :: x in t.Cone(a.kind, p, false) ==> PartialSubmissions !in t.Contradicts(x)
    ensures var R1 := RemovedAll(t, a, R, u, p);
            var R2 := AssignedCone(t, a, R1, u, p, false);
            var R3 := Recalculated(t, a, R2, parentPerms);
            && RemoveOutcome(t, a, R, u, p, false) == Ok(Change(R1, true))
            && AssignOutcome(t, a, R1, u, p, false, false, map[]) == Ok(Change(R2, true))
            && RemoveOutcome(t, a, R3, u, p, false) == Err(BadPartialPerms)
            && Effective(t, R3, u, p)
  {
    var R1 := RemovedAll(t, a, R, u, p);
    var R2 := AssignedCone(t, a, R1, u, p, false);
    var R3 := Recalculated(t, a, R2, parentPerms);
    assert p != PartialSubmissions && p in t.allAssignable && !Explicit(R, u, p, true) by {
      NoInheritedPartial(t, a, R, u);
    }
    RemovalDeniesPartial(t, a, R, u, p);
    GrantKeepsPartialDenied(t, a, R1, u, p);
    InheritedComesBack(t, a, R2, parentPerms, u, p);
  }

  lemma InheritedComesBack(t: Tables, a: Asset, R: Rows, parentPerms: Perms, u: User, p: Perm)
    requires Inherits(t, a, parentPerms, u, p) && MayAssign(t, a, u, p, false) && p in t.allAssignable
    requires !Explicit(R, u, p, true) && Explicit(R, u, PartialSubmissions, true) &&
             PartialSubmissions in t.Cone(a.kind, p, true)
    ensures var R3 := Recalculated(t, a, R, parentPerms);
            Effective(t, R3, u, p) && RemoveOutcome(t, a, R3, u, p, false) == Err(BadPartialPerms)
  {
    var R3 := Recalculated(t, a, R, parentPerms);
    assert Inherited(R3, u, p) && !Explicit(R3, u, p, true) && Explicit(R3, u, PartialSubmissions, true);
  }

  lemma NoInheritedPartial(t: Tables, a: Asset, R: Rows, u: User)
    requires t.Wf() && InheritedFit(t, a, R)
    ensures !Inherited(R, u, PartialSubmissions)
  {}

  lemma ViewAssetOfSurvey()
    ensures PartialSubmissions in ASSET_TABLES.Cone(Survey, ViewAsset, true)
    ensures forall x :: x in ASSET_TABLES.Cone(Survey, ViewAsset, false) ==>
                          PartialSubmissions !in ASSET_TABLES.Contradicts(x)
    ensures ViewAsset in ASSET_TABLES.Assignable(Survey) && ViewAsset in ASSET_TABLES.allowedAnonymous
  {
    AssetImplies(PartialSubmissions, ViewAsset);
    forall x | x in ASSET_TABLES.Cone(Survey, ViewAsset, false)
      ensures PartialSubmissions !in ASSET_TABLES.Contradicts(x)
    {
      AssetImplies(ViewAsset, x);
      AssetContradicts(x, PartialSubmissions);
    }
  }

  /** With the real tables this happens to `view_asset` on any project that inherits it. */
  lemma ViewAssetRemovalIsRefused(a: Asset, R: Rows, parentPerms: Perms, u: User)
    requires a.kind == Survey && InheritedFit(ASSET_TABLES, a, R)
    requires R == Recalculated(ASSET_TABLES, a, R, parentPerms)
    requires Inherits(ASSET_TABLES, a, parentPerms, u, ViewAsset) && Effective(ASSET_TABLES, R, u, ViewAsset)
    requires !Explicit(R, u, PartialSubmissions, true)
    ensures var t := ASSET_TABLES;
            var R1 := RemovedAll(t, a, R, u, ViewAsset);
            var R2 := AssignedCone(t, a, R1, u, ViewAsset, false);
            var R3 := Recalculated(t, a, R2, parentPerms);
            && RemoveOutcome(t, a, R, u, ViewAsset, false) == Ok(Change(R1, true))
            && AssignOutcome(t, a, R1, u, ViewAsset, false, false, map[]) == Ok(Change(R2, true))
            && RemoveOutcome(t, a, R3, u, ViewAsset, false) == Err(BadPartialPerms)
            && Effective(t, R3, u, ViewAsset)
  {
    AssetTablesAreWf();
    ViewAssetOfSurvey();
    SecondRemovalIsRefused(ASSET_TABLES, a, R, parentPerms, u, ViewAsset);
  }
}
