/** Saving an asset with another owner or type: when its explicit rows stay sound, when its effective
    permissions stay closed under implication, and two ordinary saves after which they are not. */
module PermissionSaves {
  import opened Wrappers
  import opened PermissionTables
  import opened PermissionRows
  import opened PermissionInvariants
  import opened PermissionInheritance

  // ---- The explicit rows ----

  /** No explicit grant implies what only the new type can be given. */
  ghost predicate NothingNewIsImplied(t: Tables, a: Asset, b: Asset, R: Rows) {
    forall u, p, q :: Explicit(R, u, p, false) && t.Implies(p, q) && q in t.Assignable(b.kind) ==>
                        q in t.Assignable(a.kind)
  }

  /** What u can inherit on b only and what implies a denied permission is denied. */
  ghost predicate NewlyInheritableIsDenied(t: Tables, a: Asset, b: Asset, R: Rows) {
    forall u, p, q :: Explicit(R, u, q, true) && t.Implies(p, q) && p in t.Assignable(b.kind) &&
                      Inheritable(t, b, u, p) ==>
                        Explicit(R, u, p, true) || (p in t.Assignable(a.kind) && Inheritable(t, a, u, p))
  }

  /** The explicit rows of a satisfy the row invariants for b exactly when the new
      type and the new owner fit them; the old inherited rows play no part. */
  lemma OwnRowsStaySoundIff(t: Tables, a: Asset, b: Asset, R: Rows)
    requires NodeOk(t, a, R)
    ensures NodeOk(t, b, OwnRows(R)) <==>
            PermsFit(t, b, R) && NothingNewIsImplied(t, a, b, R) && NewlyInheritableIsDenied(t, a, b, R)
  {
    var O := OwnRows(R);
    forall u, p, deny ensures Explicit(O, u, p, deny) <==> Explicit(R, u, p, deny) {
    }
    if NodeOk(t, b, O) {
      forall u, p, q | Explicit(R, u, p, false) && t.Implies(p, q) && q in t.Assignable(b.kind)
        ensures q in t.Assignable(a.kind)
      {
        assert Explicit(O, u, q, false);
        assert Row(u, q, false, false) in R;
      }
      forall u, p, q | Explicit(R, u, q, true) && t.Implies(p, q) && p in t.Assignable(b.kind) &&
                       Inheritable(t, b, u, p)
        ensures Explicit(R, u, p, true)
      {
        assert Explicit(O, u, q, true);
      }
    }
    if PermsFit(t, b, R) && NothingNewIsImplied(t, a, b, R) && NewlyInheritableIsDenied(t, a, b, R) {
      FittingOwnRows(t, a, b, R);
    }
  }

  lemma FittingOwnRows(t: Tables, a: Asset, b: Asset, R: Rows)
    requires NodeOk(t, a, R)
    requires PermsFit(t, b, R) && NothingNewIsImplied(t, a, b, R) && NewlyInheritableIsDenied(t, a, b, R)
    ensures NodeOk(t, b, OwnRows(R))
  {
    var O := OwnRows(R);
    forall u, p, deny ensures Explicit(O, u, p, deny) <==> Explicit(R, u, p, deny) {
    }
    forall u, p, q | Explicit(O, u, p, false) && t.Implies(p, q) && q in t.Assignable(b.kind)
      ensures Explicit(O, u, q, false)
    {
      assert Explicit(R, u, p, false);
    }
    forall u, p, q | Explicit(O, u, q, true) && t.Implies(p, q) && p in t.Assignable(b.kind) && Inheritable(t, b, u, p)
      ensures Explicit(O, u, p, true)
    {
      assert Explicit(R, u, q, true);
    }
  }

  /** In particular when the asset only moves, or is given to an owner without rows of its own. */
  lemma OwnRowsStaySound(t: Tables, a: Asset, b: Asset, R: Rows)
    requires t.Wf() && NodeOk(t, a, R) && t.Assignable(a.kind) == t.Assignable(b.kind)
    requires a.owner == b.owner || b.owner.None? || forall r :: r in R ==> r.user != b.owner.value
    ensures NodeOk(t, b, OwnRows(R))
  {
    forall u, p, q | Explicit(R, u, q, true) && t.Implies(p, q) && p in t.Assignable(b.kind) && Inheritable(t, b, u, p)
      ensures p in t.Assignable(a.kind) && Inheritable(t, a, u, p)
    {
      assert Row(u, q, true, false) in R;
    }
    FittingOwnRows(t, a, b, R);
  }

  // ---- Effective permissions after a save ----

  /** What an explicit grant implies on b beyond the old type is inherited. */
  ghost predicate GrantsReach(t: Tables, a: Asset, b: Asset, R: Rows, parentPerms: Perms) {
    forall u, p, q :: Explicit(R, u, p, false) && t.Implies(p, q) && q in t.Assignable(b.kind) ==>
                        q in t.Assignable(a.kind) || Inherits(t, b, parentPerms, u, q)
  }

  ghost predicate DenialReaches(t: Tables, b: Asset, R: Rows, parentPerms: Perms, u: User, p: Perm, q: Perm) {
    Inherits(t, b, parentPerms, u, p) && t.Implies(p, q) && q in t.Assignable(b.kind) && Explicit(R, u, q, true) ==>
      Explicit(R, u, p, true)
  }

  /** What is inherited on b and implies a denied permission is denied. */
  ghost predicate DenialsReach(t: Tables, b: Asset, R: Rows, parentPerms: Perms) {
    forall u, p, q :: DenialReaches(t, b, R, parentPerms, u, p, q)
  }

  lemma GrantIsEffective(t: Tables, a: Asset, b: Asset, R: Rows, parentPerms: Perms, u: User, p: Perm)
    requires NodeOk(t, a, R) && Explicit(R, u, p, false)
    ensures Effective(t, Recalculated(t, b, R, parentPerms), u, p)
  {
    var R' := Recalculated(t, b, R, parentPerms);
    assert Explicit(R', u, p, false) && !Explicit(R', u, p, true);
    assert Row(u, p, false, false) in R;
  }

  lemma InheritedIsEffectiveUnlessDenied(t: Tables, b: Asset, R: Rows, parentKind: AssetType, parentPerms: Perms,
                                         u: User, p: Perm)
    requires t.Wf() && PlacementOk(t, b) && (b.parent.Some? ==> ParentPermsOk(t, parentKind, parentPerms))
    requires Inherits(t, b, parentPerms, u, p)
    ensures Effective(t, Recalculated(t, b, R, parentPerms), u, p) <==> !Explicit(R, u, p, true)
  {
    var R' := Recalculated(t, b, R, parentPerms);
    InheritsFits(t, b, parentPerms, u, p);
    assert Inherited(R', u, p);
    assert Explicit(R', u, p, true) <==> Explicit(R, u, p, true);
  }

  /** After a save of b, which was a, effective permissions are closed under
      implication exactly when grants and denials reach far enough. */
  lemma SavedIsClosedIff(t: Tables, a: Asset, b: Asset, R: Rows, parentKind: AssetType, parentPerms: Perms)
    requires t.Wf() && NodeOk(t, a, R)
    requires PlacementOk(t, b) && (b.parent.Some? ==> ParentPermsOk(t, parentKind, parentPerms))
    ensures EffectiveClosed(t, b, Recalculated(t, b, R, parentPerms)) <==>
            GrantsReach(t, a, b, R, parentPerms) && DenialsReach(t, b, R, parentPerms)
  {
    var R' := Recalculated(t, b, R, parentPerms);
    if EffectiveClosed(t, b, R') {
      forall u, p, q | Explicit(R, u, p, false) && t.Implies(p, q) && q in t.Assignable(b.kind) &&
                       q !in t.Assignable(a.kind)
        ensures Inherits(t, b, parentPerms, u, q)
      {
        GrantIsEffective(t, a, b, R, parentPerms, u, p);
        assert Effective(t, R', u, q);
        assert !Explicit(R, u, q, false) && !Explicit(R', u, q, false);
        assert Inherited(R', u, q);
      }
      forall u, p, q | Inherits(t, b, parentPerms, u, p) && t.Implies(p, q) && q in t.Assignable(b.kind) &&
                       Explicit(R, u, q, true)
        ensures Explicit(R, u, p, true)
      {
        InheritedIsEffectiveUnlessDenied(t, b, R, parentKind, parentPerms, u, p);
        assert Explicit(R', u, q, true);
      }
    }
    if GrantsReach(t, a, b, R, parentPerms) && DenialsReach(t, b, R, parentPerms) {
      forall u, p, q | Effective(t, R', u, p) && t.Implies(p, q) && q in t.Assignable(b.kind)
        ensures Effective(t, R', u, q)
      {
        EffectiveReaches(t, a, b, R, parentKind, parentPerms, u, p, q);
      }
    }
  }

  lemma EffectiveReaches(t: Tables, a: Asset, b: Asset, R: Rows, parentKind: AssetType, parentPerms: Perms, u: User,
                         p: Perm, q: Perm)
    requires t.Wf() && NodeOk(t, a, R)
    requires PlacementOk(t, b) && (b.parent.Some? ==> ParentPermsOk(t, parentKind, parentPerms))
    requires GrantsReach(t, a, b, R, parentPerms) && DenialsReach(t, b, R, parentPerms)
    requires Effective(t, Recalculated(t, b, R, parentPerms), u, p) && t.Implies(p, q) && q in t.Assignable(b.kind)
    ensures Effective(t, Recalculated(t, b, R, parentPerms), u, q)
  {
    var R' := Recalculated(t, b, R, parentPerms);
    if Explicit(R', u, p, false) {
      assert Explicit(R, u, p, false);
      if q in t.Assignable(a.kind) {
        GrantIsEffective(t, a, b, R, parentPerms, u, q);
      } else {
        assert !Explicit(R, u, q, true);
        InheritedIsEffectiveUnlessDenied(t, b, R, parentKind, parentPerms, u, q);
      }
    } else {
      assert Inherited(R', u, p) && !Explicit(R', u, p, true);
      InheritsIsClosed(t, b, parentKind, parentPerms, u, p, q);
      assert DenialReaches(t, b, R, parentPerms, u, p, q);
      InheritedIsEffectiveUnlessDenied(t, b, R, parentKind, parentPerms, u, q);
    }
  }

  /** With a new owner: exactly when each permission an owner gets that implies one
      denied to the new owner is denied to it as well. */
  lemma NewOwnerIsClosedIff(t: Tables, a: Asset, R: Rows, parentKind: AssetType, parentPerms: Perms, u: User)
    requires t.Wf() && NodeOk(t, a, R)
    requires PlacementOk(t, a.(owner := Some(u))) && (a.parent.Some? ==> ParentPermsOk(t, parentKind, parentPerms))
    ensures var b := a.(owner := Some(u));
            EffectiveClosed(t, b, Recalculated(t, b, R, parentPerms)) <==>
            forall p, q :: p in t.OwnerPerms(a.kind) && t.Implies(p, q) && q in t.Assignable(a.kind) &&
                           Explicit(R, u, q, true) ==>
                             Explicit(R, u, p, true)
  {
    var b := a.(owner := Some(u));
    SavedIsClosedIff(t, a, b, R, parentKind, parentPerms);
    forall v, p, q | v != u && Inherits(t, b, parentPerms, v, p) && t.Implies(p, q) && q in t.Assignable(b.kind) &&
                     Explicit(R, v, q, true)
      ensures Explicit(R, v, p, true)
    {
      InheritsFits(t, b, parentPerms, v, p);
      assert p in t.HeritableRange() && Inheritable(t, a, v, p);
    }
    if DenialsReach(t, b, R, parentPerms) {
      forall p, q | p in t.OwnerPerms(a.kind) && t.Implies(p, q) && q in t.Assignable(a.kind) && Explicit(R, u, q, true)
        ensures Explicit(R, u, p, true)
      {
        assert Inherits(t, b, parentPerms, u, p);
        assert DenialReaches(t, b, R, parentPerms, u, p, q);
      }
    }
  }

  /** A user other than the owner was granted what implies a permission of the new type only. */
  ghost predicate GrantFallsShort(t: Tables, a: Asset, kind: AssetType, R: Rows, u: User, p: Perm, q: Perm) {
    && a.owner != Some(u) && Explicit(R, u, p, false)
    && t.Implies(p, q) && q in t.Assignable(kind) && q !in t.Assignable(a.kind)
  }

  /** The owner is denied what a permission of the new type only implies. */
  ghost predicate DenialFallsShort(t: Tables, a: Asset, kind: AssetType, R: Rows, u: User, p: Perm, q: Perm) {
    && a.owner == Some(u) && Explicit(R, u, q, true)
    && t.Implies(p, q) && q in t.Assignable(kind) && p in t.OwnerPerms(kind) && p !in t.Assignable(a.kind)
  }

  /** With a new type: exactly when no grant and no denial falls short of it. */
  lemma NewTypeIsClosedIff(t: Tables, a: Asset, kind: AssetType, R: Rows, parentKind: AssetType, parentPerms: Perms)
    requires t.Wf() && NodeOk(t, a, R) && PlacementOk(t, a)
    requires PlacementOk(t, a.(kind := kind)) && (a.parent.Some? ==> ParentPermsOk(t, parentKind, parentPerms))
    ensures var b := a.(kind := kind);
            EffectiveClosed(t, b, Recalculated(t, b, R, parentPerms)) <==>
            forall u, p, q :: !GrantFallsShort(t, a, kind, R, u, p, q) && !DenialFallsShort(t, a, kind, R, u, p, q)
  {
    var b := a.(kind := kind);
    SavedIsClosedIff(t, a, b, R, parentKind, parentPerms);
    if GrantsReach(t, a, b, R, parentPerms) && DenialsReach(t, b, R, parentPerms) {
      forall u, p, q ensures !GrantFallsShort(t, a, kind, R, u, p, q) && !DenialFallsShort(t, a, kind, R, u, p, q) {
        NoGrantFallsShort(t, a, kind, R, parentPerms, u, p, q);
        DeniedIsAssignable(t, a, R, u, p);
        assert DenialReaches(t, b, R, parentPerms, u, p, q);
        NoDenialFallsShort(t, a, kind, R, parentPerms, u, p, q);
      }
    }
    if forall u, p, q :: !GrantFallsShort(t, a, kind, R, u, p, q) && !DenialFallsShort(t, a, kind, R, u, p, q) {
      NothingFallsShort(t, a, kind, R, parentKind, parentPerms);
    }
  }

  lemma NoGrantFallsShort(t: Tables, a: Asset, kind: AssetType, R: Rows, parentPerms: Perms, u: User, p: Perm, q: Perm)
    requires PlacementOk(t, a) && GrantsReach(t, a, a.(kind := kind), R, parentPerms)
    ensures !GrantFallsShort(t, a, kind, R, u, p, q)
  {
    var b := a.(kind := kind);
    if Inherits(t, b, parentPerms, u, q) {
      InheritsIsInheritable(t, b, parentPerms, u, q);
    }
  }

  lemma DeniedIsAssignable(t: Tables, a: Asset, R: Rows, u: User, p: Perm)
    requires RowsFit(t, a, R)
    ensures Explicit(R, u, p, true) ==> p in t.Assignable(a.kind)
  {
    if Explicit(R, u, p, true) {
      assert Row(u, p, true, false) in R;
    }
  }

  lemma NoDenialFallsShort(t: Tables, a: Asset, kind: AssetType, R: Rows, parentPerms: Perms, u: User, p: Perm, q: Perm)
    requires DenialReaches(t, a.(kind := kind), R, parentPerms, u, p, q)
    requires Explicit(R, u, p, true) ==> p in t.Assignable(a.kind)
    ensures !DenialFallsShort(t, a, kind, R, u, p, q)
  {
    assert a.owner == Some(u) && p in t.OwnerPerms(kind) ==> Inherits(t, a.(kind := kind), parentPerms, u, p);
  }

  lemma NothingFallsShort(t: Tables, a: Asset, kind: AssetType, R: Rows, parentKind: AssetType, parentPerms: Perms)
    requires t.Wf() && NodeOk(t, a, R) && PlacementOk(t, a)
    requires PlacementOk(t, a.(kind := kind)) && (a.parent.Some? ==> ParentPermsOk(t, parentKind, parentPerms))
    requires forall u, p, q :: !GrantFallsShort(t, a, kind, R, u, p, q) && !DenialFallsShort(t, a, kind, R, u, p, q)
    ensures GrantsReach(t, a, a.(kind := kind), R, parentPerms)
    ensures DenialsReach(t, a.(kind := kind), R, parentPerms)
  {
    var b := a.(kind := kind);
    forall u, p, q | Explicit(R, u, p, false) && t.Implies(p, q) && q in t.Assignable(kind) &&
                     q !in t.Assignable(a.kind)
      ensures Inherits(t, b, parentPerms, u, q)
    {
      assert !GrantFallsShort(t, a, kind, R, u, p, q);
      assert q != PartialSubmissions;
    }
    forall u, p, q | Inherits(t, b, parentPerms, u, p) && t.Implies(p, q) && q in t.Assignable(kind) &&
                     Explicit(R, u, q, true)
      ensures Explicit(R, u, p, true)
    {
      InheritsFits(t, b, parentPerms, u, p);
      InheritsIsInheritable(t, b, parentPerms, u, p);
      assert !DenialFallsShort(t, a, kind, R, u, p, q);
      assert p in t.Assignable(a.kind) && Inheritable(t, a, u, p);
    }
  }

  // ---- Two saves of the real tables ----

  /** Deleting the rows of a new owner first is needed: a partial user who is denied adding submissions, once made
      the owner of the survey, may change submissions but not add them, which changing them implies. */
  lemma OwnRowsOfNewOwnerMatter(u: User, owner: Option<User>)
    requires u != ANONYMOUS_USER_ID && owner != Some(u)
    ensures var t, a := ASSET_TABLES, Asset(owner, Survey, None, false);
            var R := {Row(u, AddSubmissions, true, false), Row(u, PartialSubmissions, false, false),
                      Row(u, ViewAsset, false, false)};
            && NodeOk(t, a, R)
            && !EffectiveClosed(t, a.(owner := Some(u)), Recalculated(t, a.(owner := Some(u)), R, {}))
  {
    var t, a := ASSET_TABLES, Asset(owner, Survey, None, false);
    var R := {Row(u, AddSubmissions, true, false), Row(u, PartialSubmissions, false, false),
              Row(u, ViewAsset, false, false)};
    PartialUserIsOk(a, u, R);
    AssetTablesAreWf();
    AssetImplies(ChangeSubmissions, AddSubmissions);
    NewOwnerIsClosedIff(t, a, R, Collection, {}, u);
    assert ChangeSubmissions in t.OwnerPerms(a.kind) && AddSubmissions in t.Assignable(a.kind);
    assert Explicit(R, u, AddSubmissions, true) && !Explicit(R, u, ChangeSubmissions, true);
  }

  lemma PartialUserIsOk(a: Asset, u: User, R: Rows)
    requires a.kind == Survey && a.owner != Some(u) && u != ANONYMOUS_USER_ID
    requires R == {Row(u, AddSubmissions, true, false), Row(u, PartialSubmissions, false, false),
                   Row(u, ViewAsset, false, false)}
    ensures NodeOk(ASSET_TABLES, a, R)
  {
    var t := ASSET_TABLES;
    assert NoContradiction(t, R) by {
      forall x, c | x in {PartialSubmissions, ViewAsset} && c in {PartialSubmissions, ViewAsset}
        ensures c !in t.Contradicts(x)
      {
        AssetContradicts(x, c);
      }
    }
    forall v, p, q | Explicit(R, v, p, false) && t.Implies(p, q) ensures Explicit(R, v, q, false) {
      AssetImplies(p, q);
    }
    forall v, p | Explicit(R, v, AddSubmissions, true) && t.Implies(p, AddSubmissions)
      ensures !Inheritable(t, a, v, p)
    {
      AssetImplies(p, AddSubmissions);
      AssetHeritable();
    }
  }

  /** Whoever but the owner was granted manage_asset on an empty asset holds it without
      add_submissions, which it implies, once the asset is saved as a survey. */
  lemma EmptyAssetSavedAsSurvey(a: Asset, R: Rows, parentKind: AssetType, parentPerms: Perms, u: User)
    requires a.kind == Empty && NodeOk(ASSET_TABLES, a, R) && PlacementOk(ASSET_TABLES, a)
    requires a.parent.Some? ==> ParentPermsOk(ASSET_TABLES, parentKind, parentPerms)
    requires a.owner != Some(u) && Explicit(R, u, ManageAsset, false)
    ensures var b := a.(kind := Survey);
            !EffectiveClosed(ASSET_TABLES, b, Recalculated(ASSET_TABLES, b, R, parentPerms))
  {
    AssetTablesAreWf();
    AssetImplies(ManageAsset, AddSubmissions);
    AssetHeritable();
    NewTypeIsClosedIff(ASSET_TABLES, a, Survey, R, parentKind, parentPerms);
    assert GrantFallsShort(ASSET_TABLES, a, Survey, R, u, ManageAsset, AddSubmissions);
  }

  /** And one call of assign_perm on a new empty asset leads there. */
  lemma ManagerOfEmptyAsset(owner: User, u: User)
    requires u != owner && u != ANONYMOUS_USER_ID && owner != ANONYMOUS_USER_ID
    ensures var t, a := ASSET_TABLES, Asset(Some(owner), Empty, None, false);
            var outcome := AssignOutcome(t, a, Recalculated(t, a, {}, {}), u, ManageAsset, false, false, map[]);
            && outcome.Ok?
            && NodeOk(t, a, outcome.value.rows)
            && !EffectiveClosed(t, a.(kind := Survey), Recalculated(t, a.(kind := Survey), outcome.value.rows, {}))
  {
    var t, a := ASSET_TABLES, Asset(Some(owner), Empty, None, false);
    var R := Recalculated(t, a, {}, {});
    AssetTablesAreWf();
    assert NodeOk(t, a, R) by {
      assert OwnRows({}) == {};
      assert forall v, p, deny :: !Explicit({}, v, p, deny);
      RecalculatedIsNodeOk(t, a, {}, Collection, {});
    }
    assert MayAssign(t, a, u, ManageAsset, false) && !Explicit(R, u, ManageAsset, false);
    AssignOutcomeKeepsNodeOk(t, a, R, u, ManageAsset, false, map[]);
    AssignedTakesEffect(t, a, R, u, ManageAsset, false, ManageAsset);
    EmptyAssetSavedAsSurvey(a, AssignedCone(t, a, R, u, ManageAsset, false), Collection, {}, u);
  }

  /** A save with a new type can also make a later grant contradict an older one: a partial user of a survey that
      is saved as a template and then granted manage_asset holds both, as nothing that comes with
      manage_asset on a template contradicts the partial permission. */
  lemma PartialUserOfTemplate(owner: Option<User>, u: User)
    requires u != ANONYMOUS_USER_ID && owner != Some(u)
    ensures var t, a, b := ASSET_TABLES, Asset(owner, Survey, None, false), Asset(owner, Template, None, false);
            var R := {Row(u, PartialSubmissions, false, false), Row(u, ViewAsset, false, false)};
            var outcome := AssignOutcome(t, b, Recalculated(t, b, R, {}), u, ManageAsset, false, false, map[]);
            && NodeOk(t, a, R)
            && outcome.Ok?
            && Explicit(outcome.value.rows, u, PartialSubmissions, false)
            && Explicit(outcome.value.rows, u, ManageAsset, false)
            && ManageAsset in t.Contradicts(PartialSubmissions)
            && !GrantsAgree(t, outcome.value.rows)
  {
    var t, a, b := ASSET_TABLES, Asset(owner, Survey, None, false), Asset(owner, Template, None, false);
    var R := {Row(u, PartialSubmissions, false, false), Row(u, ViewAsset, false, false)};
    PartialViewerIsOk(a, u, R);
    var R1 := Recalculated(t, b, R, {});
    assert Explicit(R1, u, PartialSubmissions, false) <==> Explicit(R, u, PartialSubmissions, false);
    assert Explicit(R1, u, ManageAsset, false) <==> Explicit(R, u, ManageAsset, false);
    forall y | y in t.Cone(Template, ManageAsset, false) ensures PartialSubmissions !in t.Contradicts(y) {
      AssetContradicts(y, PartialSubmissions);
    }
    GrantedAfter(t, b, R1, u, ManageAsset, u, PartialSubmissions);
    GrantedAfter(t, b, R1, u, ManageAsset, u, ManageAsset);
    AssetContradicts(PartialSubmissions, ManageAsset);
  }

  lemma PartialViewerIsOk(a: Asset, u: User, R: Rows)
    requires a.kind == Survey && a.owner != Some(u) && u != ANONYMOUS_USER_ID
    requires R == {Row(u, PartialSubmissions, false, false), Row(u, ViewAsset, false, false)}
    ensures NodeOk(ASSET_TABLES, a, R)
  {
    var t := ASSET_TABLES;
    assert NoContradiction(t, R) by {
      forall x, c | x in {PartialSubmissions, ViewAsset} && c in {PartialSubmissions, ViewAsset}
        ensures c !in t.Contradicts(x)
      {
        AssetContradicts(x, c);
      }
    }
    forall v, p, q | Explicit(R, v, p, false) && t.Implies(p, q) ensures Explicit(R, v, q, false) {
      AssetImplies(p, q);
    }
  }
}
