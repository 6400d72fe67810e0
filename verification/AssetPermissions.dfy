/** What the tables of kpi.models.asset.Asset amount to, type by type: who can be given what, what an owner
    gets, what a child inherits, and where the recalculation of descendants goes. */
module AssetPermissions {
  import opened Wrappers
  import opened PermissionTables
  import opened PartialPermissions
  import opened PermissionRows
  import opened PermissionInvariants
  import opened PermissionInheritance
  import opened AssetForest
  import opened PermissionSteps

  /** The permissions of each type, the partial one aside. */
  predicate IsOfType(kind: AssetType, p: Perm) {
    match kind
    case Survey => p in {ViewAsset, ChangeAsset, ManageAsset, AddSubmissions, ViewSubmissions, ChangeSubmissions,
                         DeleteSubmissions, ValidateSubmissions}
    case Collection => p in {ViewAsset, ChangeAsset, ManageAsset, DiscoverAsset}
    case Text => false
    case _ => p in {ViewAsset, ChangeAsset, ManageAsset}
  }

  lemma AssetAssignable(kind: AssetType, p: Perm)
    requires p != PartialSubmissions
    ensures p in ASSET_TABLES.Assignable(kind) <==> IsOfType(kind, p)
  {}

  /** assign_perm lets a user be granted, or denied, p in a single row exactly when p is one of those of the type. */
  lemma UserCanBeGiven(a: Asset, R: Rows, u: User, p: Perm, deny: bool)
    requires u != ANONYMOUS_USER_ID && p != PartialSubmissions
    requires !deny || !Explicit(R, u, PartialSubmissions, true)
    ensures AssignOutcome(ASSET_TABLES, a, R, u, p, deny, false, map[]).Ok? <==> IsOfType(a.kind, p)
  {
    AssignSucceedsIff(ASSET_TABLES, a, R, u, p, deny, map[]);
    AssetAssignable(a.kind, p);
  }

  /** What the public can be granted. */
  lemma PublicCanBeGranted(a: Asset, R: Rows, p: Perm)
    requires p != PartialSubmissions
    ensures AssignOutcome(ASSET_TABLES, a, R, ANONYMOUS_USER_ID, p, false, false, map[]).Ok? <==>
            match a.kind
            case Survey => p in {ViewAsset, AddSubmissions, ViewSubmissions}
            case Collection => p in {ViewAsset, DiscoverAsset}
            case Text => false
            case _ => p == ViewAsset
  {
    AssignSucceedsIff(ASSET_TABLES, a, R, ANONYMOUS_USER_ID, p, false, map[]);
  }

  /** The partial permission: only on surveys that have an owner, never to the public or the owner, and with filters. */
  lemma PartialCanBeGranted(a: Asset, R: Rows, u: User, partialPerms: PartialPerms)
    ensures AssignOutcome(ASSET_TABLES, a, R, u, PartialSubmissions, false, false, partialPerms).Ok? <==>
            && a.kind == Survey && a.owner.Some? && u != ANONYMOUS_USER_ID && a.owner != Some(u)
            && partialPerms != map[]
  {
    AssignSucceedsIff(ASSET_TABLES, a, R, u, PartialSubmissions, false, partialPerms);
  }

  /** A new asset gives its owner these inherited rows. */
  lemma OwnerIsGiven(s: State, n: AssetId, a: Asset, s': State, u: User, p: Perm)
    requires WellPlaced(ASSET_TABLES, s.assets, s.table) && SaveStep(ASSET_TABLES, s, n, a, s')
    requires a.owner == Some(u)
    ensures n in s'.table
    ensures Row(u, p, false, true) in s'.table[n] <==> IsOfType(a.kind, p)
  {
    SavedRows(ASSET_TABLES, s, n, a, s', u, p);
    if p != PartialSubmissions {
      AssetAssignable(a.kind, p);
    }
  }

  /** Anybody else gets from the parent view_asset and change_asset, where effective there, and nothing else. */
  lemma ChildIsGiven(s: State, n: AssetId, a: Asset, s': State, u: User, p: Perm)
    requires WellPlaced(ASSET_TABLES, s.assets, s.table) && SaveStep(ASSET_TABLES, s, n, a, s')
    requires a.owner != Some(u)
    ensures n in s'.table
    ensures Row(u, p, false, true) in s'.table[n] <==>
            && (p == ViewAsset || p == ChangeAsset)
            && a.parent.Some? && a.parent.value in s.table && Effective(ASSET_TABLES, s.table[a.parent.value], u, p)
  {
    SavedRows(ASSET_TABLES, s, n, a, s', u, p);
    AssetHeritable();
  }

  /** What a grant brings along on a survey, and what a denial takes along: it is not so on other types. */
  lemma SurveyGrantBrings(p: Perm, q: Perm)
    ensures q in ASSET_TABLES.Cone(Survey, p, false) <==>
            q == p ||
            match p
            case ManageAsset => q in {ViewAsset, ChangeAsset, AddSubmissions, ViewSubmissions, ChangeSubmissions,
                                      DeleteSubmissions, ValidateSubmissions}
            case ChangeSubmissions => q in {ViewAsset, ViewSubmissions, AddSubmissions}
            case DeleteSubmissions => q in {ViewAsset, ViewSubmissions}
            case ValidateSubmissions => q in {ViewAsset, ViewSubmissions}
            case ChangeAsset => q == ViewAsset
            case DiscoverAsset => q == ViewAsset
            case ViewSubmissions => q == ViewAsset
            case PartialSubmissions => q == ViewAsset
            case _ => false
  {
    AssetImplies(p, q);
  }

  lemma SurveyDenialTakes(p: Perm, q: Perm)
    ensures q in ASSET_TABLES.Cone(Survey, p, true) <==>
            q == p ||
            match q
            case ManageAsset => p in {ViewAsset, ChangeAsset, DiscoverAsset, AddSubmissions, ViewSubmissions,
                                      ChangeSubmissions, DeleteSubmissions, ValidateSubmissions}
            case ChangeSubmissions => p in {ViewAsset, ViewSubmissions, AddSubmissions}
            case DeleteSubmissions => p in {ViewAsset, ViewSubmissions}
            case ValidateSubmissions => p in {ViewAsset, ViewSubmissions}
            case ChangeAsset => p == ViewAsset
            case ViewSubmissions => p == ViewAsset
            case PartialSubmissions => p == ViewAsset
            case _ => false
  {
    AssetImplies(q, p);
  }

  lemma ContradictedIsCleared(t: Tables, a: Asset, R: Rows, u: User, p: Perm, partialPerms: PartialPerms, r: Row)
    requires t.Wf() && r.user == u && r.perm in t.Contradicts(p) && !t.ComesWith(AddSubmissions, r.perm)
    requires AssignOutcome(t, a, R, u, p, false, false, partialPerms).Ok? && !Explicit(R, u, p, false)
    ensures r !in AssignOutcome(t, a, R, u, p, false, false, partialPerms).value.rows
  {
    AssignInTwo(t, a, R, u, p, false, partialPerms);
    GrantConeIsConflictFree(t, a.kind, p);
    assert p in t.Cone(a.kind, p, false);
  }

  /** A new grant drops every row of the user, of whatever kind, for what it contradicts. */
  lemma GrantDrops(a: Asset, R: Rows, u: User, p: Perm, partialPerms: PartialPerms, r: Row)
    requires AssignOutcome(ASSET_TABLES, a, R, u, p, false, false, partialPerms).Ok? && !Explicit(R, u, p, false)
    requires r.user == u
    requires if p == PartialSubmissions
             then r.perm in {ViewSubmissions, ChangeSubmissions, DeleteSubmissions, ValidateSubmissions, ManageAsset}
             else r.perm == PartialSubmissions &&
                  p in {ViewSubmissions, ChangeSubmissions, DeleteSubmissions, ValidateSubmissions}
    ensures r !in AssignOutcome(ASSET_TABLES, a, R, u, p, false, false, partialPerms).value.rows
  {
    AssetTablesAreWf();
    AssetContradicts(p, r.perm);
    AssetImplies(AddSubmissions, r.perm);
    ContradictedIsCleared(ASSET_TABLES, a, R, u, p, partialPerms, r);
  }

  /** Whose filters go where on a survey. */
  lemma SurveyPassesOn(q: Perm, p: Perm)
    ensures (q, p) in PassesOn(ASSET_TABLES, Survey) <==>
            match q
            case ManageAsset => p in {AddSubmissions, ViewSubmissions, ChangeSubmissions, DeleteSubmissions,
                                      ValidateSubmissions}
            case ChangeSubmissions => p == ViewSubmissions || p == AddSubmissions
            case DeleteSubmissions => p == ViewSubmissions
            case ValidateSubmissions => p == ViewSubmissions
            case _ => false
  {
    AssetImplies(q, p);
  }

  /** remove_perm refuses what nobody can be given, and what is inherited though the type cannot be given it. */
  lemma CanBeTaken(a: Asset, R: Rows, u: User, p: Perm)
    requires p != PartialSubmissions && !Explicit(R, u, PartialSubmissions, true)
    ensures RemoveOutcome(ASSET_TABLES, a, R, u, p, false).Ok? <==>
            p != DeleteAsset && (Row(u, p, false, true) in R ==> IsOfType(a.kind, p))
  {
    AssetAssignable(a.kind, p);
  }

  /** The recalculation of descendants goes from a collection to each child that is not in the trash,
      and from no other type of asset to any. */
  lemma WalkVisits(assets: Assets, m: AssetId, n: AssetId)
    ensures IsVisited(ASSET_TABLES, assets, m, n) <==>
            && m in assets && n in assets && assets[m].parent == Some(n)
            && assets[n].kind == Collection && !assets[m].pendingDelete
  {}
}
