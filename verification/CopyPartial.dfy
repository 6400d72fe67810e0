/** Copying the rows of a user with row-level permissions: the filters stored for that user go with them. */
module CopyPartial {
  import opened Wrappers
  import opened Sequences
  import opened PermissionTables
  import opened PartialPermissions
  import opened PermissionRows
  import opened PermissionInvariants
  import opened CopyPermissions
  import opened CopyWrites
  import opened CopyOrder
  import opened AssetPermissions

  /** The filters of some permission of the dictionary go to adding submissions as well, or there are some for it. */
  ghost predicate ReachesAdding(t: Tables, kind: AssetType, partialPerms: PartialPerms) {
    || AddSubmissions in partialPerms
    || (AddSubmissions in t.Assignable(kind) &&
        exists q :: q in partialPerms && partialPerms[q] != [] && t.Implies(q, AddSubmissions))
  }

  lemma ReachesAddingIff(t: Tables, kind: AssetType, partialPerms: PartialPerms)
    ensures StoredUnder(t, kind, partialPerms, AddSubmissions) <==> ReachesAdding(t, kind, partialPerms)
  {
    if q :| q in partialPerms && partialPerms[q] != [] && t.Implies(q, AddSubmissions) &&
            AddSubmissions in t.Assignable(kind) {
      var f := partialPerms[q][0];
      assert Listed(partialPerms, q, f) && (q, AddSubmissions) in PassesOn(t, kind);
      assert Intended(PassesOn(t, kind), partialPerms, AddSubmissions, f);
    }
    if StoredUnder(t, kind, partialPerms, AddSubmissions) && AddSubmissions !in partialPerms {
      var f :| Intended(PassesOn(t, kind), partialPerms, AddSubmissions, f);
      var q :| Listed(partialPerms, q, f) && (q, AddSubmissions) in PassesOn(t, kind);
    }
  }

  /** A partial grant of u for whom filters are stored does not raise on a target that can be given it and what the
      filters bring along; it leaves u with the partial permission, and, unless u could add submissions
      before, with that exactly when the filters reach it. */
  lemma PartialRowIsCopied(t: Tables, a: Asset, c: Change, u: User, inherited: bool, filters: StoredFilters)
    requires t.Wf() && t.AddingLeavesPartial() && a.owner.Some? && a.owner != Some(u)
    requires u in filters && filters[u] != map[]
    requires PartialSubmissions in t.Assignable(a.kind)
    requires u == ANONYMOUS_USER_ID ==> PartialSubmissions in t.allowedAnonymous
    requires ReachesAdding(t, a.kind, filters[u]) ==>
               AddSubmissions in t.Assignable(a.kind) &&
               (u == ANONYMOUS_USER_ID ==> AddSubmissions in t.allowedAnonymous)
    ensures var outcome := CopyNext(t, a, c, Row(u, PartialSubmissions, false, inherited), filters);
            && outcome.Ok?
            && Row(u, PartialSubmissions, false, false) in outcome.value.rows
            && (ReachesAdding(t, a.kind, filters[u]) ==> Row(u, AddSubmissions, false, false) in outcome.value.rows)
            && (!ReachesAdding(t, a.kind, filters[u]) && Row(u, AddSubmissions, false, false) !in c.rows
                && !t.Implies(PartialSubmissions, AddSubmissions) ==>
                  Row(u, AddSubmissions, false, false) !in outcome.value.rows)
  {
    var r := Row(u, PartialSubmissions, false, inherited);
    assert FiltersFor(filters, r) == filters[u];
    ReachesAddingIff(t, a.kind, filters[u]);
    AssignSucceedsIff(t, a, c.rows, u, PartialSubmissions, false, filters[u]);
    AssignInTwo(t, a, c.rows, u, PartialSubmissions, false, filters[u]);
    var R1 := WithRow(t, a, c.rows, u, PartialSubmissions, false);
    assert Explicit(R1, u, PartialSubmissions, false);
    if BringsAdding(t, a.kind, PartialSubmissions, filters[u]) {
      AddingKeepsRow(t, a, R1, u, PartialSubmissions, false);
      assert Explicit(WithRow(t, a, R1, u, AddSubmissions, false), u, AddSubmissions, false);
    }
  }

  /** On a survey: a user who may view the asset and has the partial permission ends with exactly these two, whatever
      the order, and with adding submissions exactly when filters for it, or for changing submissions
      or managing the asset, are stored. */
  lemma PartialUserIsCopied(a: Asset, R: Rows, list: seq<Row>, filters: StoredFilters, u: User, p: Perm)
    requires a.kind == Survey && a.owner.Some? && a.owner != Some(u) && u != ANONYMOUS_USER_ID && OnlyOwners(a, R)
    requires u in filters && filters[u] != map[]
    requires Listing(list, {Row(u, ViewAsset, false, false), Row(u, PartialSubmissions, false, false)})
    ensures var outcome, m := CopyOutcome(ASSET_TABLES, a, R, list, filters), filters[u];
            && outcome.Ok?
            && (Row(u, p, false, false) in outcome.value.rows <==>
                || p == ViewAsset || p == PartialSubmissions
                || (p == AddSubmissions &&
                    (|| AddSubmissions in m
                     || (ChangeSubmissions in m && m[ChangeSubmissions] != [])
                     || (ManageAsset in m && m[ManageAsset] != []))))
  {
    var r1, r2 := Row(u, ViewAsset, false, false), Row(u, PartialSubmissions, false, false);
    assert FiltersFor(filters, r2) == filters[u];
    TwoRowsRaiseNothing(a, R, {r1, r2}, list, filters, r1, r2);
    GrantsOnly(a, {r1, r2}, filters, u, r1, r2);
    CopyFollowsSource(ASSET_TABLES, a, R, {r1, r2}, list, filters, u, p);
    MarkedOnSurvey(a, {r1, r2}, filters, u, r1, r2, p);
    SurveyFiltersReachAdding(filters[u]);
    ReachesAddingIff(ASSET_TABLES, Survey, filters[u]);
  }

  lemma TwoRowsRaiseNothing(a: Asset, R: Rows, source: Rows, list: seq<Row>, filters: StoredFilters, r1: Row, r2: Row)
    requires a.kind == Survey && a.owner.Some? && r1.user != ANONYMOUS_USER_ID && OnlyOwners(a, R)
    requires r1.perm == ViewAsset && !r1.deny && r2 == r1.(perm := PartialSubmissions)
    requires source == {r1, r2} && Listing(list, source) && FiltersFor(filters, r2) != map[]
    ensures CopyOutcome(ASSET_TABLES, a, R, list, filters).Ok?
  {
    AssetTablesAreWf();
    assert CanBeCopied(ASSET_TABLES, a, filters, r1) && CanBeCopied(ASSET_TABLES, a, filters, r2);
    forall r | r in source ensures !r.deny && CanBeCopied(ASSET_TABLES, a, filters, r) {
      assert r == r1 || r == r2;
    }
    OneDenialRaisesNothing(ASSET_TABLES, a, R, source, list, filters);
  }

  lemma SurveyFiltersReachAdding(m: PartialPerms)
    ensures ReachesAdding(ASSET_TABLES, Survey, m) <==>
            || AddSubmissions in m
            || (ChangeSubmissions in m && m[ChangeSubmissions] != [])
            || (ManageAsset in m && m[ManageAsset] != [])
  {
    forall q ensures ASSET_TABLES.Implies(q, AddSubmissions) <==> q == ChangeSubmissions || q == ManageAsset {
      AssetImplies(q, AddSubmissions);
    }
  }

  /** What the two rows grant. */
  lemma MarkedOfPartialUser(t: Tables, a: Asset, source: Rows, filters: StoredFilters, u: User, r1: Row, r2: Row,
                            p: Perm)
    requires r1 == Row(u, ViewAsset, false, false) && r2 == Row(u, PartialSubmissions, false, false)
    requires source == {r1, r2}
    ensures !Marked(t, a.kind, source, filters, u, p, true)
    ensures Marked(t, a.kind, source, filters, u, p, false) <==>
            || p in t.Cone(a.kind, ViewAsset, false) || p in t.Cone(a.kind, PartialSubmissions, false)
            || (StoredUnder(t, a.kind, FiltersFor(filters, r2), AddSubmissions) &&
                p in t.Cone(a.kind, AddSubmissions, false))
  {
    WritesOfGrant(t, a.kind, filters, r1, p);
    WritesOfGrant(t, a.kind, filters, r2, p);
    assert forall r :: r in source <==> r == r1 || r == r2;
  }

  lemma WritesOfGrant(t: Tables, kind: AssetType, filters: StoredFilters, r: Row, p: Perm)
    requires !r.deny
    ensures (p, true) !in Writes(t, kind, filters, r)
    ensures (p, false) in Writes(t, kind, filters, r) <==>
            || p in t.Cone(kind, r.perm, false)
            || (BringsAdding(t, kind, r.perm, FiltersFor(filters, r)) && p in t.Cone(kind, AddSubmissions, false))
  {}

  lemma MarkedOnSurvey(a: Asset, source: Rows, filters: StoredFilters, u: User, r1: Row, r2: Row, p: Perm)
    requires a.kind == Survey
    requires r1 == Row(u, ViewAsset, false, false) && r2 == Row(u, PartialSubmissions, false, false)
    requires source == {r1, r2}
    ensures !Marked(ASSET_TABLES, a.kind, source, filters, u, p, true)
    ensures Marked(ASSET_TABLES, a.kind, source, filters, u, p, false) <==>
            || p == ViewAsset || p == PartialSubmissions
            || (p == AddSubmissions && StoredUnder(ASSET_TABLES, a.kind, FiltersFor(filters, r2), AddSubmissions))
  {
    MarkedOfPartialUser(ASSET_TABLES, a, source, filters, u, r1, r2, p);
    SurveyGrantBrings(ViewAsset, p);
    SurveyGrantBrings(PartialSubmissions, p);
    SurveyGrantBrings(AddSubmissions, p);
  }

  lemma GrantsOnly(a: Asset, source: Rows, filters: StoredFilters, u: User, r1: Row, r2: Row)
    requires a.kind == Survey
    requires r1 == Row(u, ViewAsset, false, false) && r2 == Row(u, PartialSubmissions, false, false)
    requires source == {r1, r2}
    ensures !Clash(ASSET_TABLES, a.kind, source, filters, u) && !Contradiction(ASSET_TABLES, a.kind, source, filters, u)
  {
    forall p ensures !Marked(ASSET_TABLES, a.kind, source, filters, u, p, true)
             ensures Marked(ASSET_TABLES, a.kind, source, filters, u, p, false) ==>
                       p in {ViewAsset, PartialSubmissions, AddSubmissions}
    {
      MarkedOnSurvey(a, source, filters, u, r1, r2, p);
    }
    forall x, y | x in {ViewAsset, PartialSubmissions, AddSubmissions} && y in ASSET_TABLES.Contradicts(x)
      ensures y !in {ViewAsset, PartialSubmissions, AddSubmissions}
    {
      AssetContradicts(x, y);
    }
  }
}
