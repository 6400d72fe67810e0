/** One step on a forest of assets, once more: when it keeps the stored effective permissions in agreement
    with a recalculation, whatever the explicit rows are. */
module PermissionAgreement {
  import opened Wrappers
  import opened PermissionTables
  import opened PartialPermissions
  import opened PermissionRows
  import opened PermissionInvariants
  import opened PermissionInheritance
  import opened AssetForest
  import opened PermissionSteps
  import opened PermissionConsistency
  import opened PermissionShifts

  // ---- save ----

  /** The table before the save, with an entry for a new asset. */
  function BeforeSave(s: State, n: AssetId): Table {
    s.table[n := RowsAt(s.table, n)]
  }

  /** The save changes nothing that an asset the walk passes by takes from its parent. */
  ghost predicate SaveLasts(t: Tables, s: State, n: AssetId, a: Asset) {
    NoneStranded(t, s.assets[n := a], BeforeSave(s, n), n, Saved(t, s, n, a)[n])
  }

  lemma OtherParentIsSame(t: Tables, s: State, n: AssetId, a: Asset, m: AssetId)
    requires WellPlaced(t, s.assets, s.table) && m in s.assets && m != n
    ensures ParentPerms(t, s.assets[n := a], BeforeSave(s, n), m) == ParentPerms(t, s.assets, s.table, m)
  {
    var depth :| Ranked(s.assets, depth);
    if s.assets[m].parent.Some? {
      assert IsChild(s.assets, m, s.assets[m].parent.value);
    }
  }

  lemma OthersSettledBefore(t: Tables, s: State, n: AssetId, a: Asset)
    requires WellPlaced(t, s.assets, s.table) && AllSettled(t, s.assets, s.table)
    ensures OthersSettled(t, s.assets[n := a], BeforeSave(s, n), n)
  {
    forall m | m in s.assets && m != n ensures SettledAt(t, s.assets[n := a], BeforeSave(s, n), m) {
      OtherParentIsSame(t, s, n, a, m);
      assert SettledAt(t, s.assets, s.table, m);
    }
  }

  /** Nothing above n, and nothing beside it, is recalculated with it. */
  lemma ParentStays(t: Tables, assets: Assets, before: Table, after: Table, n: AssetId, N: Rows)
    requires IsForest(assets) && n in assets && before.Keys == assets.Keys
    requires RecalculatedBelow(t, assets, before[n := N], after, n)
    ensures after[n] == N && ParentPerms(t, assets, after, n) == ParentPerms(t, assets, before, n)
  {
    NotBelowItself(t, assets, n);
    if assets[n].parent.Some? {
      var depth :| Ranked(assets, depth);
      var parent := assets[n].parent.value;
      assert IsChild(assets, n, parent);
      if StrictlyBelow(t, assets, parent, n) {
        StrictlyBelowIsDeeper(t, assets, depth, parent, n);
      }
    }
  }

  /** Any save settles the saved asset and whatever the walk comes to, in whatever state these were. */
  lemma SaveSettles(t: Tables, s: State, n: AssetId, a: Asset, s': State, m: AssetId)
    requires WellPlaced(t, s.assets, s.table) && SaveStep(t, s, n, a, s') && Below(t, s'.assets, m, n)
    ensures SettledAt(t, s'.assets, s'.table, m)
  {
    var N := Saved(t, s, n, a)[n];
    BelowUnfolds(t, s'.assets, m, n);
    if m == n {
      assert BeforeSave(s, n)[n := N] == Saved(t, s, n, a);
      ParentStays(t, s'.assets, BeforeSave(s, n), s'.table, n, N);
      SavedParentIsSame(t, s, n, a);
      RecalculatedIsSettled(t, a, RowsAt(s.table, n), ParentPerms(t, s'.assets, s.table, n));
    } else {
      RecalculatedBelowSettles(t, s'.assets, Saved(t, s, n, a), s'.table, n, m);
    }
  }

  lemma SavedParentIsSame(t: Tables, s: State, n: AssetId, a: Asset)
    requires IsForest(s.assets[n := a])
    ensures ParentPerms(t, s.assets[n := a], BeforeSave(s, n), n) == ParentPerms(t, s.assets[n := a], s.table, n)
  {
    var depth :| Ranked(s.assets[n := a], depth);
    if a.parent.Some? {
      assert IsChild(s.assets[n := a], n, a.parent.value);
    }
  }

  /** A save keeps the agreement of the whole forest with a recalculation exactly when it strands nothing. */
  lemma SaveSettlesIff(t: Tables, s: State, n: AssetId, a: Asset, s': State)
    requires WellPlaced(t, s.assets, s.table) && SaveStep(t, s, n, a, s') && AllSettled(t, s.assets, s.table)
    ensures AllSettled(t, s'.assets, s'.table) <==> SaveLasts(t, s, n, a)
  {
    var before, N := BeforeSave(s, n), Saved(t, s, n, a)[n];
    assert before[n := N] == Saved(t, s, n, a);
    OthersSettledBefore(t, s, n, a);
    WalkSettlesIff(t, s'.assets, before, s'.table, n, N);
    BelowUnfolds(t, s'.assets, n, n);
    SaveSettles(t, s, n, a, s', n);
  }

  // ---- assign_perm and remove_perm ----

  /** When the rows of n change and its descendants are recalculated, the forest stays settled
      exactly if n itself does and nothing is stranded. */
  lemma ChangeSettlesIff(t: Tables, s: State, n: AssetId, R: Rows, s': State)
    requires WellPlaced(t, s.assets, s.table) && n in s.assets && AllSettled(t, s.assets, s.table)
    requires s'.assets == s.assets && RecalculatedBelow(t, s.assets, s.table[n := R], s'.table, n)
    ensures AllSettled(t, s'.assets, s'.table) <==>
            && Settled(t, s.assets[n], R, ParentPerms(t, s.assets, s.table, n))
            && NoneStranded(t, s.assets, s.table, n, R)
  {
    WalkSettlesIff(t, s.assets, s.table, s'.table, n, R);
    ParentStays(t, s.assets, s.table, s'.table, n, R);
  }

  /** Where assign_perm changes rows and skips the walk, the asset can be given the partial
      permission, and its type is one of those from which no walk starts. */
  lemma EarlyReturnWalksNowhere(t: Tables, assets: Assets, n: AssetId, R: Rows, u: User, p: Perm, deny: bool,
                                partialPerms: PartialPerms, m: AssetId)
    requires t.AssignableOk() && n in assets
    requires AssignOutcome(t, assets[n], R, u, p, deny, false, partialPerms).Ok?
    requires !AssignOutcome(t, assets[n], R, u, p, deny, false, partialPerms).value.recalculates
    requires AssignOutcome(t, assets[n], R, u, p, deny, false, partialPerms).value.rows != R
    ensures !StrictlyBelow(t, assets, m, n)
  {
    AssignInTwo(t, assets[n], R, u, p, deny, partialPerms);
    assert Explicit(R, u, p, deny) && p == PartialSubmissions;
    if StrictlyBelow(t, assets, m, n) {
      var k: nat :| Climbs(t, assets, assets[m].parent.value, n, k);
      assert Climbs(t, assets, m, n, k + 1);
      TopIsVisited(t, assets, m, n, k + 1);
    }
  }

  lemma {:induction false} TopIsVisited(t: Tables, assets: Assets, m: AssetId, n: AssetId, k: nat)
    requires k > 0 && Climbs(t, assets, m, n, k)
    ensures n in assets && assets[n].kind in t.withChildren
    decreases k
  {
    if k > 1 {
      TopIsVisited(t, assets, assets[m].parent.value, n, k - 1);
    }
  }

  /** So the table is as if the walk had been made, or as it was. */
  lemma ChangedIsRecalculated(t: Tables, assets: Assets, before: Table, after: Table, n: AssetId, u: User, p: Perm,
                              deny: bool, partialPerms: PartialPerms)
    requires t.AssignableOk() && n in assets && before.Keys == assets.Keys
    requires AssignOutcome(t, assets[n], before[n], u, p, deny, false, partialPerms).Ok?
    requires Changed(t, assets, before, after, n,
                     AssignOutcome(t, assets[n], before[n], u, p, deny, false, partialPerms))
    ensures var R := AssignOutcome(t, assets[n], before[n], u, p, deny, false, partialPerms).value.rows;
            RecalculatedBelow(t, assets, before[n := R], after, n) || (after == before && R == before[n])
  {
    var c := AssignOutcome(t, assets[n], before[n], u, p, deny, false, partialPerms).value;
    if !c.recalculates && c.rows != before[n] {
      forall m | m in assets ensures !StrictlyBelow(t, assets, m, n) {
        EarlyReturnWalksNowhere(t, assets, n, before[n], u, p, deny, partialPerms, m);
      }
    }
  }

  /** The call raises, or changes nothing that an asset the walk passes by takes from its parent. */
  ghost predicate AssignLasts(t: Tables, s: State, n: AssetId, u: User, p: Perm, deny: bool, partialPerms: PartialPerms)
    requires n in s.assets && n in s.table
  {
    var outcome := AssignOutcome(t, s.assets[n], s.table[n], u, p, deny, false, partialPerms);
    outcome.Ok? ==> NoneStranded(t, s.assets, s.table, n, outcome.value.rows)
  }

  /** assign_perm keeps the agreement of the whole forest with a recalculation exactly when it strands nothing. */
  lemma AssignSettlesIff(t: Tables, s: State, n: AssetId, u: User, p: Perm, deny: bool, partialPerms: PartialPerms,
                         s': State)
    requires Consistent(t, s, false) && AssignStep(t, s, n, u, p, deny, partialPerms, s')
    requires AllSettled(t, s.assets, s.table)
    ensures AllSettled(t, s'.assets, s'.table) <==> AssignLasts(t, s, n, u, p, deny, partialPerms)
  {
    var a, R := s.assets[n], s.table[n];
    var outcome := AssignOutcome(t, a, R, u, p, deny, false, partialPerms);
    if outcome.Ok? {
      assert SettledAt(t, s.assets, s.table, n);
      AssignOutcomeKeepsSettled(t, a, R, u, p, deny, partialPerms, ParentPerms(t, s.assets, s.table, n));
      ChangedIsRecalculated(t, s.assets, s.table, s'.table, n, u, p, deny, partialPerms);
      if RecalculatedBelow(t, s.assets, s.table[n := outcome.value.rows], s'.table, n) {
        ChangeSettlesIff(t, s, n, outcome.value.rows, s');
      } else {
        NothingMoves(t, s.assets, s.table, n, R);
      }
    }
  }

  /** The removal raises, or its result outlives the next recalculation and it strands nothing. */
  ghost predicate RemovalLasts(t: Tables, s: State, n: AssetId, u: User, p: Perm)
    requires n in s.assets && n in s.table
  {
    RemoveOutcome(t, s.assets[n], s.table[n], u, p, false).Ok? ==>
      && RemovalHolds(t, s.assets[n], s.table[n], ParentPerms(t, s.assets, s.table, n), u, p)
      && NoneStranded(t, s.assets, s.table, n, RemovedAll(t, s.assets[n], s.table[n], u, p))
  }

  /** remove_perm keeps the agreement of the whole forest with a recalculation exactly when its result lasts. */
  lemma RemoveSettlesIff(t: Tables, s: State, n: AssetId, u: User, p: Perm, s': State)
    requires WellPlaced(t, s.assets, s.table) && RemoveStep(t, s, n, u, p, s') && AllSettled(t, s.assets, s.table)
    ensures AllSettled(t, s'.assets, s'.table) <==> RemovalLasts(t, s, n, u, p)
  {
    var a, R := s.assets[n], s.table[n];
    if RemoveOutcome(t, a, R, u, p, false).Ok? {
      assert SettledAt(t, s.assets, s.table, n) && OwnerOk(a);
      ChangeSettlesIff(t, s, n, RemovedAll(t, a, R, u, p), s');
      RemovedIsSettledIff(t, a, R, ParentPerms(t, s.assets, s.table, n), u, p);
    }
  }

  // ---- Transfer of ownership ----

  /** The rows of n when it is saved in the middle of a transfer. */
  ghost function HandedOverRows(t: Tables, s: State, n: AssetId, u: User): Rows
    requires n in s.assets && n in s.table
  {
    Saved(t, ReadyToHandOver(s, n, u), n, s.assets[n].(owner := Some(u)))[n]
  }

  /** The transfer raises, or as a whole it strands nothing: what it takes in the save it may give back at the end. */
  ghost predicate HandOverLasts(t: Tables, s: State, n: AssetId, u: User, sender: User)
    requires n in s.assets && n in s.table
  {
    var a := s.assets[n].(owner := Some(u));
    var outcome := AssignOutcome(t, a, HandedOverRows(t, s, n, u), sender, ManageAsset, false, false, map[]);
    outcome.Ok? ==> NoneStranded(t, s.assets[n := a], s.table, n, outcome.value.rows)
  }

  /** A transfer keeps the agreement of the whole forest with a recalculation exactly when it strands nothing. */
  lemma HandOverSettlesIff(t: Tables, s: State, n: AssetId, u: User, sender: User, s': State)
    requires Consistent(t, s, false) && HandOverStep(t, s, n, u, sender, s') && AllSettled(t, s.assets, s.table)
    ensures AllSettled(t, s'.assets, s'.table) <==> HandOverLasts(t, s, n, u, sender)
  {
    var mid :| HandOverVia(t, s, n, u, sender, mid, s');
    var a, N := s.assets[n].(owner := Some(u)), HandedOverRows(t, s, n, u);
    SavedInTransfer(t, s, n, u, mid);
    var outcome := AssignOutcome(t, a, N, sender, ManageAsset, false, false, map[]);
    if outcome.Ok? {
      GrantAfterTransfer(t, s, n, u, sender, mid, s');
      OthersSettledBefore(t, s, n, a);
      assert BeforeSave(s, n) == s.table;
      WalkSettlesIff(t, mid.assets, s.table, s'.table, n, outcome.value.rows);
      ParentStays(t, mid.assets, s.table, s'.table, n, outcome.value.rows);
    }
  }

  /** The save in the middle of a transfer. */
  lemma SavedInTransfer(t: Tables, s: State, n: AssetId, u: User, mid: State)
    requires Consistent(t, s, false) && n in s.assets && n in s.table
    requires SaveStep(t, ReadyToHandOver(s, n, u), n, s.assets[n].(owner := Some(u)), mid)
    ensures mid.assets == s.assets[n := s.assets[n].(owner := Some(u))]
    ensures RecalculatedBelow(t, mid.assets, s.table[n := HandedOverRows(t, s, n, u)], mid.table, n)
    ensures Consistent(t, mid, false) && mid.table[n] == HandedOverRows(t, s, n, u)
    ensures Settled(t, mid.assets[n], mid.table[n], ParentPerms(t, mid.assets, s.table, n))
  {
    var s1, a := ReadyToHandOver(s, n, u), s.assets[n].(owner := Some(u));
    assert Saved(t, s1, n, a) == s.table[n := HandedOverRows(t, s, n, u)];
    ReadyIsConsistent(t, s, n, u, false);
    SaveIsConsistent(t, s1, n, a, mid, false);
    ParentStays(t, mid.assets, s.table, mid.table, n, HandedOverRows(t, s, n, u));
    NotOwnParent(mid.assets, n);
    assert ParentPerms(t, mid.assets, s1.table, n) == ParentPerms(t, mid.assets, s.table, n);
    RecalculatedIsSettled(t, a, s1.table[n], ParentPerms(t, mid.assets, s.table, n));
  }

  lemma NotOwnParent(assets: Assets, n: AssetId)
    requires IsForest(assets) && n in assets
    ensures assets[n].parent != Some(n)
    ensures assets[n].parent.Some? ==> assets[n].parent.value in assets
  {
    var depth :| Ranked(assets, depth);
    if assets[n].parent.Some? {
      assert IsChild(assets, n, assets[n].parent.value);
    }
  }

  /** The grant at the end: as if its rows had been there when the asset was saved. */
  lemma GrantAfterTransfer(t: Tables, s: State, n: AssetId, u: User, sender: User, mid: State, s': State)
    requires Consistent(t, s, false) && n in s.assets && n in s.table && HandOverVia(t, s, n, u, sender, mid, s')
    requires mid.assets == s.assets[n := s.assets[n].(owner := Some(u))]
    requires Consistent(t, mid, false) && mid.table[n] == HandedOverRows(t, s, n, u)
    requires RecalculatedBelow(t, mid.assets, s.table[n := mid.table[n]], mid.table, n)
    requires Settled(t, mid.assets[n], mid.table[n], ParentPerms(t, mid.assets, s.table, n))
    requires AssignOutcome(t, mid.assets[n], mid.table[n], sender, ManageAsset, false, false, map[]).Ok?
    ensures var R := AssignOutcome(t, mid.assets[n], mid.table[n], sender, ManageAsset, false, false, map[]).value.rows;
            && s'.assets == mid.assets
            && RecalculatedBelow(t, mid.assets, s.table[n := R], s'.table, n)
            && Settled(t, mid.assets[n], R, ParentPerms(t, mid.assets, s.table, n))
  {
    var c := AssignOutcome(t, mid.assets[n], mid.table[n], sender, ManageAsset, false, false, map[]).value;
    AssignOutcomeKeepsSettled(t, mid.assets[n], mid.table[n], sender, ManageAsset, false, map[],
                              ParentPerms(t, mid.assets, s.table, n));
    if c.recalculates {
      RecalculatedBelowComposes(t, mid.assets, s.table, mid.table, s'.table, n, mid.table[n], c.rows);
    } else {
      assert c.rows == mid.table[n] && s'.table == mid.table[n := c.rows] == mid.table;
    }
  }

  // ---- The trash ----

  lemma ToggleKeepsSettledAt(t: Tables, s: State, ns: set<AssetId>, pendingDelete: bool, s': State, m: AssetId)
    requires ToggleStep(s, ns, pendingDelete, s') && m in s.assets
    ensures SettledAt(t, s'.assets, s'.table, m) <==> SettledAt(t, s.assets, s.table, m)
  {
    var parentPerms := ParentPerms(t, s.assets, s.table, m);
    assert ParentPerms(t, s'.assets, s'.table, m) == parentPerms;
    if m in s.table {
      forall u, p
        ensures Inherits(t, s'.assets[m], parentPerms, u, p) <==> Inherits(t, s.assets[m], parentPerms, u, p)
      {
      }
      RowsEqual(Recalculated(t, s'.assets[m], s.table[m], parentPerms),
                Recalculated(t, s.assets[m], s.table[m], parentPerms));
    }
  }

  /** Putting assets into the trash, or taking them out, changes no agreement. */
  lemma ToggleKeepsSettled(t: Tables, s: State, ns: set<AssetId>, pendingDelete: bool, s': State)
    requires ToggleStep(s, ns, pendingDelete, s')
    ensures AllSettled(t, s'.assets, s'.table) <==> AllSettled(t, s.assets, s.table)
  {
    forall m | m in s.assets
      ensures SettledAt(t, s'.assets, s'.table, m) <==> SettledAt(t, s.assets, s.table, m)
    {
      ToggleKeepsSettledAt(t, s, ns, pendingDelete, s', m);
    }
  }

  // ---- Assets that are left behind ----

  /** An open child that agrees with its parent has what the parent hands down. */
  lemma OpenChildInherits(t: Tables, b: Asset, R: Rows, parentRows: Rows, u: User, q: Perm)
    requires t.InheritanceIsInjective() && t.AnonymousOk() && b.parent.Some? && q in t.heritable
    requires Settled(t, b, R, EffectivePerms(t, parentRows)) && IsOpen(b, R, u, t.heritable[q])
    ensures Effective(t, R, u, t.heritable[q]) <==> Effective(t, parentRows, u, q)
  {
    InheritsFromEffective(t, b, parentRows, u, q);
    RecalculatedEffective(t, b, R, EffectivePerms(t, parentRows), u, t.heritable[q]);
    assert Effective(t, R, u, t.heritable[q]) <==>
           Effective(t, Recalculated(t, b, R, EffectivePerms(t, parentRows)), u, t.heritable[q]);
  }

  /** What is removed from u on an asset stays with u on a child that the walk passes by and that is open to it. */
  lemma ChildPassedByKeeps(t: Tables, s: State, n: AssetId, u: User, p: Perm, s': State, m: AssetId, q: Perm)
    requires WellPlaced(t, s.assets, s.table) && RemoveStep(t, s, n, u, p, s')
    requires RemoveOutcome(t, s.assets[n], s.table[n], u, p, false).Ok?
    requires IsChild(s.assets, m, n) && !IsVisited(t, s.assets, m, n)
    requires q in t.heritable && q in Affected(t, s.assets[n].kind, p)
    requires IsOpen(s.assets[m], s.table[m], u, t.heritable[q]) && Effective(t, s.table[m], u, t.heritable[q])
    ensures !Effective(t, s'.table[n], u, q)
    ensures s'.table[m] == s.table[m] && Effective(t, s'.table[m], u, t.heritable[q])
    ensures !SettledAt(t, s'.assets, s'.table, m)
  {
    var R' := RemovedAll(t, s.assets[n], s.table[n], u, p);
    NotBelowItself(t, s.assets, n);
    NotOwnParent(s.assets, n);
    assert s'.table[n] == R' && s'.table[m] == s.table[m];
    RemovedTakesEffect(t, s.assets[n], s.table[n], u, p, u, q);
    if SettledAt(t, s'.assets, s'.table, m) {
      OpenChildInherits(t, s.assets[m], s.table[m], R', u, q);
      assert false;
    }
  }

  /** A collection is saved as a survey, and view_asset is then removed from one who was granted it there: on a
      child that inherited it, it stays, although the removal itself would outlive a recalculation. */
  lemma RetypedCollectionLeavesChild(s: State, n: AssetId, s1: State, u: User, s2: State, m: AssetId)
    requires WellPlaced(ASSET_TABLES, s.assets, s.table) && SettledAt(ASSET_TABLES, s.assets, s.table, m)
    requires n in s.assets && s.assets[n].kind == Collection && s.assets[n].parent.None?
    requires SaveStep(ASSET_TABLES, s, n, s.assets[n].(kind := Survey), s1)
    requires RemoveStep(ASSET_TABLES, s1, n, u, ViewAsset, s2)
    requires RemoveOutcome(ASSET_TABLES, s1.assets[n], s1.table[n], u, ViewAsset, false).Ok?
    requires IsChild(s.assets, m, n) && IsOpen(s.assets[m], s.table[m], u, ViewAsset)
    requires s.assets[n].owner != Some(u) && Effective(ASSET_TABLES, s.table[n], u, ViewAsset)
    ensures RemovalHolds(ASSET_TABLES, s1.assets[n], s1.table[n], {}, u, ViewAsset)
    ensures !Effective(ASSET_TABLES, s2.table[n], u, ViewAsset) && Effective(ASSET_TABLES, s2.table[m], u, ViewAsset)
    ensures !SettledAt(ASSET_TABLES, s2.assets, s2.table, m)
  {
    var t := ASSET_TABLES;
    AssetTablesAreWf();
    AssetHeritable();
    NotOwnParent(s.assets, n);
    SavedIsPlaced(t, s, n, s.assets[n].(kind := Survey));
    assert s1.assets[m] == s.assets[m] && !IsVisited(t, s1.assets, m, n);
    assert s1.table[m] == s.table[m];
    OpenChildInherits(t, s.assets[m], s.table[m], s.table[n], u, ViewAsset);
    ChildPassedByKeeps(t, s1, n, u, ViewAsset, s2, m, ViewAsset);
  }

  /** A child is in the trash while view_asset is removed on its parent; taken out again, it still gives it. */
  lemma TrashedChildKeeps(t: Tables, s: State, n: AssetId, u: User, p: Perm, s1: State, m: AssetId, q: Perm, s2: State)
    requires WellPlaced(t, s.assets, s.table) && SettledAt(t, s.assets, s.table, m)
    requires RemoveStep(t, s, n, u, p, s1) && RemoveOutcome(t, s.assets[n], s.table[n], u, p, false).Ok?
    requires ToggleStep(s1, {m}, false, s2)
    requires IsChild(s.assets, m, n) && s.assets[m].pendingDelete
    requires q in t.heritable && q in Affected(t, s.assets[n].kind, p) && Effective(t, s.table[n], u, q)
    requires IsOpen(s.assets[m], s.table[m], u, t.heritable[q])
    ensures !s2.assets[m].pendingDelete
    ensures !Effective(t, s2.table[n], u, q) && Effective(t, s2.table[m], u, t.heritable[q])
    ensures !SettledAt(t, s2.assets, s2.table, m)
  {
    OpenChildInherits(t, s.assets[m], s.table[m], s.table[n], u, q);
    ChildPassedByKeeps(t, s, n, u, p, s1, m, q);
    ToggleKeepsSettledAt(t, s1, {m}, false, s2, m);
  }
}
