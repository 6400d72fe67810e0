/** One save, transfer of ownership, assign_perm or remove_perm on a forest of assets: what it keeps. */
module PermissionSteps {
  import opened Wrappers
  import opened PermissionTables
  import opened PartialPermissions
  import opened PermissionRows
  import opened PermissionInvariants
  import opened PermissionInheritance
  import opened PermissionSaves
  import opened AssetForest

  datatype State = State(assets: Assets, table: Table)

  /** Creating an asset, or changing its owner, type or parent, or whether it is in the
      trash: the links stay a forest, and the public owns nothing. */
  ghost predicate SaveAllowed(s: State, n: AssetId, a: Asset) {
    IsForest(s.assets[n := a]) && OwnerOk(a)
  }

  function RowsAt(table: Table, n: AssetId): Rows {
    if n in table then table[n] else {}
  }

  /** The table once n itself is saved and recalculated, before its descendants are. */
  ghost function Saved(t: Tables, s: State, n: AssetId, a: Asset): Table {
    s.table[n := Recalculated(t, a, RowsAt(s.table, n), ParentPerms(t, s.assets[n := a], s.table, n))]
  }

  /** The rows of everyone but u. */
  function RowsOfOthers(R: Rows, u: User): Rows {
    set r | r in R && r.user != u
  }

  /** A transfer of ownership deletes the rows of the new owner before the asset is saved. */
  function ReadyToHandOver(s: State, n: AssetId, u: User): State
    requires n in s.table
  {
    s.(table := s.table[n := RowsOfOthers(s.table[n], u)])
  }

  ghost predicate SaveStep(t: Tables, s: State, n: AssetId, a: Asset, s': State) {
    && SaveAllowed(s, n, a)
    && s'.assets == s.assets[n := a]
    && RecalculatedBelow(t, s'.assets, Saved(t, s, n, a), s'.table, n)
  }

  /** The explicit rows of the asset satisfy the row invariants under its new owner and type,
      and the new type can be given what it can inherit. */
  ghost predicate SaveHolds(t: Tables, s: State, n: AssetId, a: Asset) {
    PlacementOk(t, a) && NodeOk(t, a, OwnRows(RowsAt(s.table, n)))
  }

  /** What a call leaves in the table: nothing new if it raised, else the changed rows of n
      and, unless it returned early, recalculated descendants. */
  ghost predicate Changed(t: Tables, assets: Assets, before: Table, after: Table, n: AssetId, outcome: Outcome) {
    match outcome
    case Err(_) => after == before
    case Ok(c) =>
      if c.recalculates then RecalculatedBelow(t, assets, before[n := c.rows], after, n)
      else after == before[n := c.rows]
  }

  ghost predicate AssignStep(t: Tables, s: State, n: AssetId, u: User, p: Perm, deny: bool, partialPerms: PartialPerms,
                             s': State) {
    && n in s.assets && n in s.table && s'.assets == s.assets
    && Changed(t, s.assets, s.table, s'.table, n,
               AssignOutcome(t, s.assets[n], s.table[n], u, p, deny, false, partialPerms))
  }

  /** On a table with a cycle of implications the recursion of remove_perm does not end. */
  ghost predicate RemoveStep(t: Tables, s: State, n: AssetId, u: User, p: Perm, s': State) {
    && t.Acyclic()
    && n in s.assets && n in s.table && s'.assets == s.assets
    && Changed(t, s.assets, s.table, s'.table, n, RemoveOutcome(t, s.assets[n], s.table[n], u, p, false))
  }

  /** A transfer, through the state in which the asset is saved: the former owner is granted manage_asset at the end,
      and if that raises, everything is undone. */
  ghost predicate HandOverVia(t: Tables, s: State, n: AssetId, u: User, sender: User, mid: State, s': State)
    requires n in s.assets && n in s.table
  {
    && SaveStep(t, ReadyToHandOver(s, n, u), n, s.assets[n].(owner := Some(u)), mid)
    && n in mid.table && n in mid.assets
    && if AssignOutcome(t, mid.assets[n], mid.table[n], sender, ManageAsset, false, false, map[]).Err? then s' == s
       else AssignStep(t, mid, n, sender, ManageAsset, false, map[], s')
  }

  ghost predicate HandOverStep(t: Tables, s: State, n: AssetId, u: User, sender: User, s': State) {
    && n in s.assets && n in s.table && u != ANONYMOUS_USER_ID
    && exists mid :: HandOverVia(t, s, n, u, sender, mid, s')
  }

  /** Assets put into the trash, or taken out again, without being saved. */
  ghost predicate ToggleStep(s: State, ns: set<AssetId>, pendingDelete: bool, s': State) {
    && s'.assets.Keys == s.assets.Keys && s'.table == s.table
    && forall n :: n in s.assets ==>
                     s'.assets[n] == if n in ns then s.assets[n].(pendingDelete := pendingDelete) else s.assets[n]
  }

  ghost predicate Sound(t: Tables, s: State) {
    WellPlaced(t, s.assets, s.table) && Placed(t, s.assets) && RowsOk(t, s.assets, s.table)
  }

  // ---- save ----

  lemma SavedIsPlaced(t: Tables, s: State, n: AssetId, a: Asset)
    requires WellPlaced(t, s.assets, s.table) && SaveAllowed(s, n, a)
    ensures WellPlaced(t, s.assets[n := a], Saved(t, s, n, a))
  {}

  /** Whether the saved rows are sound depends on the explicit ones alone. */
  lemma SavedIsOkIff(t: Tables, s: State, n: AssetId, a: Asset)
    requires Sound(t, s) && SaveAllowed(s, n, a)
    ensures PlacementOk(t, a) && NodeOk(t, a, Saved(t, s, n, a)[n]) <==> SaveHolds(t, s, n, a)
  {
    var assets, R := s.assets[n := a], RowsAt(s.table, n);
    var parentPerms := ParentPerms(t, assets, s.table, n);
    SavedIsPlaced(t, s, n, a);
    var R' := Recalculated(t, a, R, parentPerms);
    if NodeOk(t, a, R') {
      OwnRowsStaySound(t, a, a, R');
      SameOwnRows(t, a, R, parentPerms);
    }
    if SaveHolds(t, s, n, a) {
      var parentKind := Collection;
      if a.parent.Some? {
        parentKind := SavedParentIsOk(t, s, n, a);
      }
      RecalculatedIsNodeOk(t, a, R, parentKind, parentPerms);
    }
  }

  lemma SameOwnRows(t: Tables, a: Asset, R: Rows, parentPerms: Perms)
    ensures OwnRows(Recalculated(t, a, R, parentPerms)) == OwnRows(R)
  {
    var R' := Recalculated(t, a, R, parentPerms);
    forall r: Row | !r.inherited ensures r in R' <==> r in R {
      assert Explicit(R', r.user, r.perm, r.deny) <==> Explicit(R, r.user, r.perm, r.deny);
    }
  }

  /** The parent of the saved asset is another one, whose rows are sound. */
  lemma SavedParentIsOk(t: Tables, s: State, n: AssetId, a: Asset) returns (parentKind: AssetType)
    requires Sound(t, s) && SaveAllowed(s, n, a) && a.parent.Some?
    ensures ParentPermsOk(t, parentKind, ParentPerms(t, s.assets[n := a], s.table, n))
  {
    var assets, parent := s.assets[n := a], a.parent.value;
    var depth :| Ranked(assets, depth);
    assert IsChild(assets, n, parent) && parent != n && parent in s.assets;
    parentKind := assets[parent].kind;
    EffectivePermsAreParentPermsOk(t, assets[parent], s.table[parent]);
  }

  /** A save that only moves an asset, or creates one, holds. */
  lemma OrdinarySaveHolds(t: Tables, s: State, n: AssetId, a: Asset)
    requires Sound(t, s) && PlacementOk(t, a)
    requires n in s.assets ==> t.Assignable(a.kind) == t.Assignable(s.assets[n].kind)
    requires n in s.assets ==>
               a.owner == s.assets[n].owner || a.owner.None? || forall r :: r in s.table[n] ==> r.user != a.owner.value
    ensures SaveHolds(t, s, n, a)
  {
    if n in s.assets {
      OwnRowsStaySound(t, s.assets[n], a, RowsAt(s.table, n));
    } else {
      assert OwnRows(RowsAt(s.table, n)) == {};
      assert forall u, p, deny :: !Explicit({}, u, p, deny);
    }
  }

  /** A save keeps every invariant exactly when it holds. */
  lemma SaveIsSoundIff(t: Tables, s: State, n: AssetId, a: Asset, s': State)
    requires Sound(t, s) && SaveStep(t, s, n, a, s')
    ensures Sound(t, s') <==> SaveHolds(t, s, n, a)
  {
    SavedIsPlaced(t, s, n, a);
    SavedIsOkIff(t, s, n, a);
    NotBelowItself(t, s'.assets, n);
    assert s'.table[n] == Saved(t, s, n, a)[n];
    assert s'.assets[n] == a;
    if SaveHolds(t, s, n, a) {
      RecalculatedBelowIsOk(t, s'.assets, Saved(t, s, n, a), s'.table, n);
    }
  }

  /** What a save leaves: the owner has one inherited row for each permission that the type can be given,
      the partial one aside; others have one for each permission that the parent effectively gives them,
      translated; and the explicit rows are as they were. */
  lemma SavedRows(t: Tables, s: State, n: AssetId, a: Asset, s': State, u: User, p: Perm)
    requires WellPlaced(t, s.assets, s.table) && SaveStep(t, s, n, a, s')
    ensures n in s'.table
    ensures Row(u, p, false, true) in s'.table[n] <==>
            if a.owner == Some(u) then p in t.Assignable(a.kind) && p != PartialSubmissions
            else
              && a.parent.Some? && a.parent.value in s.table
              && exists q :: q in t.heritable && t.heritable[q] == p && Effective(t, s.table[a.parent.value], u, q)
    ensures Row(u, p, true, true) !in s'.table[n]
    ensures forall deny :: Row(u, p, deny, false) in s'.table[n] <==>
                           n in s.table && Row(u, p, deny, false) in s.table[n]
  {
    NotBelowItself(t, s'.assets, n);
    var R, parentPerms := RowsAt(s.table, n), ParentPerms(t, s'.assets, s.table, n);
    assert s'.table[n] == Recalculated(t, a, R, parentPerms);
    assert Inherited(s'.table[n], u, p) <==> Inherits(t, a, parentPerms, u, p);
    forall deny ensures Explicit(s'.table[n], u, p, deny) <==> Explicit(R, u, p, deny) {
    }
  }

  /** So the owner holds every permission of the type but the partial one, unless an explicit row denies it. */
  lemma SavedOwnerHolds(t: Tables, s: State, n: AssetId, a: Asset, s': State, u: User, p: Perm)
    requires WellPlaced(t, s.assets, s.table) && SaveStep(t, s, n, a, s') && a.owner == Some(u)
    requires p in t.Assignable(a.kind) && p != PartialSubmissions
    ensures n in s'.table && Row(u, p, false, true) in s'.table[n]
    ensures Effective(t, s'.table[n], u, p) <==> !Explicit(RowsAt(s.table, n), u, p, true)
  {
    SavedRows(t, s, n, a, s', u, p);
    assert Explicit(s'.table[n], u, p, true) <==> Explicit(RowsAt(s.table, n), u, p, true);
  }

  // ---- assign_perm and remove_perm ----

  /** New rows for one asset, sound ones, leave a sound table. */
  lemma RowsChangeIsOk(t: Tables, assets: Assets, table: Table, n: AssetId, R: Rows)
    requires WellPlaced(t, assets, table) && Placed(t, assets) && RowsOk(t, assets, table) && n in assets
    requires NodeOk(t, assets[n], R)
    ensures WellPlaced(t, assets, table[n := R]) && RowsOk(t, assets, table[n := R])
  {}

  /** A call that changes the rows of n and then recalculates its descendants. */
  lemma ChangeIsSound(t: Tables, s: State, n: AssetId, R: Rows, s': State)
    requires Sound(t, s) && n in s.assets && NodeOk(t, s.assets[n], R)
    requires s'.assets == s.assets && RecalculatedBelow(t, s.assets, s.table[n := R], s'.table, n)
    ensures Sound(t, s')
  {
    RowsChangeIsOk(t, s.assets, s.table, n, R);
    RecalculatedBelowIsOk(t, s.assets, s.table[n := R], s'.table, n);
  }

  /** assign_perm leaves alone the rows of other users, and those of u for permissions that neither come with p
      nor are contradicted by what does. */
  lemma AssignKeepsRest(t: Tables, s: State, n: AssetId, u: User, p: Perm, deny: bool, partialPerms: PartialPerms,
                        s': State, r: Row)
    requires WellPlaced(t, s.assets, s.table) && AssignStep(t, s, n, u, p, deny, partialPerms, s')
    requires r.user != u ||
             (&& p != PartialSubmissions && r.perm !in t.Cone(s.assets[n].kind, p, deny)
              && (deny || forall x :: x in t.Cone(s.assets[n].kind, p, false) ==> r.perm !in t.Contradicts(x)))
    ensures n in s'.table && (r in s'.table[n] <==> r in s.table[n])
  {
    NotBelowItself(t, s.assets, n);
    if AssignOutcome(t, s.assets[n], s.table[n], u, p, deny, false, partialPerms).Ok? {
      AssignInTwo(t, s.assets[n], s.table[n], u, p, deny, partialPerms);
    }
  }

  /** remove_perm takes nothing but grants, of u, of p and what implies it, and adds nothing but denials of those. */
  lemma RemoveKeepsRest(t: Tables, s: State, n: AssetId, u: User, p: Perm, s': State, r: Row)
    requires WellPlaced(t, s.assets, s.table) && RemoveStep(t, s, n, u, p, s')
    ensures n in s'.table
    ensures r in s.table[n] && (r.user != u || r.deny || r.perm !in t.Cone(s.assets[n].kind, p, true)) ==>
              r in s'.table[n]
    ensures r in s'.table[n] && r !in s.table[n] ==>
              r == Row(u, r.perm, true, false) && r.perm in t.Cone(s.assets[n].kind, p, true)
  {
    NotBelowItself(t, s.assets, n);
    if r in s'.table[n] && r !in s.table[n] {
      NewlyDeniedIsAffected(t, s.assets[n], s.table[n], u, p, r.perm);
    }
  }

  /** assign_perm keeps every invariant. */
  lemma AssignIsSound(t: Tables, s: State, n: AssetId, u: User, p: Perm, deny: bool, partialPerms: PartialPerms,
                      s': State)
    requires Sound(t, s) && AssignStep(t, s, n, u, p, deny, partialPerms, s')
    ensures Sound(t, s')
  {
    var outcome := AssignOutcome(t, s.assets[n], s.table[n], u, p, deny, false, partialPerms);
    if outcome.Ok? {
      AssignOutcomeKeepsNodeOk(t, s.assets[n], s.table[n], u, p, deny, partialPerms);
      if outcome.value.recalculates {
        ChangeIsSound(t, s, n, outcome.value.rows, s');
      } else {
        RowsChangeIsOk(t, s.assets, s.table, n, outcome.value.rows);
      }
    }
  }

  /** remove_perm keeps every invariant. */
  lemma RemoveIsSound(t: Tables, s: State, n: AssetId, u: User, p: Perm, s': State)
    requires Sound(t, s) && RemoveStep(t, s, n, u, p, s')
    ensures Sound(t, s')
  {
    if RemoveOutcome(t, s.assets[n], s.table[n], u, p, false).Ok? {
      RemovedKeepsNodeOk(t, s.assets[n], s.table[n], u, p);
      ChangeIsSound(t, s, n, RemovedAll(t, s.assets[n], s.table[n], u, p), s');
    }
  }

  /** What n inherits from is as a child may rely on. */
  lemma ParentIsOk(t: Tables, s: State, n: AssetId) returns (parentKind: AssetType)
    requires Sound(t, s) && n in s.assets
    ensures PlacementOk(t, s.assets[n])
    ensures s.assets[n].parent.Some? ==> ParentPermsOk(t, parentKind, ParentPerms(t, s.assets, s.table, n))
  {
    parentKind := Collection;
    if s.assets[n].parent.Some? {
      var parent := s.assets[n].parent.value;
      parentKind := s.assets[parent].kind;
      EffectivePermsAreParentPermsOk(t, s.assets[parent], s.table[parent]);
    }
  }

  // ---- Transfer of ownership ----

  /** Without the rows of one user the rows are as sound as they were. */
  lemma RowsOfOthersAreOk(t: Tables, a: Asset, R: Rows, u: User)
    requires NodeOk(t, a, R)
    ensures NodeOk(t, a, RowsOfOthers(R, u))
  {
    var O := RowsOfOthers(R, u);
    forall v, p, deny ensures Explicit(O, v, p, deny) <==> v != u && Explicit(R, v, p, deny) {
    }
    forall v, p ensures Inherited(O, v, p) <==> v != u && Inherited(R, v, p) {
    }
  }

  /** A transfer keeps every invariant, whatever the new owner held before. */
  lemma HandOverIsSound(t: Tables, s: State, n: AssetId, u: User, sender: User, s': State)
    requires Sound(t, s) && HandOverStep(t, s, n, u, sender, s')
    ensures Sound(t, s')
  {
    var mid :| HandOverVia(t, s, n, u, sender, mid, s');
    var s1 := ReadyToHandOver(s, n, u);
    RowsOfOthersAreOk(t, s.assets[n], s.table[n], u);
    RowsChangeIsOk(t, s.assets, s.table, n, s1.table[n]);
    OrdinarySaveHolds(t, s1, n, s.assets[n].(owner := Some(u)));
    SaveIsSoundIff(t, s1, n, s.assets[n].(owner := Some(u)), mid);
    if AssignOutcome(t, mid.assets[n], mid.table[n], sender, ManageAsset, false, false, map[]).Ok? {
      AssignIsSound(t, mid, n, sender, ManageAsset, false, map[], s');
    }
  }

  /** A transfer that does not raise takes every explicit row from the new owner, and
      leaves those of all others alone; the sender is granted manage_asset last. */
  lemma HandOverKeepsOthers(t: Tables, s: State, n: AssetId, u: User, sender: User, s': State, v: User, p: Perm,
                            deny: bool)
    requires WellPlaced(t, s.assets, s.table) && HandOverStep(t, s, n, u, sender, s') && v != sender
    ensures n in s'.table
    ensures s' == s || (Row(v, p, deny, false) in s'.table[n] <==> v != u && Row(v, p, deny, false) in s.table[n])
  {
    var mid :| HandOverVia(t, s, n, u, sender, mid, s');
    var s1, a := ReadyToHandOver(s, n, u), s.assets[n].(owner := Some(u));
    SavedRows(t, s1, n, a, mid, v, p);
    if s' != s {
      SavedIsPlaced(t, s1, n, a);
      AssignKeepsRest(t, mid, n, sender, ManageAsset, false, map[], s', Row(v, p, deny, false));
    }
  }

  /** Where the sender can be given manage_asset, a transfer does not raise: the new owner owns the asset and holds
      every permission of its type but the partial one, by inherited rows alone, and the sender is granted
      manage_asset. Otherwise it changes nothing. */
  lemma HandOverGives(t: Tables, s: State, n: AssetId, u: User, sender: User, s': State, p: Perm)
    requires WellPlaced(t, s.assets, s.table) && HandOverStep(t, s, n, u, sender, s')
    ensures if ManageAsset in t.Assignable(s.assets[n].kind) &&
               (sender == ANONYMOUS_USER_ID ==> ManageAsset in t.allowedAnonymous)
            then
              && s'.assets == s.assets[n := s.assets[n].(owner := Some(u))]
              && n in s'.table && Row(sender, ManageAsset, false, false) in s'.table[n]
              && (u != sender ==>
                    && (Row(u, p, false, true) in s'.table[n] <==>
                        p in t.Assignable(s.assets[n].kind) && p != PartialSubmissions)
                    && forall deny :: Row(u, p, deny, false) !in s'.table[n])
            else s' == s
  {
    var mid :| HandOverVia(t, s, n, u, sender, mid, s');
    var s1, a := ReadyToHandOver(s, n, u), s.assets[n].(owner := Some(u));
    SavedRows(t, s1, n, a, mid, u, p);
    SavedIsPlaced(t, s1, n, a);
    AssignSucceedsIff(t, a, mid.table[n], sender, ManageAsset, false, map[]);
    if AssignOutcome(t, a, mid.table[n], sender, ManageAsset, false, false, map[]).Ok? {
      AssignInTwo(t, a, mid.table[n], sender, ManageAsset, false, map[]);
      NotBelowItself(t, mid.assets, n);
      forall r: Row | r.user == u != sender ensures r in s'.table[n] <==> r in mid.table[n] {
        AssignKeepsRest(t, mid, n, sender, ManageAsset, false, map[], s', r);
      }
    }
  }

  // ---- The trash ----

  lemma ToggleIsSound(t: Tables, s: State, ns: set<AssetId>, pendingDelete: bool, s': State)
    requires Sound(t, s) && ToggleStep(s, ns, pendingDelete, s')
    ensures Sound(t, s')
  {
    ToggleIsPlaced(t, s, ns, pendingDelete, s');
    forall n | n in s'.assets ensures PlacementOk(t, s'.assets[n]) && NodeOk(t, s'.assets[n], s'.table[n]) {
      SameRowsOk(t, s.assets[n], s'.assets[n], s.table[n]);
    }
  }

  lemma ToggleIsPlaced(t: Tables, s: State, ns: set<AssetId>, pendingDelete: bool, s': State)
    requires WellPlaced(t, s.assets, s.table) && ToggleStep(s, ns, pendingDelete, s')
    ensures WellPlaced(t, s'.assets, s'.table)
  {
    var depth :| Ranked(s.assets, depth);
    assert Ranked(s'.assets, depth) by {
      forall m, n | IsChild(s'.assets, m, n) ensures n in s'.assets && depth[n] < depth[m] {
        assert IsChild(s.assets, m, n);
      }
    }
  }

  lemma SameRowsOk(t: Tables, a: Asset, b: Asset, R: Rows)
    requires NodeOk(t, a, R) && b == a.(pendingDelete := b.pendingDelete)
    ensures NodeOk(t, b, R)
  {
    forall u, p ensures Inheritable(t, b, u, p) <==> Inheritable(t, a, u, p) {
    }
  }
}
