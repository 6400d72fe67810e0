/** The asset and permission tables, and the methods of ObjectPermissionMixin that change them. */
module AssetStore {
  import opened Wrappers
  import opened Sequences
  import opened Implication
  import opened PermissionTables
  import opened PartialPermissions
  import opened PermissionRows
  import opened PermissionInvariants
  import opened PermissionInheritance
  import opened AssetForest
  import opened DescendantWalk
  import opened AssignRecursion
  import opened PermissionSteps
  import opened PermissionConsistency
  import opened PermissionShifts
  import opened PermissionAgreement
  import opened CopyPermissions
  import opened CopySteps
  import opened PermissionRuns

  /** The inherited rows created so far by a recalculation: `owned` permissions of the owner
      and the translations of the pairs in `copied`. */
  ghost predicate PartlyInherited(t: Tables, a: Asset, R: Rows, R': Rows, owned: set<Perm>, copied: Perms) {
    && (forall u, p, deny :: Explicit(R', u, p, deny) <==> Explicit(R, u, p, deny))
    && (forall u, p :: Inherited(R', u, p) <==>
                       if a.owner == Some(u) then p in owned else CopiedAs(t, copied, u, p))
    && (forall r :: r in R' && r.inherited ==> !r.deny)
  }

  ghost predicate CopiedAs(t: Tables, copied: Perms, u: User, p: Perm) {
    exists q :: (u, q) in copied && q in t.heritable && t.heritable[q] == p
  }

  lemma NothingInheritedYet(t: Tables, a: Asset, R: Rows, R': Rows)
    requires R' == OwnRows(R)
    ensures PartlyInherited(t, a, R, R', {}, {})
  {
    assert forall u, p :: !CopiedAs(t, {}, u, p);
  }

  lemma OwnedOneMore(t: Tables, a: Asset, R: Rows, R': Rows, owned: set<Perm>, p: Perm)
    requires PartlyInherited(t, a, R, R', owned, {}) && a.owner.Some? && p !in owned
    ensures Row(a.owner.value, p, false, true) !in R'
    ensures PartlyInherited(t, a, R, R' + {Row(a.owner.value, p, false, true)}, owned + {p}, {})
  {
    assert !Inherited(R', a.owner.value, p);
    assert forall u, q :: !CopiedAs(t, {}, u, q);
  }

  /** The row for one more pair is new, because the translation of permissions is injective. */
  lemma CopiedOneMore(t: Tables, a: Asset, R: Rows, R': Rows, owned: set<Perm>, copied: Perms, u: User, p: Perm)
    requires t.InheritanceIsInjective() && PartlyInherited(t, a, R, R', owned, copied)
    requires a.owner != Some(u) && p in t.heritable && (u, p) !in copied
    ensures Row(u, t.heritable[p], false, true) !in R'
    ensures PartlyInherited(t, a, R, R' + {Row(u, t.heritable[p], false, true)}, owned, copied + {(u, p)})
  {
    assert Inherited(R', u, t.heritable[p]) <==> CopiedAs(t, copied, u, t.heritable[p]);
    forall v, q
      ensures CopiedAs(t, copied + {(u, p)}, v, q) <==> CopiedAs(t, copied, v, q) || (v == u && q == t.heritable[p])
    {
      CopiedAsOneMore(t, copied, u, p, v, q);
    }
  }

  lemma CopiedAsOneMore(t: Tables, copied: Perms, u: User, p: Perm, v: User, q: Perm)
    ensures CopiedAs(t, copied + {(u, p)}, v, q) <==>
            CopiedAs(t, copied, v, q) || (v == u && p in t.heritable && q == t.heritable[p])
  {
    var more := copied + {(u, p)};
    if CopiedAs(t, copied, v, q) {
      var r :| (v, r) in copied && r in t.heritable && t.heritable[r] == q;
      assert (v, r) in more;
    } else if v == u && p in t.heritable && q == t.heritable[p] {
      assert (u, p) in more;
    }
  }

  /** A pair of the owner, or of a permission that is not inherited, creates no row. */
  lemma CopiedNothing(t: Tables, a: Asset, R: Rows, R': Rows, owned: set<Perm>, copied: Perms, u: User, p: Perm)
    requires PartlyInherited(t, a, R, R', owned, copied)
    requires a.owner == Some(u) || p !in t.heritable
    ensures PartlyInherited(t, a, R, R', owned, copied + {(u, p)})
  {
    forall v, q ensures CopiedAs(t, copied + {(u, p)}, v, q) <==>
                        CopiedAs(t, copied, v, q) || (v == u && p in t.heritable && q == t.heritable[p]) {
      CopiedAsOneMore(t, copied, u, p, v, q);
    }
  }

  lemma WhollyInherited(t: Tables, a: Asset, R: Rows, R': Rows, parentPerms: Perms)
    requires PartlyInherited(t, a, R, R', if a.owner.Some? then t.OwnerPerms(a.kind) else {},
                             if a.parent.Some? then parentPerms else {})
    ensures R' == Recalculated(t, a, R, parentPerms)
  {
    RowsEqual(R', Recalculated(t, a, R, parentPerms));
  }

  /** The parent's effective permissions: passed in, or read from the table. */
  ghost function InheritedFrom(t: Tables, assets: Assets, table: Table, n: AssetId, given: Option<Perms>): Perms {
    if given.Some? then given.value else ParentPerms(t, assets, table, n)
  }

  function Raised(outcome: Outcome): Option<PermError> {
    if outcome.Err? then Some(outcome.error) else None
  }

  ghost function NoPerms(): set<Perm> {
    {}
  }

  /** What a grant brings along neither contradicts itself nor is withheld from its user. */
  ghost predicate Safe(t: Tables, kind: AssetType, u: User, p: Perm, deny: bool) {
    !deny ==>
      && ConflictFree(t, t.Cone(kind, p, false))
      && (u == ANONYMOUS_USER_ID && p in t.allowedAnonymous ==> t.Cone(kind, p, false) <= t.allowedAnonymous)
  }

  lemma SafeWhenWf(t: Tables, kind: AssetType, u: User, p: Perm, deny: bool)
    requires t.Wf()
    ensures Safe(t, kind, u, p, deny)
  {
    GrantConeIsConflictFree(t, kind, p);
  }

  lemma SafeOther(t: Tables, kind: AssetType, u: User, p: Perm, q: Perm, deny: bool)
    requires Safe(t, kind, u, p, deny) && q in Others(t, kind, p, deny)
    requires u == ANONYMOUS_USER_ID && !deny ==> p in t.allowedAnonymous
    ensures Safe(t, kind, u, q, deny)
    ensures u == ANONYMOUS_USER_ID && !deny ==> q in t.allowedAnonymous
  {
    ConeWithin(t, kind, p, q, deny);
  }

  lemma DeferredDoesNotRecalculate(t: Tables, a: Asset, R: Rows, u: User, p: Perm, deny: bool,
                                   partialPerms: PartialPerms)
    ensures var outcome := AssignOutcome(t, a, R, u, p, deny, true, partialPerms);
            outcome.Ok? ==> !outcome.value.recalculates
  {}

  lemma RemoveOutcomeFlag(t: Tables, a: Asset, R: Rows, u: User, p: Perm, deferRecalc: bool)
    ensures var o1 := RemoveOutcome(t, a, R, u, p, true);
            var o2 := RemoveOutcome(t, a, R, u, p, deferRecalc);
            && (o1.Ok? ==> !o1.value.recalculates && o2 == Ok(Change(o1.value.rows, !deferRecalc)))
            && (o1.Err? ==> o2 == o1)
  {}

  /** A method that changed the rows of n as the outcome says, or raised. */
  ghost predicate RowsChanged(before: Table, after: Table, n: AssetId, outcome: Outcome, raised: Option<PermError>,
                              recalculates: bool) {
    match outcome
    case Err(e) => raised == Some(e)
    case Ok(c) => raised == None && recalculates == c.recalculates && after == before[n := c.rows]
  }

  /** Whether the descendants are to be recalculated has no part in the update of partial permissions. */
  lemma UpdatePartialKeepsFlag(t: Tables, a: Asset, R: Rows, u: User, p: Perm, partialPerms: PartialPerms)
    ensures var o1 := UpdatePartialOutcome(t, a, Change(R, false), u, p, partialPerms);
            var o2 := UpdatePartialOutcome(t, a, Change(R, true), u, p, partialPerms);
            && (o1.Ok? ==> !o1.value.recalculates && o2 == Ok(Change(o1.value.rows, true)))
            && (o1.Err? ==> o2 == o1)
  {}

  lemma NewOwnerIsAllowed(t: Tables, s: State, n: AssetId, u: User)
    requires WellPlaced(t, s.assets, s.table) && n in s.assets && u != ANONYMOUS_USER_ID
    ensures SaveAllowed(ReadyToHandOver(s, n, u), n, s.assets[n].(owner := Some(u)))
  {
    var assets := s.assets[n := s.assets[n].(owner := Some(u))];
    var depth :| Ranked(s.assets, depth);
    assert Ranked(assets, depth) by {
      forall m, k | IsChild(assets, m, k) ensures k in assets && depth[k] < depth[m] {
        assert IsChild(s.assets, m, k);
      }
    }
  }

  /** What `self.children` gives: its manager leaves out what is in the trash. */
  function Children(assets: Assets, n: AssetId): (children: set<AssetId>)
    ensures forall c :: c in children <==> IsChild(assets, c, n) && !assets[c].pendingDelete
  {
    set c | c in assets && assets[c].parent == Some(n) && !assets[c].pendingDelete
  }

  method AnyOf(s: set<AssetId>) returns (x: AssetId)
    requires s != {}
    ensures x in s
  {
    assert (forall y :: y !in s) ==> s == {};
    x :| x in s;
  }

  class Store {
    const t: Tables
    var assets: Assets
    var table: Table
    /** The mutable default parameter of _recalculate_inherited_perms, shared by every call. */
    var translatePerm: map<Perm, Perm>

    ghost predicate Valid()
      reads this
    {
      WellPlaced(t, assets, table) && CacheOk()
    }

    /** Every cached translation is the configured one. */
    predicate CacheOk()
      reads this`translatePerm
    {
      forall p :: p in translatePerm ==> p in t.heritable && translatePerm[p] == t.heritable[p]
    }

    constructor (t: Tables)
      requires t.Wf()
      ensures this.t == t && Valid() && assets == map[] && table == map[]
    {
      this.t := t;
      assets, table, translatePerm := map[], map[], map[];
      new;
      var noDepth: Depths := map[];
      assert Ranked(assets, noDepth);
    }

    /** _filter_anonymous_perms. */
    method FilterAnonymousPerms(unfiltered: Perms) returns (filtered: Perms)
      ensures forall u, p :: (u, p) in filtered <==>
                             (u, p) in unfiltered && (u == ANONYMOUS_USER_ID ==> p in t.allowedAnonymous)
    {
      filtered := unfiltered;
      var rest := unfiltered;
      while rest != {}
        invariant rest <= unfiltered
        invariant forall u, p :: (u, p) in filtered <==>
                                 (u, p) in unfiltered &&
                                 ((u, p) in rest || (u == ANONYMOUS_USER_ID ==> p in t.allowedAnonymous))
      {
        var x :| x in rest;
        rest := rest - {x};
        if x.0 == ANONYMOUS_USER_ID && x.1 !in t.allowedAnonymous {
          filtered := filtered - {x};
        }
      }
    }

    /** _get_effective_perms(include_calculated=False) for all users. */
    method GetEffectivePerms(n: AssetId) returns (perms: Perms)
      requires n in table
      ensures perms == EffectivePerms(t, table[n])
    {
      var R := table[n];
      var grantPerms := set r | r in R && !r.deny :: (r.user, r.perm);
      var denyPerms := set r | r in R && r.deny :: (r.user, r.perm);
      forall u, p ensures (u, p) in grantPerms <==> Granted(R, u, p) {
        if (u, p) in grantPerms {
          var r :| r in R && !r.deny && (r.user, r.perm) == (u, p);
          assert r == Row(u, p, false, r.inherited);
        }
      }
      forall u, p ensures (u, p) in denyPerms <==> Denied(R, u, p) {
        if (u, p) in denyPerms {
          var r :| r in R && r.deny && (r.user, r.perm) == (u, p);
          assert r == Row(u, p, true, r.inherited);
        }
      }
      perms := FilterAnonymousPerms(grantPerms - denyPerms);
      forall x ensures x in perms <==> x in EffectivePerms(t, R) {
        var (u, p) := x;
        assert (u, p) in perms <==> Effective(t, R, u, p);
      }
    }

    /** _recalculate_inherited_perms. No row is ever created twice: the unique constraint
        on the permission table is never violated. */
    method RecalculateInheritedPerms(n: AssetId, given: Option<Perms>, staleAlreadyDeleted: bool)
      requires n in assets && n in table && t.InheritanceIsInjective() && CacheOk()
      requires assets[n].parent.Some? ==> assets[n].parent.value in table && assets[n].parent.value != n
      requires staleAlreadyDeleted ==> forall r :: r in table[n] ==> !r.inherited
      modifies this`table, this`translatePerm
      ensures CacheOk()
      ensures var parentPerms := InheritedFrom(t, assets, old(table), n, given);
              table == old(table)[n := Recalculated(t, assets[n], old(table)[n], parentPerms)]
    {
      var a := assets[n];
      ghost var R := table[n];
      ghost var expected := InheritedFrom(t, assets, table, n, given);
      if !staleAlreadyDeleted {
        table := table[n := set r | r in table[n] && !r.inherited];
      }
      NothingInheritedYet(t, a, R, table[n]);
      OwnerPermsMadeExplicit(n, R);
      if a.parent.Some? {
        var parentPerms;
        if given.Some? {
          parentPerms := given.value;
        } else {
          parentPerms := GetEffectivePerms(a.parent.value);
        }
        assert parentPerms == expected;
        CopyParentPerms(n, R, parentPerms);
      }
      WhollyInherited(t, a, R, table[n], expected);
    }

    /** The first half of _recalculate_inherited_perms: the owner gets every assignable permission. */
    method OwnerPermsMadeExplicit(n: AssetId, ghost R: Rows)
      requires n in assets && n in table
      requires PartlyInherited(t, assets[n], R, table[n], {}, {})
      modifies this`table
      ensures n in table && table == old(table)[n := table[n]]
      ensures PartlyInherited(t, assets[n], R, table[n],
                              if assets[n].owner.Some? then t.OwnerPerms(assets[n].kind) else {}, {})
      ensures forall u, p :: Row(u, p, false, true) in table[n] <==>
                assets[n].owner == Some(u) && p in t.Assignable(assets[n].kind) && p != PartialSubmissions
    {
      var a := assets[n];
      if a.owner.Some? {
        var rest := t.OwnerPerms(a.kind);
        while rest != {}
          invariant rest <= t.OwnerPerms(a.kind)
          invariant n in table && table == old(table)[n := table[n]]
          invariant PartlyInherited(t, a, R, table[n], t.OwnerPerms(a.kind) - rest, {})
        {
          var perm :| perm in rest;
          var newPermission := Row(a.owner.value, perm, false, true);
          OwnedOneMore(t, a, R, table[n], t.OwnerPerms(a.kind) - rest, perm);
          assert newPermission !in table[n];
          table := table[n := table[n] + {newPermission}];
          assert t.OwnerPerms(a.kind) - (rest - {perm}) == t.OwnerPerms(a.kind) - rest + {perm};
          rest := rest - {perm};
        }
      }
      forall u, p
        ensures Row(u, p, false, true) in table[n] <==>
                a.owner == Some(u) && p in t.Assignable(a.kind) && p != PartialSubmissions
      {
        assert Inherited(table[n], u, p) <==> a.owner == Some(u) && p in t.OwnerPerms(a.kind);
      }
    }

    /** The second half of _recalculate_inherited_perms: translate and copy what the parent grants. */
    method CopyParentPerms(n: AssetId, ghost R: Rows, parentPerms: Perms)
      requires n in assets && n in table && t.InheritanceIsInjective() && CacheOk()
      requires PartlyInherited(t, assets[n], R, table[n],
                               if assets[n].owner.Some? then t.OwnerPerms(assets[n].kind) else {}, {})
      modifies this`table, this`translatePerm
      ensures CacheOk() && n in table && table == old(table)[n := table[n]]
      ensures PartlyInherited(t, assets[n], R, table[n],
                              if assets[n].owner.Some? then t.OwnerPerms(assets[n].kind) else {}, parentPerms)
    {
      var a := assets[n];
      ghost var owned := if a.owner.Some? then t.OwnerPerms(a.kind) else {};
      var rest := parentPerms;
      while rest != {}
        invariant rest <= parentPerms
        invariant n in table && table == old(table)[n := table[n]]
        invariant PartlyInherited(t, a, R, table[n], owned, parentPerms - rest)
        invariant CacheOk()
      {
        var pair :| pair in rest;
        var (u, p) := pair;
        ghost var copied := parentPerms - rest;
        assert parentPerms - (rest - {pair}) == copied + {(u, p)};
        rest := rest - {pair};
        if Some(u) == a.owner {
          CopiedNothing(t, a, R, table[n], owned, copied, u, p);
          continue;
        }
        if p !in translatePerm {
          if p !in t.heritable {
            CopiedNothing(t, a, R, table[n], owned, copied, u, p);
            continue;
          }
          translatePerm := translatePerm[p := t.heritable[p]];
        }
        var newPermission := Row(u, translatePerm[p], false, true);
        CopiedOneMore(t, a, R, table[n], owned, copied, u, p);
        assert newPermission !in table[n];
        table := table[n := table[n] + {newPermission}];
      }
    }

    /** recalculate_descendants_perms: children in any order, each recalculated before its own descendants. */
    method RecalculateDescendantsPerms(n: AssetId, ghost depth: Depths, ghost bound: nat)
      requires n in assets && table.Keys == assets.Keys && t.InheritanceIsInjective() && CacheOk()
      requires OwnersOk(assets) && Ranked(assets, depth) && forall m :: m in depth ==> depth[m] <= bound
      modifies this`table, this`translatePerm
      ensures CacheOk() && table.Keys == assets.Keys
      ensures RecalculatedBelow(t, assets, old(table), table, n)
      decreases bound - depth[n], 1
    {
      ghost var before := table;
      if assets[n].kind !in t.withChildren {
        AllChildrenDone(t, assets, before, table, n, {});
        return;
      }
      var children := Children(assets, n);
      assert forall c :: c in children <==> IsVisited(t, assets, c, n);
      if children == {} {
        AllChildrenDone(t, assets, before, table, n, children);
        return;
      }
      var effectivePerms := GetEffectivePerms(n);
      var rest := children;
      while rest != {}
        invariant rest <= children
        invariant table.Keys == assets.Keys && CacheOk()
        invariant RecalculatedUnder(t, assets, before, table, children - rest)
      {
        var child := AnyOf(rest);
        ghost var table1 := table;
        ghost var table2 := RecalculateChild(n, child, effectivePerms, depth, bound);
        OneMoreChild(t, assets, depth, before, table1, table2, table, n, children - rest, child);
        assert children - (rest - {child}) == children - rest + {child};
        rest := rest - {child};
      }
      AllChildrenDone(t, assets, before, table, n, children);
    }

    /** The body of that loop: replace the child's inherited rows, then go on below the child. */
    method RecalculateChild(n: AssetId, child: AssetId, effectivePerms: Perms, ghost depth: Depths, ghost bound: nat)
      returns (ghost table2: Table)
      requires n in assets && table.Keys == assets.Keys && t.InheritanceIsInjective() && CacheOk()
      requires OwnersOk(assets) && Ranked(assets, depth) && forall m :: m in depth ==> depth[m] <= bound
      requires IsVisited(t, assets, child, n)
      modifies this`table, this`translatePerm
      ensures CacheOk() && table.Keys == assets.Keys
      ensures table2 == old(table)[child := Recalculated(t, assets[child], old(table)[child], effectivePerms)]
      ensures RecalculatedBelow(t, assets, table2, table, child)
      decreases bound - depth[n], 0
    {
      // remove stale inherited perms
      table := table[child := OwnRows(table[child])];
      RecalculatedFromOwnRows(t, assets[child], old(table)[child], effectivePerms);
      RecalculateInheritedPerms(child, Some(effectivePerms), true);
      table2 := table;
      RecalculateDescendantsPerms(child, depth, bound);
    }

    /** recalculate_descendants_perms, called from outside the recursion. */
    method RecalculateAllBelow(n: AssetId)
      requires Valid() && n in assets
      modifies this`table, this`translatePerm
      ensures Valid() && RecalculatedBelow(t, assets, old(table), table, n)
    {
      ghost var depth :| Ranked(assets, depth);
      ghost var bound := DepthBound(depth);
      RecalculateDescendantsPerms(n, depth, bound);
    }

    /** ObjectPermissionMixin.save: store the asset, then recalculate it and everything below it. */
    method Save(n: AssetId, a: Asset)
      requires Valid() && SaveAllowed(State(assets, table), n, a)
      modifies this
      ensures Valid() && Step(t, old(State(assets, table)), Op.Save(n, a), State(assets, table))
      ensures n in table && forall u, p :: a.owner == Some(u) ==>
                (Row(u, p, false, true) in table[n] <==> p in t.Assignable(a.kind) && p != PartialSubmissions)
    {
      ghost var s := State(assets, table);
      assets := assets[n := a];
      if n !in table {
        table := table[n := {}];
      }
      NotOwnParent(assets, n);
      RecalculateInheritedPerms(n, None, false);
      assert table == Saved(t, s, n, a);
      RecalculateAllBelow(n);
      forall u, p | a.owner == Some(u)
        ensures Row(u, p, false, true) in table[n] <==> p in t.Assignable(a.kind) && p != PartialSubmissions
      {
        SavedRows(t, s, n, a, State(assets, table), u, p);
      }
    }

    /** Transfer._reassign_project_permissions, in one transaction: delete the new owner's rows, save
        the asset with its new owner, and grant manage_asset to the sender of the invitation. */
    method HandOver(n: AssetId, newOwner: User, sender: User) returns (raised: Option<PermError>)
      requires Valid() && n in assets && newOwner != ANONYMOUS_USER_ID
      modifies this
      ensures Valid() && Step(t, old(State(assets, table)), Op.HandOver(n, newOwner, sender), State(assets, table))
      ensures raised.Some? ==> assets == old(assets) && table == old(table)
    {
      ghost var s := State(assets, table);
      var savedAssets, savedTable := assets, table;
      table := table[n := set r | r in table[n] && r.user != newOwner];
      assert State(assets, table) == ReadyToHandOver(s, n, newOwner);
      NewOwnerIsAllowed(t, s, n, newOwner);
      Save(n, assets[n].(owner := Some(newOwner)));
      ghost var mid := State(assets, table);
      SafeWhenWf(t, assets[n].kind, sender, ManageAsset, false);
      raised := AssignPerm(n, sender, ManageAsset, false, false, map[]);
      if raised.Some? {
        assets, table := savedAssets, savedTable;
      }
      assert HandOverVia(t, s, n, newOwner, sender, mid, State(assets, table));
    }

    /** ProjectTrash.toggle_asset_statuses: a queryset update, without a save or a recalculation. */
    method ToggleAssetStatuses(ns: set<AssetId>, active: bool)
      requires Valid()
      modifies this`assets
      ensures Valid() && Step(t, old(State(assets, table)), Op.Toggle(ns, !active), State(assets, table))
    {
      ghost var s := State(assets, table);
      assets := map n | n in assets :: if n in ns then assets[n].(pendingDelete := !active) else assets[n];
      ToggleIsPlaced(t, s, ns, !active, State(assets, table));
    }

    /** Asset._update_partial_permissions, as far as it touches permission rows. */
    method UpdatePartialPermissions(n: AssetId, u: User, p: Perm, partialPerms: PartialPerms)
      returns (raised: Option<PermError>)
      requires n in assets && n in table && (partialPerms != map[] ==> Valid())
      modifies this`table, this`translatePerm
      ensures translatePerm == old(translatePerm)
      ensures match UpdatePartialOutcome(t, assets[n], Change(old(table)[n], false), u, p, partialPerms)
              case Err(e) => raised == Some(e) && table == old(table)
              case Ok(c) => raised == None && table == old(table)[n := c.rows]
      decreases if partialPerms == map[] then 0 else 1, NoPerms(), 0
    {
      raised := None;
      if p == PartialSubmissions {
        if assets[n].owner.None? || u == assets[n].owner.value || partialPerms == map[] {
          return Some(BadPartialPerms);
        }
        var newPartialPerms := UpdateToIncludeImplied(t, assets[n].kind, partialPerms);
        assert AddSubmissions in newPartialPerms <==> StoredUnder(t, assets[n].kind, partialPerms, AddSubmissions);
        if AddSubmissions in newPartialPerms {
          SafeWhenWf(t, assets[n].kind, u, AddSubmissions, false);
          raised := AssignPerm(n, u, AddSubmissions, false, true, map[]);
        }
      }
    }

    /** assign_perm. The recursion over implied permissions visits them in any order,
        and an exception anywhere below puts the table back as it was. */
    method AssignPerm(n: AssetId, u: User, p: Perm, deny: bool, deferRecalc: bool, partialPerms: PartialPerms)
      returns (raised: Option<PermError>)
      requires n in assets && n in table && t.PartialIsShallow() && Safe(t, assets[n].kind, u, p, deny)
      requires !deferRecalc || partialPerms != map[] ==> Valid()
      modifies this`table, this`translatePerm
      ensures old(Valid()) ==> Valid()
      ensures deferRecalc ==> translatePerm == old(translatePerm)
      ensures Changed(t, assets, old(table), table, n,
                      AssignOutcome(t, assets[n], old(table)[n], u, p, deny, deferRecalc, partialPerms))
      ensures raised == Raised(AssignOutcome(t, assets[n], old(table)[n], u, p, deny, deferRecalc, partialPerms))
      decreases if partialPerms == map[] then 0 else 1, Missing(t, assets[n].kind, table[n], u, p, deny), 5
    {
      var saved := table;
      var recalculates;
      DeferredDoesNotRecalculate(t, assets[n], table[n], u, p, deny, partialPerms);
      raised, recalculates := AssignRows(n, u, p, deny, deferRecalc, partialPerms);
      if raised.Some? {
        table := saved;
      } else if recalculates {
        RecalculateAllBelow(n);
      }
    }

    /** assign_perm up to the recalculation of descendants. */
    method AssignRows(n: AssetId, u: User, p: Perm, deny: bool, deferRecalc: bool, partialPerms: PartialPerms)
      returns (raised: Option<PermError>, recalculates: bool)
      requires n in assets && n in table && t.PartialIsShallow() && Safe(t, assets[n].kind, u, p, deny)
      requires partialPerms != map[] ==> Valid()
      modifies this`table, this`translatePerm
      ensures translatePerm == old(translatePerm)
      ensures RowsChanged(old(table), table, n,
                          AssignOutcome(t, assets[n], old(table)[n], u, p, deny, deferRecalc, partialPerms),
                          raised, recalculates)
      decreases if partialPerms == map[] then 0 else 1, Missing(t, assets[n].kind, table[n], u, p, deny), 4
    {
      recalculates := false;
      var a := assets[n];
      if p !in t.Assignable(a.kind) {
        return Some(CannotAssign), false;
      }
      if u == ANONYMOUS_USER_ID && !deny && p !in t.allowedAnonymous {
        return Some(AnonymousCannotHave), false;
      }
      if Row(u, p, deny, false) in table[n] {
        UpdatePartialKeepsFlag(t, a, table[n], u, p, partialPerms);
        raised := UpdatePartialPermissions(n, u, p, partialPerms);
        return;
      }
      raised, recalculates := AssignNewRow(n, u, p, deny, deferRecalc, partialPerms);
    }

    /** The rest of assign_perm, when there is no identical row. */
    method AssignNewRow(n: AssetId, u: User, p: Perm, deny: bool, deferRecalc: bool, partialPerms: PartialPerms)
      returns (raised: Option<PermError>, recalculates: bool)
      requires n in assets && n in table && t.PartialIsShallow() && Safe(t, assets[n].kind, u, p, deny)
      requires partialPerms != map[] ==> Valid()
      requires p in t.Assignable(assets[n].kind) && (u == ANONYMOUS_USER_ID && !deny ==> p in t.allowedAnonymous)
      requires !Explicit(table[n], u, p, deny)
      modifies this`table, this`translatePerm
      ensures translatePerm == old(translatePerm)
      ensures Refused(t, assets[n].kind, old(table)[n], u, p, deny) ==> raised == Some(BadPartialPerms)
      ensures !Refused(t, assets[n].kind, old(table)[n], u, p, deny) ==>
                var R1 := Assigned(t, old(table)[n], u, t.Cone(assets[n].kind, p, deny), deny);
                RowsChanged(old(table), table, n,
                            if deferRecalc then Ok(Change(R1, false))
                            else UpdatePartialOutcome(t, assets[n], Change(R1, true), u, p, partialPerms),
                            raised, recalculates)
      decreases if partialPerms == map[] then 0 else 1, Missing(t, assets[n].kind, table[n], u, p, deny), 3
    {
      recalculates := false;
      raised := AssignWithImplied(n, u, p, deny);
      if raised.Some? || deferRecalc {
        return;
      }
      UpdatePartialKeepsFlag(t, assets[n], table[n], u, p, partialPerms);
      raised := UpdatePartialPermissions(n, u, p, partialPerms);
      recalculates := true;
    }

    /** The middle of assign_perm: replace contradictory rows by the new one, then recurse. */
    method AssignWithImplied(n: AssetId, u: User, p: Perm, deny: bool) returns (raised: Option<PermError>)
      requires n in assets && n in table && t.PartialIsShallow() && Safe(t, assets[n].kind, u, p, deny)
      requires u == ANONYMOUS_USER_ID && !deny ==> p in t.allowedAnonymous
      requires !Explicit(table[n], u, p, deny)
      modifies this`table, this`translatePerm
      ensures translatePerm == old(translatePerm)
      ensures raised == (if Refused(t, assets[n].kind, old(table)[n], u, p, deny) then Some(BadPartialPerms) else None)
      ensures raised.None? ==>
                table == old(table)[n := Assigned(t, old(table)[n], u, t.Cone(assets[n].kind, p, deny), deny)]
      decreases 0, Missing(t, assets[n].kind, table[n], u, p, deny), 2
    {
      ghost var R0 := table[n];
      ReplaceContradictory(n, u, p, deny);
      AssigningFirst(t, assets[n].kind, R0, table[n], u, p, deny);
      ghost var S;
      raised, S := AssignImplied(n, u, p, deny, R0);
      if raised.None? {
        AssigningDone(t, assets[n], R0, table[n], u, p, deny, S);
      }
    }

    /** Delete the explicit rows that the new one contradicts, and create it. */
    method ReplaceContradictory(n: AssetId, u: User, p: Perm, deny: bool)
      requires n in table && !Explicit(table[n], u, p, deny)
      modifies this`table
      ensures table == old(table)[n := Assigned(t, old(table)[n], u, {p}, deny)]
    {
      var contradictory := set r | r in table[n] && r.user == u &&
                                   (r == Row(u, p, !deny, false) || (!deny && r.perm in t.Contradicts(p)));
      AssignedFirst(t, table[n], u, p, deny, contradictory);
      table := table[n := table[n] - contradictory + {Row(u, p, deny, false)}];
    }

    /** The loop over implied permissions. */
    method AssignImplied(n: AssetId, u: User, p: Perm, deny: bool, ghost R0: Rows)
      returns (raised: Option<PermError>, ghost S: set<Perm>)
      requires n in assets && n in table && t.PartialIsShallow() && Safe(t, assets[n].kind, u, p, deny)
      requires u == ANONYMOUS_USER_ID && !deny ==> p in t.allowedAnonymous
      requires Assigning(t, assets[n].kind, R0, table[n], u, p, deny, {p}, Others(t, assets[n].kind, p, deny))
      requires !Explicit(R0, u, p, deny)
      modifies this`table, this`translatePerm
      ensures translatePerm == old(translatePerm)
      ensures raised.Some? ==> raised.value == BadPartialPerms && Refused(t, assets[n].kind, R0, u, p, deny)
      ensures raised.None? ==>
                && n in table && table == old(table)[n := table[n]]
                && Assigning(t, assets[n].kind, R0, table[n], u, p, deny, S, {})
      decreases 0, Missing(t, assets[n].kind, R0, u, p, deny), 1
    {
      var implied := ImpliedPerms(t.implied, p, deny, Some(t.Assignable(assets[n].kind)));
      assert implied == Others(t, assets[n].kind, p, deny);
      raised, S := None, {p};
      while implied != {}
        invariant raised.None? && translatePerm == old(translatePerm)
        invariant n in table && table == old(table)[n := table[n]]
        invariant Assigning(t, assets[n].kind, R0, table[n], u, p, deny, S, implied)
      {
        var q :| q in implied;
        raised, S := AssignOther(n, u, p, q, deny, R0, S, implied);
        if raised.Some? {
          return;
        }
        implied := implied - {q};
      }
    }

    /** The recursive call of assign_perm for one of the implied permissions. */
    method AssignOther(n: AssetId, u: User, p: Perm, q: Perm, deny: bool, ghost R0: Rows, ghost S: set<Perm>,
                       ghost todo: set<Perm>)
      returns (raised: Option<PermError>, ghost S': set<Perm>)
      requires n in assets && n in table && t.PartialIsShallow() && Safe(t, assets[n].kind, u, p, deny)
      requires u == ANONYMOUS_USER_ID && !deny ==> p in t.allowedAnonymous
      requires Assigning(t, assets[n].kind, R0, table[n], u, p, deny, S, todo) && q in todo && !Explicit(R0, u, p, deny)
      modifies this`table, this`translatePerm
      ensures translatePerm == old(translatePerm)
      ensures raised.Some? ==> raised.value == BadPartialPerms && Refused(t, assets[n].kind, R0, u, p, deny)
      ensures raised.None? ==>
                && n in table && table == old(table)[n := table[n]]
                && Assigning(t, assets[n].kind, R0, table[n], u, p, deny, S', todo - {q})
      decreases 0, Missing(t, assets[n].kind, R0, u, p, deny), 0
    {
      var a := assets[n];
      SafeOther(t, a.kind, u, p, q, deny);
      MissingShrinks(t, a.kind, R0, table[n], u, p, deny, S, todo, q);
      AssigningNext(t, a, R0, table[n], u, p, deny, S, todo, q);
      S' := S + Visited(t, a.kind, table[n], u, q, deny);
      raised := AssignPerm(n, u, q, deny, true, map[]);
    }

    /** remove_perm. Implied permissions are visited in any order; an exception leaves the table as it was. */
    method RemovePerm(n: AssetId, u: User, p: Perm, deferRecalc: bool) returns (raised: Option<PermError>)
      requires n in assets && n in table && t.Acyclic() && t.PartialIsShallow() && t.AssignableOk()
      requires !Inherited(table[n], u, PartialSubmissions) && (!deferRecalc ==> Valid())
      modifies this`table, this`translatePerm
      ensures old(Valid()) ==> Valid()
      ensures deferRecalc ==> translatePerm == old(translatePerm)
      ensures Changed(t, assets, old(table), table, n, RemoveOutcome(t, assets[n], old(table)[n], u, p, deferRecalc))
      ensures raised == Raised(RemoveOutcome(t, assets[n], old(table)[n], u, p, deferRecalc))
      decreases t.ImpliedPermsOf(p, true), 3
    {
      RemoveOutcomeFlag(t, assets[n], table[n], u, p, deferRecalc);
      if p !in t.allAssignable {
        return Some(CannotRemove);
      }
      var saved := table;
      raised := RemoveRows(n, u, p);
      if raised.Some? {
        table := saved;
      } else if !deferRecalc {
        RecalculateAllBelow(n);
      }
    }

    /** remove_perm up to the recalculation of descendants. */
    method RemoveRows(n: AssetId, u: User, p: Perm) returns (raised: Option<PermError>)
      requires n in assets && n in table && t.Acyclic() && t.PartialIsShallow() && t.AssignableOk()
      requires !Inherited(table[n], u, PartialSubmissions) && p in t.allAssignable
      modifies this`table, this`translatePerm
      ensures translatePerm == old(translatePerm)
      ensures RowsChanged(old(table), table, n, RemoveOutcome(t, assets[n], old(table)[n], u, p, true), raised, false)
      decreases t.ImpliedPermsOf(p, true), 2
    {
      ghost var R0 := table[n];
      ghost var S := RemoveImplied(n, u, p);
      RemovingDone(t, assets[n], R0, table[n], u, p, S);
      var inherited := Row(u, p, false, true) in table[n];
      table := table[n := table[n] - {Row(u, p, false, false), Row(u, p, false, true)}];
      raised := None;
      if inherited {
        DeferredDoesNotRecalculate(t, assets[n], table[n], u, p, true, map[]);
        raised := AssignPerm(n, u, p, true, true, map[]);
      }
    }

    /** The loop over the permissions that imply p. */
    method RemoveImplied(n: AssetId, u: User, p: Perm) returns (ghost S: set<Perm>)
      requires n in assets && n in table && t.Acyclic() && t.PartialIsShallow() && t.AssignableOk()
      requires !Inherited(table[n], u, PartialSubmissions)
      modifies this`table, this`translatePerm
      ensures translatePerm == old(translatePerm)
      ensures n in table && table == old(table)[n := table[n]]
      ensures Removing(t, assets[n].kind, old(table)[n], table[n], u, p, S, {})
      decreases t.ImpliedPermsOf(p, true), 1
    {
      ghost var R0 := table[n];
      var implied := ImpliedPerms(t.implied, p, true, Some(t.Assignable(assets[n].kind)));
      assert implied == Others(t, assets[n].kind, p, true);
      RemovingFirst(t, assets[n].kind, R0, u, p);
      S := {};
      while implied != {}
        invariant translatePerm == old(translatePerm)
        invariant n in table && table == old(table)[n := table[n]]
        invariant Removing(t, assets[n].kind, R0, table[n], u, p, S, implied)
      {
        var q :| q in implied;
        S := RemoveOther(n, u, p, q, R0, S, implied);
        implied := implied - {q};
      }
    }

    /** The recursive call of remove_perm for one of them; it never raises. */
    method RemoveOther(n: AssetId, u: User, p: Perm, q: Perm, ghost R0: Rows, ghost S: set<Perm>, ghost todo: set<Perm>)
      returns (ghost S': set<Perm>)
      requires n in assets && n in table && t.Acyclic() && t.PartialIsShallow() && t.AssignableOk()
      requires !Inherited(R0, u, PartialSubmissions)
      requires Removing(t, assets[n].kind, R0, table[n], u, p, S, todo) && q in todo
      modifies this`table, this`translatePerm
      ensures translatePerm == old(translatePerm)
      ensures n in table && table == old(table)[n := table[n]]
      ensures Removing(t, assets[n].kind, R0, table[n], u, p, S', todo - {q})
      decreases t.ImpliedPermsOf(p, true), 0
    {
      RemovingNext(t, assets[n], R0, table[n], u, p, S, todo, q);
      ConeOfOtherIsOthers(t, assets[n].kind, p, q);
      RemoveOutcomeFlag(t, assets[n], table[n], u, q, true);
      S' := S + t.Cone(assets[n].kind, q, true);
      var raised := RemovePerm(n, u, q, true);
      assert raised.None?;
    }

    /** copy_permissions_from, with the source rows in the order in which the database lists them.
        The last recalculation is that of the target alone. */
    method CopyPermissionsFrom(n: AssetId, src: AssetId, sourcePermissions: seq<Row>, filters: StoredFilters)
      returns (raised: Option<PermError>)
      requires Valid() && n in assets && src in assets
      // source_object.permissions.all(), read once the rows of the target are deleted
      requires Distinct(sourcePermissions)
      requires forall r :: r in sourcePermissions <==> r in table[src] && (src == n ==> assets[n].owner == Some(r.user))
      modifies this`table, this`translatePerm
      ensures Valid()
      ensures Step(t, old(State(assets, table)), Op.Copy(n, src, sourcePermissions, filters), State(assets, table))
      ensures raised == Raised(CopyOutcomeAt(t, old(State(assets, table)), n, sourcePermissions, filters))
    {
      ghost var s := State(assets, table);
      var saved := table;
      assert Listing(sourcePermissions, SourceRows(assets, table, n, src));
      table := table[n := OwnersRows(assets[n], table[n])];
      raised := AssignAll(n, sourcePermissions, filters);
      ghost var mid := table;
      if raised.Some? {
        table := saved;
        assert CopyVia(t, s, n, sourcePermissions, filters, saved, State(assets, table));
        return;
      }
      ghost var c := CopyOutcomeAt(t, s, n, sourcePermissions, filters).value;
      CopyChanged(t, s, n, c, mid);
      NotOwnParent(assets, n);
      RecalculateInheritedPerms(n, None, false);
      assert CopyVia(t, s, n, sourcePermissions, filters, mid, State(assets, table));
    }

    /** The loop that assigns the source rows one after another. */
    method AssignAll(n: AssetId, list: seq<Row>, filters: StoredFilters) returns (raised: Option<PermError>)
      requires Valid() && n in assets
      modifies this`table, this`translatePerm
      ensures Valid()
      ensures raised == Raised(CopyOutcome(t, assets[n], old(table)[n], list, filters))
      ensures raised.None? ==>
                Changed(t, assets, old(table), table, n, CopyOutcome(t, assets[n], old(table)[n], list, filters))
    {
      raised := None;
      ghost var before := table;
      for i := 0 to |list|
        invariant raised.None? && Valid() && CopyOutcome(t, assets[n], before[n], list[..i], filters).Ok?
        invariant Changed(t, assets, before, table, n, CopyOutcome(t, assets[n], before[n], list[..i], filters))
      {
        raised := AssignOne(n, list, i, filters, before);
        if raised.Some? {
          CopyingStopped(t, assets[n], before[n], list, i + 1, filters);
          return;
        }
      }
      assert list[..|list|] == list;
    }

    /** One source row; the owner's rows are skipped. */
    method AssignOne(n: AssetId, list: seq<Row>, i: nat, filters: StoredFilters, ghost before: Table)
      returns (raised: Option<PermError>)
      requires Valid() && n in assets && i < |list| && before.Keys == assets.Keys
      requires CopyOutcome(t, assets[n], before[n], list[..i], filters).Ok?
      requires Changed(t, assets, before, table, n, CopyOutcome(t, assets[n], before[n], list[..i], filters))
      modifies this`table, this`translatePerm
      ensures Valid()
      ensures raised == Raised(CopyOutcome(t, assets[n], before[n], list[..i + 1], filters))
      ensures raised.None? ==>
                Changed(t, assets, before, table, n, CopyOutcome(t, assets[n], before[n], list[..i + 1], filters))
    {
      var r := list[i];
      ghost var c := CopyOutcome(t, assets[n], before[n], list[..i], filters).value;
      assert list[..i + 1] == list[..i] + [r];
      CopyOneMore(t, assets[n], before[n], list[..i], r, filters);
      ChangedRows(t, assets, before, table, n, c);
      raised := None;
      if assets[n].owner != Some(r.user) {
        SafeWhenWf(t, assets[n].kind, r.user, r.perm, r.deny);
        ghost var table1 := table;
        raised := AssignPerm(n, r.user, r.perm, r.deny, false, FiltersFor(filters, r));
        if raised.None? {
          ChangedComposes(t, assets, before, table1, table, n, c, r, FiltersFor(filters, r));
        }
      }
    }
  }

  lemma ChangedRows(t: Tables, assets: Assets, before: Table, after: Table, n: AssetId, c: Change)
    requires IsForest(assets) && n in assets && before.Keys == assets.Keys &&
             Changed(t, assets, before, after, n, Ok(c))
    ensures after.Keys == assets.Keys && after[n] == c.rows
  {
    NotBelowItself(t, assets, n);
  }

  /** The rows of the target were replaced before the first row was assigned. */
  lemma CopyChanged(t: Tables, s: State, n: AssetId, c: Change, mid: Table)
    requires WellPlaced(t, s.assets, s.table) && n in s.assets
    requires Changed(t, s.assets, s.table[n := OwnersRows(s.assets[n], s.table[n])], mid, n, Ok(c))
    ensures Changed(t, s.assets, s.table, mid, n, Ok(c)) && mid[n] == c.rows
    ensures ParentPerms(t, s.assets, mid, n) == ParentPerms(t, s.assets, s.table, n)
  {
    assert s.table[n := OwnersRows(s.assets[n], s.table[n])][n := c.rows] == s.table[n := c.rows];
    ChangedRows(t, s.assets, s.table, mid, n, c);
    ParentIsUntouched(t, s, n, c, mid);
  }

  /** Two changes of the rows of n, with their recalculations, are one. */
  lemma ChangedComposes(t: Tables, assets: Assets, before: Table, table1: Table, table2: Table, n: AssetId, c: Change,
                        r: Row, partialPerms: PartialPerms)
    requires WellPlaced(t, assets, before) && WellPlaced(t, assets, table1) && n in assets
    requires Changed(t, assets, before, table1, n, Ok(c)) && table1[n] == c.rows
    requires AssignOutcome(t, assets[n], c.rows, r.user, r.perm, r.deny, false, partialPerms).Ok?
    requires Changed(t, assets, table1, table2, n,
                     AssignOutcome(t, assets[n], c.rows, r.user, r.perm, r.deny, false, partialPerms))
    ensures var c2 := AssignOutcome(t, assets[n], c.rows, r.user, r.perm, r.deny, false, partialPerms).value;
            Changed(t, assets, before, table2, n, Ok(Change(c2.rows, c.recalculates || c2.recalculates)))
  {
    var c2 := AssignOutcome(t, assets[n], c.rows, r.user, r.perm, r.deny, false, partialPerms).value;
    assert before[n := c.rows][n := c2.rows] == before[n := c2.rows];
    if c2.recalculates {
      if c.recalculates {
        RecalculatedBelowComposes(t, assets, before, table1, table2, n, c.rows, c2.rows);
      }
    } else if c.recalculates && c2.rows != c.rows {
      forall m | m in assets ensures !StrictlyBelow(t, assets, m, n) {
        EarlyReturnWalksNowhere(t, assets, n, c.rows, r.user, r.perm, r.deny, partialPerms, m);
      }
    }
  }
}
