/** copy_permissions_from as a step on a forest of assets: it keeps every invariant, but its last
    recalculation stops at the target, so that the target's children can be left behind. */
module CopySteps {
  import opened Wrappers
  import opened PermissionTables
  import opened PartialPermissions
  import opened PermissionRows
  import opened PermissionInvariants
  import opened PermissionInheritance
  import opened PermissionSaves
  import opened AssetForest
  import opened PermissionSteps
  import opened PermissionConsistency
  import opened PermissionShifts
  import opened PermissionAgreement
  import opened CopyPermissions
  import opened CopyWrites

  /** The rows that are copied; the target's own have been deleted first, its owner's excepted. */
  function SourceRows(assets: Assets, table: Table, n: AssetId, src: AssetId): Rows
    requires n in assets && n in table && src in table
  {
    if src == n then OwnersRows(assets[n], table[n]) else table[src]
  }

  ghost function CopyOutcomeAt(t: Tables, s: State, n: AssetId, list: seq<Row>, filters: StoredFilters): Outcome
    requires n in s.assets && n in s.table
  {
    CopyOutcome(t, s.assets[n], OwnersRows(s.assets[n], s.table[n]), list, filters)
  }

  /** The target's rows in the end. */
  ghost function FinalRows(t: Tables, s: State, n: AssetId, list: seq<Row>, filters: StoredFilters): Rows
    requires n in s.assets && n in s.table && CopyOutcomeAt(t, s, n, list, filters).Ok?
  {
    Recalculated(t, s.assets[n], CopyOutcomeAt(t, s, n, list, filters).value.rows, ParentPerms(t, s.assets, s.table, n))
  }

  /** A copy, through the table in which all rows are assigned. */
  ghost predicate CopyVia(t: Tables, s: State, n: AssetId, list: seq<Row>, filters: StoredFilters, mid: Table,
                          s': State)
    requires n in s.assets && n in s.table
  {
    && s'.assets == s.assets
    && Changed(t, s.assets, s.table, mid, n, CopyOutcomeAt(t, s, n, list, filters))
    && s'.table == if CopyOutcomeAt(t, s, n, list, filters).Err? then s.table
                   else mid[n := FinalRows(t, s, n, list, filters)]
  }

  ghost predicate CopyStep(t: Tables, s: State, n: AssetId, src: AssetId, list: seq<Row>, filters: StoredFilters,
                           s': State) {
    && n in s.assets && n in s.table && src in s.table
    && Listing(list, SourceRows(s.assets, s.table, n, src))
    && exists mid :: CopyVia(t, s, n, list, filters, mid, s')
  }

  // ---- What a copy keeps ----

  lemma CopyViaIsSound(t: Tables, s: State, n: AssetId, list: seq<Row>, filters: StoredFilters, mid: Table, s': State)
    requires Sound(t, s) && n in s.assets && CopyVia(t, s, n, list, filters, mid, s')
    requires CopyOutcomeAt(t, s, n, list, filters).Ok?
    ensures Sound(t, State(s.assets, mid)) && Sound(t, s')
    ensures ParentPerms(t, s.assets, mid, n) == ParentPerms(t, s.assets, s.table, n)
  {
    var a, c := s.assets[n], CopyOutcomeAt(t, s, n, list, filters).value;
    OwnersRowsAreOk(t, a, s.table[n]);
    CopyKeepsNodeOk(t, a, OwnersRows(a, s.table[n]), list, filters);
    if c.recalculates {
      ChangeIsSound(t, s, n, c.rows, State(s.assets, mid));
    } else {
      RowsChangeIsOk(t, s.assets, s.table, n, c.rows);
    }
    ParentIsUntouched(t, s, n, c, mid);
    var parentKind := ParentIsOk(t, s, n);
    OwnRowsStaySound(t, a, a, c.rows);
    RecalculatedIsNodeOk(t, a, c.rows, parentKind, ParentPerms(t, s.assets, s.table, n));
    RowsChangeIsOk(t, s.assets, mid, n, FinalRows(t, s, n, list, filters));
  }

  lemma CopiedRowsAreConsistent(t: Tables, s: State, n: AssetId, list: seq<Row>, filters: StoredFilters,
                                agreeing: bool)
    requires Consistent(t, s, agreeing) && n in s.assets && CopyOutcomeAt(t, s, n, list, filters).Ok?
    ensures RowsConsistent(t, s.assets[n], CopyOutcomeAt(t, s, n, list, filters).value.rows, agreeing)
    ensures RowsConsistent(t, s.assets[n], FinalRows(t, s, n, list, filters), agreeing)
  {
    var a, O := s.assets[n], OwnersRows(s.assets[n], s.table[n]);
    FewerRowsAreConsistent(t, a, s.table[n], O, agreeing);
    CopyKeepsConsistent(t, a, O, list, filters, agreeing);
    var C := CopyOutcomeAt(t, s, n, list, filters).value.rows;
    PublicExplicitIsAllowed(t, a, C);
    assert OwnerOk(a);
    RecalculatedIsConsistent(t, a, C, ParentPerms(t, s.assets, s.table, n), agreeing);
  }

  /** Whatever the explicit rows: a copy leaves consistent ones. */
  lemma CopyIsConsistent(t: Tables, s: State, n: AssetId, src: AssetId, list: seq<Row>, filters: StoredFilters,
                         s': State, agreeing: bool)
    requires Consistent(t, s, agreeing) && CopyStep(t, s, n, src, list, filters, s')
    ensures Consistent(t, s', agreeing)
  {
    var outcome := CopyOutcomeAt(t, s, n, list, filters);
    var mid :| CopyVia(t, s, n, list, filters, mid, s');
    if outcome.Ok? {
      CopiedRowsAreConsistent(t, s, n, list, filters, agreeing);
      ChangeIsConsistent(t, s, n, outcome, State(s.assets, mid), agreeing);
      var final: Outcome := Ok(Change(FinalRows(t, s, n, list, filters), false));
      ChangeIsConsistent(t, State(s.assets, mid), n, final, s', agreeing);
    }
  }

  lemma ParentIsUntouched(t: Tables, s: State, n: AssetId, c: Change, mid: Table)
    requires WellPlaced(t, s.assets, s.table) && n in s.assets && Changed(t, s.assets, s.table, mid, n, Ok(c))
    ensures ParentPerms(t, s.assets, mid, n) == ParentPerms(t, s.assets, s.table, n)
  {
    if c.recalculates {
      ParentStays(t, s.assets, s.table, mid, n, c.rows);
    } else {
      NotOwnParent(s.assets, n);
    }
  }

  // ---- The children of the target ----

  /** The copy recalculates the child on the way: it has a row of anyone but the
      target's owner to assign, and the walk comes to the child. */
  ghost predicate ComesTo(t: Tables, s: State, n: AssetId, list: seq<Row>, m: AssetId)
    requires n in s.assets
  {
    HasForeign(s.assets[n], list) && IsVisited(t, s.assets, m, n)
  }

  /** The state of the target that its child was last recalculated for: if the copy comes to
      the child the one after the copied rows, else the one before the copy. */
  ghost function LastSeen(t: Tables, s: State, n: AssetId, list: seq<Row>, filters: StoredFilters, m: AssetId): Rows
    requires n in s.assets && n in s.table && CopyOutcomeAt(t, s, n, list, filters).Ok?
  {
    if ComesTo(t, s, n, list, m) then CopyOutcomeAt(t, s, n, list, filters).value.rows else s.table[n]
  }

  /** What a copy that does not raise makes of the target's explicit rows: the owner's stay,
      and a user of whom the source has no row is left with none. */
  lemma CopyReplacesRows(t: Tables, s: State, n: AssetId, src: AssetId, list: seq<Row>, filters: StoredFilters,
                         s': State, v: User, p: Perm, deny: bool)
    requires WellPlaced(t, s.assets, s.table) && CopyStep(t, s, n, src, list, filters, s')
    ensures n in s'.table && (CopyOutcomeAt(t, s, n, list, filters).Err? ==> s' == s)
    ensures CopyOutcomeAt(t, s, n, list, filters).Ok? && s.assets[n].owner == Some(v) ==>
              (Row(v, p, deny, false) in s'.table[n] <==> Row(v, p, deny, false) in s.table[n])
    ensures CopyOutcomeAt(t, s, n, list, filters).Ok? && s.assets[n].owner != Some(v)
            && (src == n || forall r :: r in s.table[src] ==> r.user != v) ==>
              Row(v, p, deny, false) !in s'.table[n]
  {
    var a, O := s.assets[n], OwnersRows(s.assets[n], s.table[n]);
    var mid :| CopyVia(t, s, n, list, filters, mid, s');
    if CopyOutcomeAt(t, s, n, list, filters).Ok? {
      var C := CopyOutcome(t, a, O, list, filters).value.rows;
      assert Explicit(FinalRows(t, s, n, list, filters), v, p, deny) <==> Explicit(C, v, p, deny);
      if a.owner == Some(v) {
        CopyKeepsOwnersRows(t, a, O, list, filters, Row(v, p, deny, false));
      } else {
        CopyTracks(t, a, O, list, filters, v);
        WrittenIff(t, a.kind, list, filters, v, p, deny);
      }
    }
  }

  // ---- What changes behind the children's back ----

  /** u, not the owner of the target, has q there in the end but had not when the child was last recalculated, or the
      reverse. If the copy comes to the child: the parent of the target hands q down, and no source row of u decides
      it. If the source has rows of the target's owner only: u had q, and the parent does not hand it down, or
      the reverse. Else: u had q and has not in the end, or the reverse. */
  ghost predicate Shifts(t: Tables, s: State, n: AssetId, src: AssetId, list: seq<Row>, filters: StoredFilters,
                         m: AssetId, u: User, q: Perm)
    requires n in s.assets && n in s.table && src in s.table && CopyOutcomeAt(t, s, n, list, filters).Ok?
  {
    var a, source := s.assets[n], SourceRows(s.assets, s.table, n, src);
    var given := Inherits(t, a, ParentPerms(t, s.assets, s.table, n), u, q);
    a.owner != Some(u) &&
    if !HasForeign(a, list) then given != Effective(t, s.table[n], u, q)
    else if IsVisited(t, s.assets, m, n) then given && !Decided(t, a.kind, source, filters, u, q)
    else Differs(t, s.table[n], FinalRows(t, s, n, list, filters), u, q)
  }

  /** The child has an explicit row of its own wherever something it could inherit shifts. */
  ghost predicate IsShielded(t: Tables, s: State, n: AssetId, src: AssetId, list: seq<Row>, filters: StoredFilters,
                             m: AssetId)
    requires n in s.assets && n in s.table && src in s.table && CopyOutcomeAt(t, s, n, list, filters).Ok?
    requires m in s.assets && m in s.table
  {
    forall u, q :: q in t.heritable && Shifts(t, s, n, src, list, filters, m, u, q) ==>
                     !IsOpen(s.assets[m], s.table[m], u, t.heritable[q])
  }

  /** Every child of the target is shielded, and the copied rows strand nothing further down. */
  ghost predicate CopyReaches(t: Tables, s: State, n: AssetId, src: AssetId, list: seq<Row>, filters: StoredFilters)
    requires n in s.assets && n in s.table && src in s.table && CopyOutcomeAt(t, s, n, list, filters).Ok?
  {
    && (forall m :: IsChild(s.assets, m, n) && m in s.table ==> IsShielded(t, s, n, src, list, filters, m))
    && (HasForeign(s.assets[n], list) ==>
          forall m :: IsStranded(t, s.assets, s.table, n, CopyOutcomeAt(t, s, n, list, filters).value.rows, m) ==>
                        IsChild(s.assets, m, n))
  }

  /** The copy raises, or reaches everything. */
  ghost predicate CopyLasts(t: Tables, s: State, n: AssetId, src: AssetId, list: seq<Row>, filters: StoredFilters)
    requires n in s.assets && n in s.table && src in s.table
  {
    CopyOutcomeAt(t, s, n, list, filters).Ok? ==> CopyReaches(t, s, n, src, list, filters)
  }

  /** For the target's owner nothing changes. */
  lemma OwnerIsUnmoved(t: Tables, s: State, n: AssetId, list: seq<Row>, filters: StoredFilters, u: User, q: Perm)
    requires n in s.assets && n in s.table && SettledAt(t, s.assets, s.table, n) && s.assets[n].owner == Some(u)
    requires CopyOutcomeAt(t, s, n, list, filters).Ok?
    ensures var C, F := CopyOutcomeAt(t, s, n, list, filters).value.rows, FinalRows(t, s, n, list, filters);
            !Differs(t, s.table[n], F, u, q) && !Differs(t, C, F, u, q)
  {
    var a, R, parentPerms := s.assets[n], s.table[n], ParentPerms(t, s.assets, s.table, n);
    var C := CopyOutcomeAt(t, s, n, list, filters).value.rows;
    forall deny, inherited ensures Row(u, q, deny, inherited) in C <==> Row(u, q, deny, inherited) in R {
      CopyKeepsOwnersRows(t, a, OwnersRows(a, R), list, filters, Row(u, q, deny, inherited));
    }
    RecalculatedEffective(t, a, C, parentPerms, u, q);
    RecalculatedEffective(t, a, R, parentPerms, u, q);
    assert Effective(t, R, u, q) <==> Effective(t, Recalculated(t, a, R, parentPerms), u, q);
    assert Explicit(C, u, q, false) <==> Explicit(R, u, q, false);
    assert Explicit(C, u, q, true) <==> Explicit(R, u, q, true);
  }

  /** With a source row of anyone but the target's owner: how the last recalculation changes the copied rows. */
  lemma ForeignShifts(t: Tables, s: State, n: AssetId, src: AssetId, list: seq<Row>, filters: StoredFilters, u: User,
                      q: Perm)
    requires WellPlaced(t, s.assets, s.table) && n in s.assets && src in s.table && s.assets[n].owner != Some(u)
    requires Listing(list, SourceRows(s.assets, s.table, n, src)) && CopyOutcomeAt(t, s, n, list, filters).Ok?
    ensures Differs(t, CopyOutcomeAt(t, s, n, list, filters).value.rows, FinalRows(t, s, n, list, filters), u, q) <==>
            && Inherits(t, s.assets[n], ParentPerms(t, s.assets, s.table, n), u, q)
            && !Decided(t, s.assets[n].kind, SourceRows(s.assets, s.table, n, src), filters, u, q)
  {
    var a, parentPerms := s.assets[n], ParentPerms(t, s.assets, s.table, n);
    var O, C := OwnersRows(a, s.table[n]), CopyOutcomeAt(t, s, n, list, filters).value.rows;
    forall deny ensures Row(u, q, deny, true) !in C {
      CopyKeepsOwnersRows(t, a, O, list, filters, Row(u, q, deny, true));
    }
    RecalculatedEffective(t, a, C, parentPerms, u, q);
    if Inherits(t, a, parentPerms, u, q) {
      InheritsIsInheritable(t, a, parentPerms, u, q);
      assert OwnerOk(a);
      InheritsFits(t, a, parentPerms, u, q);
      CopyDecidesIff(t, a, O, SourceRows(s.assets, s.table, n, src), list, filters, u, q);
    }
  }

  /** With source rows of the target's owner only, or none. */
  lemma OwnersShifts(t: Tables, s: State, n: AssetId, list: seq<Row>, filters: StoredFilters, u: User, q: Perm)
    requires WellPlaced(t, s.assets, s.table) && n in s.assets && s.assets[n].owner != Some(u)
    requires !HasForeign(s.assets[n], list) && CopyOutcomeAt(t, s, n, list, filters).Ok?
    ensures Effective(t, FinalRows(t, s, n, list, filters), u, q) <==>
            Inherits(t, s.assets[n], ParentPerms(t, s.assets, s.table, n), u, q)
  {
    var a, parentPerms := s.assets[n], ParentPerms(t, s.assets, s.table, n);
    var O := OwnersRows(a, s.table[n]);
    OwnersListNeverRaises(t, a, O, list, filters);
    RecalculatedEffective(t, a, O, parentPerms, u, q);
    if Inherits(t, a, parentPerms, u, q) {
      assert OwnerOk(a);
      InheritsFits(t, a, parentPerms, u, q);
    }
  }

  lemma ShiftsIff(t: Tables, s: State, n: AssetId, src: AssetId, list: seq<Row>, filters: StoredFilters, m: AssetId,
                  u: User, q: Perm)
    requires WellPlaced(t, s.assets, s.table) && n in s.assets && src in s.table && SettledAt(t, s.assets, s.table, n)
    requires Listing(list, SourceRows(s.assets, s.table, n, src)) && CopyOutcomeAt(t, s, n, list, filters).Ok?
    ensures Shifts(t, s, n, src, list, filters, m, u, q) <==>
            Differs(t, LastSeen(t, s, n, list, filters, m), FinalRows(t, s, n, list, filters), u, q)
  {
    if s.assets[n].owner == Some(u) {
      OwnerIsUnmoved(t, s, n, list, filters, u, q);
    } else if HasForeign(s.assets[n], list) {
      ForeignShifts(t, s, n, src, list, filters, u, q);
    } else {
      OwnersShifts(t, s, n, list, filters, u, q);
    }
  }

  // ---- When the forest stays settled ----

  /** A child of the target agrees with it in the end exactly when it is shielded. */
  lemma ChildSettledIff(t: Tables, s: State, n: AssetId, src: AssetId, list: seq<Row>, filters: StoredFilters,
                        s': State, m: AssetId)
    requires WellPlaced(t, s.assets, s.table) && CopyStep(t, s, n, src, list, filters, s')
    requires CopyOutcomeAt(t, s, n, list, filters).Ok? && IsChild(s.assets, m, n)
    requires SettledAt(t, s.assets, s.table, n) && SettledAt(t, s.assets, s.table, m)
    ensures SettledAt(t, s'.assets, s'.table, m) <==> IsShielded(t, s, n, src, list, filters, m)
  {
    var mid :| CopyVia(t, s, n, list, filters, mid, s');
    NotOwnParent(s.assets, n);
    var seen, final := LastSeen(t, s, n, list, filters, m), FinalRows(t, s, n, list, filters);
    ChildIsAsLastSeen(t, s, n, list, filters, mid, m);
    UnmovedIff(t, s.assets[m], s.table[m], mid[m], seen, final);
    forall u, q ensures Shifts(t, s, n, src, list, filters, m, u, q) <==> Differs(t, seen, final, u, q) {
      ShiftsIff(t, s, n, src, list, filters, m, u, q);
    }
  }

  lemma ChildIsAsLastSeen(t: Tables, s: State, n: AssetId, list: seq<Row>, filters: StoredFilters, mid: Table,
                          m: AssetId)
    requires WellPlaced(t, s.assets, s.table) && n in s.assets && CopyOutcomeAt(t, s, n, list, filters).Ok?
    requires Changed(t, s.assets, s.table, mid, n, CopyOutcomeAt(t, s, n, list, filters))
    requires IsChild(s.assets, m, n) && m != n && SettledAt(t, s.assets, s.table, m)
    ensures Settled(t, s.assets[m], mid[m], EffectivePerms(t, LastSeen(t, s, n, list, filters, m)))
    ensures forall u, p, deny :: Explicit(mid[m], u, p, deny) <==> Explicit(s.table[m], u, p, deny)
  {
    var seen := LastSeen(t, s, n, list, filters, m);
    CopyRecalculatesIff(t, s.assets[n], OwnersRows(s.assets[n], s.table[n]), list, filters);
    NotBelowItself(t, s.assets, n);
    if ComesTo(t, s, n, list, m) {
      assert StrictlyBelow(t, s.assets, m, n) by {
        assert Climbs(t, s.assets, n, n, 0);
      }
      assert mid[m] == Recalculated(t, s.assets[m], s.table[m], EffectivePerms(t, seen));
      RecalculatedIsSettled(t, s.assets[m], s.table[m], EffectivePerms(t, seen));
    } else {
      assert mid[m] == s.table[m];
    }
  }

  /** The target is settled in the end. */
  lemma TargetIsSettled(t: Tables, s: State, n: AssetId, list: seq<Row>, filters: StoredFilters, mid: Table, s': State)
    requires WellPlaced(t, s.assets, s.table) && n in s.assets && CopyVia(t, s, n, list, filters, mid, s')
    requires CopyOutcomeAt(t, s, n, list, filters).Ok?
    ensures SettledAt(t, s'.assets, s'.table, n)
  {
    var c := CopyOutcomeAt(t, s, n, list, filters).value;
    RecalculatedIsSettled(t, s.assets[n], c.rows, ParentPerms(t, s.assets, s.table, n));
    ParentIsUntouched(t, s, n, c, mid);
    NotOwnParent(s.assets, n);
    assert ParentPerms(t, s.assets, s'.table, n) == ParentPerms(t, s.assets, mid, n);
  }

  /** Whatever is neither the target nor a child of it stays settled exactly when the copied rows do not strand it. */
  lemma FurtherDownSettledIff(t: Tables, s: State, n: AssetId, list: seq<Row>, filters: StoredFilters, mid: Table,
                              s': State, m: AssetId)
    requires WellPlaced(t, s.assets, s.table) && n in s.assets && CopyVia(t, s, n, list, filters, mid, s')
    requires CopyOutcomeAt(t, s, n, list, filters).Ok? && AllSettled(t, s.assets, s.table)
    requires m in s.assets && m != n && !IsChild(s.assets, m, n)
    ensures SettledAt(t, s'.assets, s'.table, m) <==>
            !(HasForeign(s.assets[n], list) &&
              IsStranded(t, s.assets, s.table, n, CopyOutcomeAt(t, s, n, list, filters).value.rows, m))
  {
    var c := CopyOutcomeAt(t, s, n, list, filters).value;
    CopyRecalculatesIff(t, s.assets[n], OwnersRows(s.assets[n], s.table[n]), list, filters);
    assert ParentPerms(t, s.assets, s'.table, m) == ParentPerms(t, s.assets, mid, m);
    if c.recalculates {
      WalkSettlesOtherIff(t, s.assets, s.table, mid, n, c.rows, m);
    } else {
      assert ParentPerms(t, s.assets, mid, m) == ParentPerms(t, s.assets, s.table, m);
      assert SettledAt(t, s.assets, s.table, m);
    }
  }

  /** copy_permissions_from keeps every invariant. */
  lemma CopyIsSound(t: Tables, s: State, n: AssetId, src: AssetId, list: seq<Row>, filters: StoredFilters, s': State)
    requires Sound(t, s) && CopyStep(t, s, n, src, list, filters, s')
    ensures Sound(t, s')
  {
    var mid :| CopyVia(t, s, n, list, filters, mid, s');
    if CopyOutcomeAt(t, s, n, list, filters).Ok? {
      CopyViaIsSound(t, s, n, list, filters, mid, s');
    }
  }

  /** It keeps the agreement of the whole forest with a recalculation exactly when it raises or reaches everything. */
  lemma CopySettlesIff(t: Tables, s: State, n: AssetId, src: AssetId, list: seq<Row>, filters: StoredFilters, s': State)
    requires WellPlaced(t, s.assets, s.table) && CopyStep(t, s, n, src, list, filters, s')
    requires AllSettled(t, s.assets, s.table)
    ensures AllSettled(t, s'.assets, s'.table) <==> CopyLasts(t, s, n, src, list, filters)
  {
    var mid :| CopyVia(t, s, n, list, filters, mid, s');
    if CopyOutcomeAt(t, s, n, list, filters).Ok? {
      var C := CopyOutcomeAt(t, s, n, list, filters).value.rows;
      assert SettledAt(t, s.assets, s.table, n);
      TargetIsSettled(t, s, n, list, filters, mid, s');
      NotStrandedItself(t, s.assets, s.table, n, C);
      forall m | m in s.assets && m != n
        ensures SettledAt(t, s'.assets, s'.table, m) <==>
                if IsChild(s.assets, m, n) then IsShielded(t, s, n, src, list, filters, m)
                else !(HasForeign(s.assets[n], list) && IsStranded(t, s.assets, s.table, n, C, m))
      {
        assert SettledAt(t, s.assets, s.table, m);
        if IsChild(s.assets, m, n) {
          ChildSettledIff(t, s, n, src, list, filters, s', m);
        } else {
          FurtherDownSettledIff(t, s, n, list, filters, mid, s', m);
        }
      }
      NotOwnParent(s.assets, n);
    }
  }

  // ---- When that is, and cases in which it is not ----

  /** Where the walk passes nothing by, a copy with a row of anyone but the target's owner reaches everything exactly
      when each child has an explicit row for whatever the target's parent hands down and no source row decides:
      whether it does can be told before the call, and does not depend on the order of the rows. */
  lemma VisitedCopyReachesIff(t: Tables, s: State, n: AssetId, src: AssetId, list: seq<Row>, filters: StoredFilters)
    requires n in s.assets && n in s.table && src in s.table && CopyOutcomeAt(t, s, n, list, filters).Ok?
    requires AllVisited(t, s.assets) && HasForeign(s.assets[n], list) && s.table.Keys == s.assets.Keys
    ensures CopyReaches(t, s, n, src, list, filters) <==>
            forall m, u, q ::
              IsChild(s.assets, m, n) && s.assets[n].owner != Some(u) && q in t.heritable
              && Inherits(t, s.assets[n], ParentPerms(t, s.assets, s.table, n), u, q)
              && !Decided(t, s.assets[n].kind, SourceRows(s.assets, s.table, n, src), filters, u, q) ==>
                !IsOpen(s.assets[m], s.table[m], u, t.heritable[q])
  {
    NothingIsPassedBy(t, s.assets, s.table, n, CopyOutcomeAt(t, s, n, list, filters).value.rows);
    forall m, u, q | IsChild(s.assets, m, n)
      ensures Shifts(t, s, n, src, list, filters, m, u, q) <==>
              && s.assets[n].owner != Some(u)
              && Inherits(t, s.assets[n], ParentPerms(t, s.assets, s.table, n), u, q)
              && !Decided(t, s.assets[n].kind, SourceRows(s.assets, s.table, n, src), filters, u, q)
    {
      assert IsVisited(t, s.assets, m, n);
    }
  }

  /** When the source has rows of the target's owner only, every child keeps what it inherited before:
      a permission that the copy took from u on the target stays effective on the child. */
  lemma CopyLeavesChildBehind(t: Tables, s: State, n: AssetId, src: AssetId, list: seq<Row>, filters: StoredFilters,
                              s': State, m: AssetId, u: User, q: Perm)
    requires WellPlaced(t, s.assets, s.table) && AllSettled(t, s.assets, s.table)
    requires CopyStep(t, s, n, src, list, filters, s')
    requires s.assets[n].parent.None? && !HasForeign(s.assets[n], list) && IsChild(s.assets, m, n)
    requires s.assets[n].owner != Some(u) && q in t.heritable && Effective(t, s.table[n], u, q)
    requires IsOpen(s.assets[m], s.table[m], u, t.heritable[q])
    ensures !Effective(t, s'.table[n], u, q) && Effective(t, s'.table[m], u, t.heritable[q])
    ensures !SettledAt(t, s'.assets, s'.table, m)
  {
    var a := s.assets[n];
    var mid :| CopyVia(t, s, n, list, filters, mid, s');
    OwnersListNeverRaises(t, a, OwnersRows(a, s.table[n]), list, filters);
    assert CopyOutcomeAt(t, s, n, list, filters) == Ok(Change(OwnersRows(a, s.table[n]), false));
    NotOwnParent(s.assets, n);
    assert m != n && s'.table[m] == s.table[m];
    OwnersShifts(t, s, n, list, filters, u, q);
    assert SettledAt(t, s.assets, s.table, m) && SettledAt(t, s.assets, s.table, n);
    OpenChildInherits(t, s.assets[m], s.table[m], s.table[n], u, q);
    ChildSettledIff(t, s, n, src, list, filters, s', m);
    assert Shifts(t, s, n, src, list, filters, m, u, q);
  }

  /** When the source has rows of anyone but the target's owner, the children are cut off from what the target's parent
      hands down and no source row decides: u has it on the target in the end, but not on the child. */
  lemma CopyCutsChildOff(t: Tables, s: State, n: AssetId, src: AssetId, list: seq<Row>, filters: StoredFilters,
                         s': State, m: AssetId, u: User, q: Perm)
    requires WellPlaced(t, s.assets, s.table) && CopyStep(t, s, n, src, list, filters, s')
    requires CopyOutcomeAt(t, s, n, list, filters).Ok? && ComesTo(t, s, n, list, m)
    requires s.assets[n].owner != Some(u) && SettledAt(t, s.assets, s.table, m)
    requires q in t.heritable && Inherits(t, s.assets[n], ParentPerms(t, s.assets, s.table, n), u, q)
    requires !Decided(t, s.assets[n].kind, SourceRows(s.assets, s.table, n, src), filters, u, q)
    requires IsOpen(s.assets[m], s.table[m], u, t.heritable[q])
    ensures Effective(t, s'.table[n], u, q) && !Effective(t, s'.table[m], u, t.heritable[q])
  {
    var mid :| CopyVia(t, s, n, list, filters, mid, s');
    NotOwnParent(s.assets, n);
    assert m != n && s'.table[m] == mid[m];
    var a, b, C := s.assets[n], s.assets[m], CopyOutcomeAt(t, s, n, list, filters).value.rows;
    var parentPerms := ParentPerms(t, s.assets, s.table, n);
    ChildIsAsLastSeen(t, s, n, list, filters, mid, m);
    RecalculatedEffective(t, a, C, parentPerms, u, q);
    assert OwnerOk(a);
    InheritsFits(t, a, parentPerms, u, q);
    InheritsIsInheritable(t, a, parentPerms, u, q);
    assert forall x :: q !in t.Contradicts(x);
    CopyDecidesIff(t, a, OwnersRows(a, s.table[n]), SourceRows(s.assets, s.table, n, src), list, filters, u, q);
    ForeignShifts(t, s, n, src, list, filters, u, q);
    OpenChildInherits(t, b, mid[m], C, u, q);
  }

  lemma {:induction false} OwnersListNeverRaises(t: Tables, a: Asset, R: Rows, list: seq<Row>, filters: StoredFilters)
    requires !HasForeign(a, list)
    ensures CopyOutcome(t, a, R, list, filters) == Ok(Change(R, false))
  {
    if list != [] {
      var init, r := list[..|list| - 1], list[|list| - 1];
      assert list == init + [r];
      ForeignOneMore(a, init, r);
      OwnersListNeverRaises(t, a, R, init, filters);
    }
  }
}
