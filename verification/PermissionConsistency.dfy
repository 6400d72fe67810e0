/** One step on a forest of assets, again: what every step keeps of the rows, whatever the explicit ones are. */
module PermissionConsistency {
  import opened Wrappers
  import opened PermissionTables
  import opened PartialPermissions
  import opened PermissionRows
  import opened PermissionInvariants
  import opened PermissionInheritance
  import opened AssetForest
  import opened PermissionSteps

  /** The rows of every asset are consistent; with `agreeing`, no explicit grants contradict each other either. */
  ghost predicate Consistent(t: Tables, s: State, agreeing: bool) {
    && WellPlaced(t, s.assets, s.table)
    && forall n :: n in s.assets && n in s.table ==> RowsConsistent(t, s.assets[n], s.table[n], agreeing)
  }

  // ---- What every step keeps ----

  lemma FewerRowsAreConsistent(t: Tables, a: Asset, R: Rows, fewer: Rows, agreeing: bool)
    requires RowsConsistent(t, a, R, agreeing) && fewer <= R
    ensures RowsConsistent(t, a, fewer, agreeing)
  {
    forall u, p, deny | Explicit(fewer, u, p, deny) ensures Explicit(R, u, p, deny) {
    }
  }

  /** A recalculation below n needs only explicit rows that are consistent, and makes inherited rows fit. */
  lemma RecalculatedBelowIsConsistent(t: Tables, s: State, s': State, n: AssetId, agreeing: bool)
    requires Consistent(t, s, agreeing) && s'.assets == s.assets
    requires RecalculatedBelow(t, s.assets, s.table, s'.table, n)
    ensures Consistent(t, s', agreeing)
  {
    forall m | m in s.assets ensures RowsConsistent(t, s.assets[m], s'.table[m], agreeing) {
      if StrictlyBelow(t, s.assets, m, n) {
        PublicExplicitIsAllowed(t, s.assets[m], s.table[m]);
        RecalculatedIsConsistent(t, s.assets[m], s.table[m], ParentPerms(t, s.assets, s'.table, m), agreeing);
      }
    }
  }

  lemma PublicExplicitIsAllowed(t: Tables, a: Asset, R: Rows)
    requires InheritedFit(t, a, R)
    ensures forall p :: Explicit(R, ANONYMOUS_USER_ID, p, false) ==> p in t.allowedAnonymous
  {
    forall p | Explicit(R, ANONYMOUS_USER_ID, p, false) ensures p in t.allowedAnonymous {
      assert Row(ANONYMOUS_USER_ID, p, false, false) in R;
    }
  }

  /** Any save leaves consistent rows; if it is to keep explicit grants from contradicting each other later,
      the explicit rows must name permissions of the new type, or the table must be symmetric. */
  lemma SaveIsConsistent(t: Tables, s: State, n: AssetId, a: Asset, s': State, agreeing: bool)
    requires Consistent(t, s, agreeing) && SaveStep(t, s, n, a, s')
    requires agreeing ==> Answerable(t, a, RowsAt(s.table, n))
    ensures Consistent(t, s', agreeing)
  {
    var R := RowsAt(s.table, n);
    SavedIsPlaced(t, s, n, a);
    if n in s.assets {
      PublicExplicitIsAllowed(t, s.assets[n], R);
    }
    RecalculatedIsConsistent(t, a, R, ParentPerms(t, s.assets[n := a], s.table, n), agreeing);
    RecalculatedBelowIsConsistent(t, State(s'.assets, Saved(t, s, n, a)), s', n, agreeing);
  }

  /** So does any call that changes the rows of one asset to consistent ones. */
  lemma ChangeIsConsistent(t: Tables, s: State, n: AssetId, outcome: Outcome, s': State, agreeing: bool)
    requires Consistent(t, s, agreeing) && n in s.assets && s'.assets == s.assets
    requires outcome.Ok? ==> RowsConsistent(t, s.assets[n], outcome.value.rows, agreeing)
    requires Changed(t, s.assets, s.table, s'.table, n, outcome)
    ensures Consistent(t, s', agreeing)
  {
    if outcome.Ok? {
      var s1 := State(s.assets, s.table[n := outcome.value.rows]);
      assert Consistent(t, s1, agreeing);
      if outcome.value.recalculates {
        RecalculatedBelowIsConsistent(t, s1, s', n, agreeing);
      }
    }
  }

  lemma AssignIsConsistent(t: Tables, s: State, n: AssetId, u: User, p: Perm, deny: bool, partialPerms: PartialPerms,
                           s': State, agreeing: bool)
    requires Consistent(t, s, agreeing) && AssignStep(t, s, n, u, p, deny, partialPerms, s')
    ensures Consistent(t, s', agreeing)
  {
    var outcome := AssignOutcome(t, s.assets[n], s.table[n], u, p, deny, false, partialPerms);
    if outcome.Ok? {
      AssignOutcomeKeepsConsistent(t, s.assets[n], s.table[n], u, p, deny, partialPerms, agreeing);
    }
    ChangeIsConsistent(t, s, n, outcome, s', agreeing);
  }

  lemma RemoveIsConsistent(t: Tables, s: State, n: AssetId, u: User, p: Perm, s': State, agreeing: bool)
    requires Consistent(t, s, agreeing) && RemoveStep(t, s, n, u, p, s')
    ensures Consistent(t, s', agreeing)
  {
    if RemoveOutcome(t, s.assets[n], s.table[n], u, p, false).Ok? {
      RemovedKeepsConsistent(t, s.assets[n], s.table[n], u, p, agreeing);
    }
    ChangeIsConsistent(t, s, n, RemoveOutcome(t, s.assets[n], s.table[n], u, p, false), s', agreeing);
  }

  lemma ReadyIsConsistent(t: Tables, s: State, n: AssetId, u: User, agreeing: bool)
    requires Consistent(t, s, agreeing) && n in s.assets && n in s.table
    ensures Consistent(t, ReadyToHandOver(s, n, u), agreeing)
  {
    FewerRowsAreConsistent(t, s.assets[n], s.table[n], RowsOfOthers(s.table[n], u), agreeing);
  }

  lemma HandOverIsConsistent(t: Tables, s: State, n: AssetId, u: User, sender: User, s': State, agreeing: bool)
    requires Consistent(t, s, agreeing) && HandOverStep(t, s, n, u, sender, s')
    ensures Consistent(t, s', agreeing)
  {
    var mid :| HandOverVia(t, s, n, u, sender, mid, s');
    var s1 := ReadyToHandOver(s, n, u);
    ReadyIsConsistent(t, s, n, u, agreeing);
    assert RowsConsistent(t, s1.assets[n], s1.table[n], agreeing);
    SaveIsConsistent(t, s1, n, s.assets[n].(owner := Some(u)), mid, agreeing);
    if AssignOutcome(t, mid.assets[n], mid.table[n], sender, ManageAsset, false, false, map[]).Ok? {
      AssignIsConsistent(t, mid, n, sender, ManageAsset, false, map[], s', agreeing);
    }
  }

  lemma ToggleIsConsistent(t: Tables, s: State, ns: set<AssetId>, pendingDelete: bool, s': State, agreeing: bool)
    requires Consistent(t, s, agreeing) && ToggleStep(s, ns, pendingDelete, s')
    ensures Consistent(t, s', agreeing)
  {
    ToggleIsPlaced(t, s, ns, pendingDelete, s');
    forall n | n in s'.assets ensures RowsConsistent(t, s'.assets[n], s'.table[n], agreeing) {
      forall u, p ensures Inheritable(t, s'.assets[n], u, p) <==> Inheritable(t, s.assets[n], u, p) {
      }
    }
  }
}
