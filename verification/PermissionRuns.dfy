/** Whole runs of save, transfer of ownership, assign_perm, remove_perm, copy_permissions_from and
    moves into and out of the trash over a forest of assets. */
module PermissionRuns {
  import opened Wrappers
  import opened PermissionTables
  import opened PartialPermissions
  import opened PermissionRows
  import opened PermissionInvariants
  import opened PermissionInheritance
  import opened AssetForest
  import opened PermissionSteps
  import opened PermissionConsistency
  import opened PermissionShifts
  import opened PermissionAgreement
  import opened CopyPermissions
  import opened CopySteps

  datatype Op =
    | Save(n: AssetId, asset: Asset)
    | HandOver(n: AssetId, newOwner: User, sender: User)
    | Assign(n: AssetId, user: User, perm: Perm, deny: bool, partialPerms: PartialPerms)
    | Remove(n: AssetId, user: User, perm: Perm)
    | Copy(n: AssetId, src: AssetId, list: seq<Row>, filters: StoredFilters)
    | Toggle(ns: set<AssetId>, pendingDelete: bool)

  ghost predicate Step(t: Tables, s: State, op: Op, s': State) {
    match op
    case Save(n, a) => SaveStep(t, s, n, a, s')
    case HandOver(n, u, sender) => HandOverStep(t, s, n, u, sender, s')
    case Assign(n, u, p, deny, partialPerms) => AssignStep(t, s, n, u, p, deny, partialPerms, s')
    case Remove(n, u, p) => RemoveStep(t, s, n, u, p, s')
    case Copy(n, src, list, filters) => CopyStep(t, s, n, src, list, filters, s')
    case Toggle(ns, pendingDelete) => ToggleStep(s, ns, pendingDelete, s')
  }

  /** A run: the states passed through, one operation between each and the next, from an empty database. */
  ghost predicate IsRun(t: Tables, states: seq<State>, ops: seq<Op>) {
    && |states| == |ops| + 1
    && states[0] == State(map[], map[])
    && forall i :: 0 <= i < |ops| ==> Step(t, states[i], ops[i], states[i + 1])
  }

  // ---- Hypotheses on the operations of a run ----

  /** The operation is not a save, or one under which the explicit rows stay sound. */
  ghost predicate KeepsRows(t: Tables, s: State, op: Op) {
    op.Save? ==> SaveHolds(t, s, op.n, op.asset)
  }

  /** Every save of the run is one under which the explicit rows of the asset stay sound. */
  ghost predicate SavesHold(t: Tables, states: seq<State>, ops: seq<Op>) {
    |states| == |ops| + 1 && forall i :: 0 <= i < |ops| ==> KeepsRows(t, states[i], ops[i])
  }

  /** The operation is not a save, or one after which the explicit rows name permissions of the asset's type. With
      a symmetric table of contradictions any save will do. */
  ghost predicate KeepsAnswerable(t: Tables, s: State, op: Op) {
    op.Save? ==> Answerable(t, op.asset, RowsAt(s.table, op.n))
  }

  ghost predicate SavesFit(t: Tables, states: seq<State>, ops: seq<Op>) {
    |states| == |ops| + 1 && forall i :: 0 <= i < |ops| ==> KeepsAnswerable(t, states[i], ops[i])
  }

  /** The result of the operation outlives the next recalculation, and it leaves no asset behind. */
  ghost predicate Lasts(t: Tables, s: State, op: Op) {
    match op
    case Save(n, a) => SaveLasts(t, s, n, a)
    case HandOver(n, u, sender) => n in s.assets && n in s.table ==> HandOverLasts(t, s, n, u, sender)
    case Assign(n, u, p, deny, partialPerms) =>
      n in s.assets && n in s.table ==> AssignLasts(t, s, n, u, p, deny, partialPerms)
    case Remove(n, u, p) => n in s.assets && n in s.table ==> RemovalLasts(t, s, n, u, p)
    case Copy(n, src, list, filters) =>
      n in s.assets && n in s.table && src in s.table ==> CopyLasts(t, s, n, src, list, filters)
    case Toggle(_, _) => true
  }

  /** Every operation of the run was made where its result lasts. */
  ghost predicate AllLast(t: Tables, states: seq<State>, ops: seq<Op>) {
    |states| == |ops| + 1 && forall i :: 0 <= i < |ops| ==> Lasts(t, states[i], ops[i])
  }

  // ---- One step ----

  /** Every operation keeps every invariant, a save exactly when it holds. */
  lemma StepIsSoundIff(t: Tables, s: State, op: Op, s': State)
    requires Sound(t, s) && Step(t, s, op, s')
    ensures Sound(t, s') <==> KeepsRows(t, s, op)
  {
    match op {
      case Save(n, a) =>
        SaveIsSoundIff(t, s, n, a, s');
      case HandOver(n, u, sender) =>
        HandOverIsSound(t, s, n, u, sender, s');
      case Assign(n, u, p, deny, partialPerms) =>
        AssignIsSound(t, s, n, u, p, deny, partialPerms, s');
      case Remove(n, u, p) =>
        RemoveIsSound(t, s, n, u, p, s');
      case Copy(n, src, list, filters) =>
        CopyIsSound(t, s, n, src, list, filters, s');
      case Toggle(ns, pendingDelete) =>
        ToggleIsSound(t, s, ns, pendingDelete, s');
    }
  }

  /** Every operation, any save included, leaves the rows of every asset consistent. */
  lemma StepIsConsistent(t: Tables, s: State, op: Op, s': State, agreeing: bool)
    requires Consistent(t, s, agreeing) && Step(t, s, op, s') && (agreeing ==> KeepsAnswerable(t, s, op))
    ensures Consistent(t, s', agreeing)
  {
    match op {
      case Save(n, a) =>
        SaveIsConsistent(t, s, n, a, s', agreeing);
      case HandOver(n, u, sender) =>
        HandOverIsConsistent(t, s, n, u, sender, s', agreeing);
      case Assign(n, u, p, deny, partialPerms) =>
        AssignIsConsistent(t, s, n, u, p, deny, partialPerms, s', agreeing);
      case Remove(n, u, p) =>
        RemoveIsConsistent(t, s, n, u, p, s', agreeing);
      case Copy(n, src, list, filters) =>
        CopyIsConsistent(t, s, n, src, list, filters, s', agreeing);
      case Toggle(ns, pendingDelete) =>
        ToggleIsConsistent(t, s, ns, pendingDelete, s', agreeing);
    }
  }

  /** Where all assets agree with a recalculation, they go on to do so exactly when
      the result of the operation lasts. */
  lemma StepIsSettledIff(t: Tables, s: State, op: Op, s': State)
    requires Consistent(t, s, false) && Step(t, s, op, s') && AllSettled(t, s.assets, s.table)
    ensures AllSettled(t, s'.assets, s'.table) <==> Lasts(t, s, op)
  {
    match op {
      case Save(n, a) =>
        SaveSettlesIff(t, s, n, a, s');
      case HandOver(n, u, sender) =>
        HandOverSettlesIff(t, s, n, u, sender, s');
      case Assign(n, u, p, deny, partialPerms) =>
        AssignSettlesIff(t, s, n, u, p, deny, partialPerms, s');
      case Remove(n, u, p) =>
        RemoveSettlesIff(t, s, n, u, p, s');
      case Copy(n, src, list, filters) =>
        CopySettlesIff(t, s, n, src, list, filters, s');
      case Toggle(ns, pendingDelete) =>
        ToggleKeepsSettled(t, s, ns, pendingDelete, s');
    }
  }

  /** While every asset with children is of a type that may have them, and no child is in the trash: saves,
      transfers and assignments always last, and removals exactly under the condition on the asset alone. */
  lemma VisitedLasts(t: Tables, s: State, op: Op, s': State)
    requires WellPlaced(t, s.assets, s.table) && Step(t, s, op, s') && !op.Copy?
    requires AllVisited(t, s.assets) && AllVisited(t, s'.assets)
    ensures Lasts(t, s, op) <==>
            op.Remove? && RemoveOutcome(t, s.assets[op.n], s.table[op.n], op.user, op.perm, false).Ok? ==>
              RemovalHolds(t, s.assets[op.n], s.table[op.n], ParentPerms(t, s.assets, s.table, op.n), op.user, op.perm)
  {
    match op {
      case Save(n, a) =>
        NothingIsPassedBy(t, s'.assets, BeforeSave(s, n), n, Saved(t, s, n, a)[n]);
      case HandOver(n, u, sender) =>
        var a := s.assets[n].(owner := Some(u));
        assert AllVisited(t, s.assets[n := a]) by {
          forall m | m in s.assets && s.assets[m].parent.Some?
            ensures IsVisited(t, s.assets[n := a], m, s.assets[m].parent.value)
          {
            assert IsVisited(t, s.assets, m, s.assets[m].parent.value);
          }
        }
        var outcome := AssignOutcome(t, a, HandedOverRows(t, s, n, u), sender, ManageAsset, false, false, map[]);
        if outcome.Ok? {
          NothingIsPassedBy(t, s.assets[n := a], s.table, n, outcome.value.rows);
        }
      case Assign(n, u, p, deny, partialPerms) =>
        var outcome := AssignOutcome(t, s.assets[n], s.table[n], u, p, deny, false, partialPerms);
        if outcome.Ok? {
          NothingIsPassedBy(t, s.assets, s.table, n, outcome.value.rows);
        }
      case Remove(n, u, p) =>
        NothingIsPassedBy(t, s.assets, s.table, n, RemovedAll(t, s.assets[n], s.table[n], u, p));
      case Toggle(ns, pendingDelete) =>
    }
  }

  // ---- Whole runs ----

  lemma EmptyForest(s: State)
    requires s == State(map[], map[])
    ensures IsForest(s.assets)
  {
    var noDepth: Depths := map[];
    assert Ranked(s.assets, noDepth);
  }

  lemma {:induction false} RunIsSound(t: Tables, states: seq<State>, ops: seq<Op>, i: nat)
    requires t.Wf() && IsRun(t, states, ops) && SavesHold(t, states, ops) && i < |states|
    ensures Sound(t, states[i])
  {
    if i == 0 {
      EmptyForest(states[0]);
    } else {
      RunIsSound(t, states, ops, i - 1);
      assert Step(t, states[i - 1], ops[i - 1], states[i]) && KeepsRows(t, states[i - 1], ops[i - 1]);
      StepIsSoundIff(t, states[i - 1], ops[i - 1], states[i]);
    }
  }

  lemma {:induction false} RunIsConsistent(t: Tables, states: seq<State>, ops: seq<Op>, i: nat, agreeing: bool)
    requires t.Wf() && IsRun(t, states, ops) && (agreeing ==> SavesFit(t, states, ops)) && i < |states|
    ensures Consistent(t, states[i], agreeing)
  {
    if i == 0 {
      EmptyForest(states[0]);
    } else {
      RunIsConsistent(t, states, ops, i - 1, agreeing);
      assert Step(t, states[i - 1], ops[i - 1], states[i]);
      assert agreeing ==> KeepsAnswerable(t, states[i - 1], ops[i - 1]);
      StepIsConsistent(t, states[i - 1], ops[i - 1], states[i], agreeing);
    }
  }

  lemma {:induction false} RunIsSettled(t: Tables, states: seq<State>, ops: seq<Op>, i: nat)
    requires t.Wf() && IsRun(t, states, ops) && AllLast(t, states, ops) && i < |states|
    ensures AllSettled(t, states[i].assets, states[i].table)
  {
    if i > 0 {
      RunIsSettled(t, states, ops, i - 1);
      RunIsConsistent(t, states, ops, i - 1, false);
      assert Step(t, states[i - 1], ops[i - 1], states[i]) && Lasts(t, states[i - 1], ops[i - 1]);
      StepIsSettledIff(t, states[i - 1], ops[i - 1], states[i]);
    }
  }

  /** In every state of every run whose operations last, the effective permissions
      read from the stored rows of every asset are the recursively defined ones. */
  lemma EveryRunAgrees(t: Tables, states: seq<State>, ops: seq<Op>, i: nat, depth: Depths, n: AssetId)
    requires t.Wf() && IsRun(t, states, ops) && AllLast(t, states, ops) && i < |states|
    requires Ranked(states[i].assets, depth) && n in states[i].assets
    ensures states[i].table.Keys == states[i].assets.Keys
    ensures EffectivePerms(t, states[i].table[n]) == EntitledPerms(t, states[i].assets, states[i].table, depth, n)
  {
    RunIsConsistent(t, states, ops, i, false);
    RunIsSettled(t, states, ops, i);
    SettledIsEntitled(t, states[i].assets, states[i].table, depth, n);
  }

  /** An asset and its parent, ready to be read through the definition. */
  lemma EveryRunAgreesAbove(t: Tables, states: seq<State>, ops: seq<Op>, i: nat, n: AssetId) returns (depth: Depths)
    requires t.Wf() && IsRun(t, states, ops) && AllLast(t, states, ops) && i < |states| && n in states[i].assets
    ensures AgreesAbove(t, states[i].assets, states[i].table, depth, n)
  {
    RunIsConsistent(t, states, ops, i, false);
    depth :| Ranked(states[i].assets, depth);
    forall m | m in states[i].assets
      ensures EffectivePerms(t, states[i].table[m]) == EntitledPerms(t, states[i].assets, states[i].table, depth, m)
    {
      EveryRunAgrees(t, states, ops, i, depth, m);
    }
  }

  /** Spelled out: u effectively has p on n exactly when an explicit row grants it, or owning n or the parent's
      effective permissions give it, and no explicit row denies it, and the public may have it if u is the public. */
  lemma EveryRunFollowsParents(t: Tables, states: seq<State>, ops: seq<Op>, i: nat, n: AssetId, u: User, p: Perm)
    requires t.Wf() && IsRun(t, states, ops) && AllLast(t, states, ops) && i < |states| && n in states[i].assets
    ensures n in states[i].table
    ensures var a, table := states[i].assets[n], states[i].table;
            Effective(t, table[n], u, p) <==>
            && (|| Row(u, p, false, false) in table[n]
                || if a.owner == Some(u) then p in t.Assignable(a.kind) && p != PartialSubmissions
                   else
                     && a.parent.Some? && a.parent.value in table
                     && exists q :: q in t.heritable && t.heritable[q] == p &&
                                    Effective(t, table[a.parent.value], u, q))
            && Row(u, p, true, false) !in table[n]
            && (u == ANONYMOUS_USER_ID ==> p in t.allowedAnonymous)
  {
    var depth := EveryRunAgreesAbove(t, states, ops, i, n);
    EntitledMeans(t, states[i].assets, states[i].table, depth, n, u, p);
  }

  /** In particular every owner holds every permission that the type of its asset can be given,
      the partial one aside, unless an explicit row denies it. */
  lemma EveryOwnerHolds(t: Tables, states: seq<State>, ops: seq<Op>, i: nat, n: AssetId, u: User, p: Perm)
    requires t.Wf() && IsRun(t, states, ops) && AllLast(t, states, ops) && i < |states| && n in states[i].assets
    requires states[i].assets[n].owner == Some(u) && p in t.Assignable(states[i].assets[n].kind)
    requires p != PartialSubmissions
    ensures n in states[i].table
    ensures Effective(t, states[i].table[n], u, p) <==> Row(u, p, true, false) !in states[i].table[n]
  {
    RunIsConsistent(t, states, ops, i, false);
    assert OwnerOk(states[i].assets[n]);
    EveryRunFollowsParents(t, states, ops, i, n, u, p);
  }

  /** In every state of every run, and at every asset, nothing is both granted and denied explicitly, inherited rows
      grant, and grant what can be inherited, and every grant of the public is one it may have. */
  lemma EveryRunIsConsistent(t: Tables, states: seq<State>, ops: seq<Op>, i: nat, n: AssetId)
    requires t.Wf() && IsRun(t, states, ops) && i < |states| && n in states[i].assets
    ensures n in states[i].table && NotBoth(states[i].table[n])
    ensures forall r :: r in states[i].table[n] && r.inherited ==>
                          !r.deny && Inheritable(t, states[i].assets[n], r.user, r.perm)
    ensures forall p, inherited :: Row(ANONYMOUS_USER_ID, p, false, inherited) in states[i].table[n] ==>
                                     p in t.allowedAnonymous
  {
    RunIsConsistent(t, states, ops, i, false);
    assert InheritedFit(t, states[i].assets[n], states[i].table[n]);
  }

  /** In every state of every run whose saves fit, and at every asset, nobody
      holds two explicit grants that contradict each other. */
  lemma EveryRunIsFreeOfContradictions(t: Tables, states: seq<State>, ops: seq<Op>, i: nat, n: AssetId)
    requires t.Wf() && IsRun(t, states, ops) && SavesFit(t, states, ops) && i < |states| && n in states[i].assets
    ensures n in states[i].table && GrantsAgree(t, states[i].table[n])
  {
    RunIsConsistent(t, states, ops, i, true);
  }

  /** In every state of every run whose saves hold, and at every asset,
      effective permissions are closed under implication. */
  lemma EveryRunIsClosed(t: Tables, states: seq<State>, ops: seq<Op>, i: nat, n: AssetId)
    requires t.Wf() && IsRun(t, states, ops) && SavesHold(t, states, ops) && i < |states| && n in states[i].assets
    ensures n in states[i].table && EffectiveClosed(t, states[i].assets[n], states[i].table[n])
  {
    RunIsSound(t, states, ops, i);
    NodeOkIsClosed(t, states[i].assets[n], states[i].table[n]);
  }
}
