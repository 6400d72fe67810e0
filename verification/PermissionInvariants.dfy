/** What the rows of one asset always satisfy, and that every operation keeps it. */
module PermissionInvariants {
  import opened Wrappers
  import opened PermissionTables
  import opened PartialPermissions
  import opened PermissionRows

  /** u could be given p by inheritance, or by owning the asset. */
  predicate Inheritable(t: Tables, a: Asset, u: User, p: Perm) {
    if a.owner == Some(u) then p in t.OwnerPerms(a.kind) else p in t.HeritableRange()
  }

  predicate IsExplicit(R: Rows, u: User, q: Perm) {
    Explicit(R, u, q, false) || Explicit(R, u, q, true)
  }

  /** Inherited rows grant, and grant what can be inherited; whatever the public is
      granted is allowed. Rows may name permissions that this type of asset cannot be given. */
  ghost predicate InheritedFit(t: Tables, a: Asset, R: Rows) {
    forall r :: r in R ==>
                  && (r.inherited ==> !r.deny && Inheritable(t, a, r.user, r.perm))
                  && (r.user == ANONYMOUS_USER_ID && !r.deny ==> r.perm in t.allowedAnonymous)
  }

  /** Explicit rows name permissions of this asset type. */
  predicate PermsFit(t: Tables, a: Asset, R: Rows) {
    forall r :: r in R && !r.inherited ==> r.perm in t.Assignable(a.kind)
  }

  /** All rows do, and fit otherwise. */
  ghost predicate RowsFit(t: Tables, a: Asset, R: Rows) {
    InheritedFit(t, a, R) && forall r :: r in R ==> r.perm in t.Assignable(a.kind)
  }

  /** Nothing is both granted and denied explicitly. */
  ghost predicate NotBoth(R: Rows) {
    forall u, p :: Explicit(R, u, p, false) ==> !Explicit(R, u, p, true)
  }

  /** No two explicit grants contradict each other. */
  ghost predicate GrantsAgree(t: Tables, R: Rows) {
    forall u, x, c :: Explicit(R, u, x, false) && Explicit(R, u, c, false) ==> c !in t.Contradicts(x)
  }

  ghost predicate NoContradiction(t: Tables, R: Rows) {
    NotBoth(R) && GrantsAgree(t, R)
  }

  /** Explicit grants are closed downwards. */
  ghost predicate GrantsClosed(t: Tables, a: Asset, R: Rows) {
    forall u, p, q :: Explicit(R, u, p, false) && t.Implies(p, q) && q in t.Assignable(a.kind) ==>
                        Explicit(R, u, q, false)
  }

  /** Inherited grants are closed downwards. */
  ghost predicate InheritedClosed(t: Tables, a: Asset, R: Rows) {
    forall u, p, q :: Inherited(R, u, p) && t.Implies(p, q) && q in t.Assignable(a.kind) ==> Inherited(R, u, q)
  }

  /** Denials are closed upwards among what can be inherited. They need not be closed upwards altogether:
      granting the partial permission deletes the denials of what it contradicts. */
  ghost predicate DenialsClosed(t: Tables, a: Asset, R: Rows) {
    forall u, p, q :: Explicit(R, u, q, true) && t.Implies(p, q) && p in t.Assignable(a.kind) &&
                      Inheritable(t, a, u, p) ==>
                        Explicit(R, u, p, true)
  }

  ghost predicate NodeOk(t: Tables, a: Asset, R: Rows) {
    && RowsFit(t, a, R)
    && NoContradiction(t, R)
    && GrantsClosed(t, a, R)
    && InheritedClosed(t, a, R)
    && DenialsClosed(t, a, R)
  }

  /** Effective permissions are closed under implication. */
  ghost predicate EffectiveClosed(t: Tables, a: Asset, R: Rows) {
    forall u, p, q :: Effective(t, R, u, p) && t.Implies(p, q) && q in t.Assignable(a.kind) ==> Effective(t, R, u, q)
  }

  lemma NodeOkIsClosed(t: Tables, a: Asset, R: Rows)
    requires t.Wf() && NodeOk(t, a, R)
    ensures EffectiveClosed(t, a, R)
  {
    forall u, p, q | Effective(t, R, u, p) && t.Implies(p, q) && q in t.Assignable(a.kind)
      ensures Effective(t, R, u, q)
    {
      assert Row(u, q, true, true) !in R;
      if Explicit(R, u, p, false) {
        assert Explicit(R, u, q, false);
      } else {
        assert Row(u, p, false, true) in R;
        assert Inherited(R, u, p) && Inheritable(t, a, u, p) && Inherited(R, u, q);
        assert Explicit(R, u, q, true) ==> Explicit(R, u, p, true);
      }
    }
  }

  // ---- assign_perm ----

  /** A call of assign_perm that is not refused. */
  predicate MayAssign(t: Tables, a: Asset, u: User, p: Perm, deny: bool) {
    && p in t.Assignable(a.kind)
    && (u == ANONYMOUS_USER_ID && !deny ==> p in t.allowedAnonymous)
    && (!deny && p == PartialSubmissions ==> a.owner != Some(u))
  }

  ghost function AssignedCone(t: Tables, a: Asset, R: Rows, u: User, p: Perm, deny: bool): Rows {
    Assigned(t, R, u, t.Cone(a.kind, p, deny), deny)
  }

  /** One explicit row assigned with its cone, unless it is there. */
  ghost function WithRow(t: Tables, a: Asset, R: Rows, u: User, p: Perm, deny: bool): Rows {
    if Explicit(R, u, p, deny) then R else AssignedCone(t, a, R, u, p, deny)
  }

  /** The partial permission brings along the permission to add submissions. */
  ghost predicate BringsAdding(t: Tables, kind: AssetType, p: Perm, partialPerms: PartialPerms) {
    p == PartialSubmissions && StoredUnder(t, kind, partialPerms, AddSubmissions)
  }

  /** A call of assign_perm assigns one explicit row with its cone, or two. */
  lemma AssignInTwo(t: Tables, a: Asset, R: Rows, u: User, p: Perm, deny: bool, partialPerms: PartialPerms)
    requires AssignOutcome(t, a, R, u, p, deny, false, partialPerms).Ok?
    ensures MayAssign(t, a, u, p, deny)
    ensures BringsAdding(t, a.kind, p, partialPerms) ==> MayAssign(t, a, u, AddSubmissions, false)
    ensures var R1 := WithRow(t, a, R, u, p, deny);
            AssignOutcome(t, a, R, u, p, deny, false, partialPerms).value.rows ==
            if BringsAdding(t, a.kind, p, partialPerms) then WithRow(t, a, R1, u, AddSubmissions, false) else R1
  {}

  /** u can be granted, or denied, p on an asset of this type. */
  predicate CanBeGiven(t: Tables, a: Asset, u: User, p: Perm, deny: bool) {
    p in t.Assignable(a.kind) && (u == ANONYMOUS_USER_ID && !deny ==> p in t.allowedAnonymous)
  }

  /** When assign_perm does not raise. */
  lemma AssignSucceedsIff(t: Tables, a: Asset, R: Rows, u: User, p: Perm, deny: bool, partialPerms: PartialPerms)
    ensures AssignOutcome(t, a, R, u, p, deny, false, partialPerms).Ok? <==>
            && CanBeGiven(t, a, u, p, deny)
            && (Refused(t, a.kind, R, u, p, deny) ==> Explicit(R, u, p, deny))
            && (p == PartialSubmissions ==> a.owner.Some? && a.owner != Some(u) && partialPerms != map[])
            && (BringsAdding(t, a.kind, p, partialPerms) ==> CanBeGiven(t, a, u, AddSubmissions, false))
  {
    if BringsAdding(t, a.kind, p, partialPerms) {
      AddingSucceedsIff(t, a, WithRow(t, a, R, u, p, deny), u);
    }
  }

  lemma AddingSucceedsIff(t: Tables, a: Asset, R: Rows, u: User)
    ensures AssignOutcome(t, a, R, u, AddSubmissions, false, true, map[]).Ok? <==>
            CanBeGiven(t, a, u, AddSubmissions, false)
  {}

  lemma GrantConeFits(t: Tables, a: Asset, u: User, p: Perm, q: Perm)
    requires t.Wf() && MayAssign(t, a, u, p, false) && q in t.Cone(a.kind, p, false)
    ensures MayAssign(t, a, u, q, false)
  {}

  /** A grant never deletes an inherited row. */
  lemma ContradictedIsNotInheritable(t: Tables, a: Asset, u: User, x: Perm, c: Perm)
    requires t.Wf() && MayAssign(t, a, u, x, false) && c in t.Contradicts(x)
    ensures !Inheritable(t, a, u, c)
  {}

  lemma AssignedKeepsInherited(t: Tables, a: Asset, R: Rows, u: User, p: Perm, deny: bool, v: User, q: Perm)
    requires t.Wf() && InheritedFit(t, a, R) && MayAssign(t, a, u, p, deny)
    ensures Inherited(AssignedCone(t, a, R, u, p, deny), v, q) <==> Inherited(R, v, q)
  {
    var S := t.Cone(a.kind, p, deny);
    var r := Row(v, q, false, true);
    if r in R && Cleared(t, R, u, S, deny, r) {
      var x :| x in S && !Explicit(R, u, x, false) && r.perm in t.Contradicts(x);
      GrantConeFits(t, a, u, p, x);
      ContradictedIsNotInheritable(t, a, u, x, q);
    }
  }

  lemma AssignedKeepsRowsFit(t: Tables, a: Asset, R: Rows, u: User, p: Perm, deny: bool)
    requires t.Wf() && MayAssign(t, a, u, p, deny)
    ensures InheritedFit(t, a, R) ==> InheritedFit(t, a, AssignedCone(t, a, R, u, p, deny))
    ensures PermsFit(t, a, R) ==> PermsFit(t, a, AssignedCone(t, a, R, u, p, deny))
    ensures RowsFit(t, a, R) ==> RowsFit(t, a, AssignedCone(t, a, R, u, p, deny))
  {
    forall q | q in t.Cone(a.kind, p, deny) && !deny ensures MayAssign(t, a, u, q, deny) {
      GrantConeFits(t, a, u, p, q);
    }
  }

  /** Whatever the rows are, an assignment leaves nothing both granted and denied explicitly that was not before. */
  lemma AssignedKeepsNotBoth(t: Tables, a: Asset, R: Rows, u: User, p: Perm, deny: bool)
    requires NotBoth(R)
    ensures NotBoth(AssignedCone(t, a, R, u, p, deny))
  {
    var S := t.Cone(a.kind, p, deny);
    var R' := AssignedCone(t, a, R, u, p, deny);
    forall v, x | Explicit(R', v, x, false) ensures !Explicit(R', v, x, true) {
      if v == u && x in S {
        var opposite := Row(u, x, !deny, false);
        assert opposite in R ==> Cleared(t, R, u, S, deny, opposite);
        assert opposite !in R';
      } else {
        assert Explicit(R, v, x, false);
        assert Explicit(R', v, x, true) ==> Explicit(R, v, x, true);
      }
    }
  }

  /** Something newly granted with p contradicts x. */
  ghost predicate NewlyContradicted(t: Tables, a: Asset, R: Rows, u: User, p: Perm, x: Perm) {
    exists y :: y in t.Cone(a.kind, p, false) && !Explicit(R, u, y, false) && x in t.Contradicts(y)
  }

  /** An older grant that contradicts something newly granted is contradicted by something newly granted. */
  ghost predicate IsAnswered(t: Tables, a: Asset, R: Rows, u: User, p: Perm, x: Perm, c: Perm) {
    Explicit(R, u, x, false) && x !in t.Cone(a.kind, p, false) &&
    c in t.Cone(a.kind, p, false) && !Explicit(R, u, c, false) && c in t.Contradicts(x) ==>
      NewlyContradicted(t, a, R, u, p, x)
  }

  lemma GrantedAfter(t: Tables, a: Asset, R: Rows, u: User, p: Perm, v: User, x: Perm)
    ensures Explicit(AssignedCone(t, a, R, u, p, false), v, x, false) <==>
            || (v == u && x in t.Cone(a.kind, p, false))
            || (Explicit(R, v, x, false) && !(v == u && NewlyContradicted(t, a, R, u, p, x)))
  {
    var S := t.Cone(a.kind, p, false);
    if v == u && x !in S {
      assert Cleared(t, R, u, S, false, Row(u, x, false, false)) <==> NewlyContradicted(t, a, R, u, p, x);
    }
  }

  /** After a grant of p no explicit grants contradict each other exactly when all contradictions are answered. */
  lemma AssignedAgreesIff(t: Tables, a: Asset, R: Rows, u: User, p: Perm)
    requires t.NoSelfContradiction() && GrantsAgree(t, R)
    ensures GrantsAgree(t, AssignedCone(t, a, R, u, p, false)) <==> forall x, c :: IsAnswered(t, a, R, u, p, x, c)
  {
    var S := t.Cone(a.kind, p, false);
    var R' := AssignedCone(t, a, R, u, p, false);
    forall v, x ensures Explicit(R', v, x, false) <==>
                        || (v == u && x in S)
                        || (Explicit(R, v, x, false) && !(v == u && NewlyContradicted(t, a, R, u, p, x)))
    {
      GrantedAfter(t, a, R, u, p, v, x);
    }
    if GrantsAgree(t, R') {
      forall x, c ensures IsAnswered(t, a, R, u, p, x, c) {
        assert Explicit(R', u, x, false) && Explicit(R', u, c, false) ==> c !in t.Contradicts(x);
      }
    }
    if forall x, c :: IsAnswered(t, a, R, u, p, x, c) {
      forall v, x, c | Explicit(R', v, x, false) && Explicit(R', v, c, false) ensures c !in t.Contradicts(x) {
        assert IsAnswered(t, a, R, u, p, x, c);
        assert x in S && c in S ==> t.ComesWith(p, x) && t.ComesWith(p, c);
        assert x in S && !Explicit(R, u, x, false) && c in t.Contradicts(x) ==> NewlyContradicted(t, a, R, u, p, c);
      }
    }
  }

  /** Every contradiction between permissions that the asset's rows can name is answered. */
  ghost predicate Answerable(t: Tables, a: Asset, R: Rows) {
    t.ContradictionsAreSymmetric() || PermsFit(t, a, R)
  }

  lemma AssignedKeepsGrantsAgree(t: Tables, a: Asset, R: Rows, u: User, p: Perm, deny: bool)
    requires t.Wf() && MayAssign(t, a, u, p, deny) && Answerable(t, a, R) && GrantsAgree(t, R)
    ensures GrantsAgree(t, AssignedCone(t, a, R, u, p, deny))
  {
    if deny {
      forall v, x | Explicit(AssignedCone(t, a, R, u, p, deny), v, x, false) ensures Explicit(R, v, x, false) {
      }
    } else {
      AssignedAgreesIff(t, a, R, u, p);
      forall x, c ensures IsAnswered(t, a, R, u, p, x, c) {
        ContradictionIsAnswered(t, a, R, u, p, x, c);
      }
    }
  }

  lemma ContradictionIsAnswered(t: Tables, a: Asset, R: Rows, u: User, p: Perm, x: Perm, c: Perm)
    requires t.ContradictionsAreAnswered() && Answerable(t, a, R) && GrantsAgree(t, R) && p in t.Assignable(a.kind)
    ensures IsAnswered(t, a, R, u, p, x, c)
  {
    if Explicit(R, u, x, false) && !Explicit(R, u, c, false) && c in t.Contradicts(x) && c in t.Cone(a.kind, p, false) {
      if t.ContradictionsAreSymmetric() {
        assert x in t.Contradicts(c);
      } else {
        assert Row(u, x, false, false) in R && x in t.Assignable(a.kind);
        var y :| y in t.Cone(a.kind, c, false) && x in t.Contradicts(y);
        ConeClosed(t, a.kind, p, c, false);
      }
    }
  }

  lemma AssignedKeepsNoContradiction(t: Tables, a: Asset, R: Rows, u: User, p: Perm, deny: bool)
    requires t.Wf() && Answerable(t, a, R) && NoContradiction(t, R) && MayAssign(t, a, u, p, deny)
    ensures NoContradiction(t, AssignedCone(t, a, R, u, p, deny))
  {
    AssignedKeepsNotBoth(t, a, R, u, p, deny);
    AssignedKeepsGrantsAgree(t, a, R, u, p, deny);
  }

  lemma AssignedKeepsGrantsClosed(t: Tables, a: Asset, R: Rows, u: User, p: Perm, deny: bool)
    requires t.Wf() && RowsFit(t, a, R) && NoContradiction(t, R) && GrantsClosed(t, a, R) && MayAssign(t, a, u, p, deny)
    ensures GrantsClosed(t, a, AssignedCone(t, a, R, u, p, deny))
  {
    var S := t.Cone(a.kind, p, deny);
    var R' := AssignedCone(t, a, R, u, p, deny);
    forall v, x, y | Explicit(R', v, x, false) && t.Implies(x, y) && y in t.Assignable(a.kind)
      ensures Explicit(R', v, y, false)
    {
      if v == u && x in S && !deny {
        assert y in t.Cone(a.kind, x, false);
        ConeClosed(t, a.kind, p, x, false);
      } else if v == u && deny {
        assert Explicit(R, u, x, false) && Row(u, x, false, false) in R && x in t.Assignable(a.kind);
        if y in S {
          assert x in t.Cone(a.kind, y, true);
          ConeClosed(t, a.kind, p, y, true);
        }
      } else if v == u {
        assert Explicit(R, u, x, false) && Explicit(R, u, y, false);
        if z :| z in S && !Explicit(R, u, z, false) && y in t.Contradicts(z) {
          assert x in t.Contradicts(z);
        }
      } else {
        assert Explicit(R, v, x, false) && Explicit(R, v, y, false);
      }
    }
  }

  lemma AssignedKeepsDenialsClosed(t: Tables, a: Asset, R: Rows, u: User, p: Perm, deny: bool)
    requires t.Wf() && RowsFit(t, a, R) && NoContradiction(t, R) && DenialsClosed(t, a, R) &&
             MayAssign(t, a, u, p, deny)
    ensures DenialsClosed(t, a, AssignedCone(t, a, R, u, p, deny))
  {
    var S := t.Cone(a.kind, p, deny);
    var R' := AssignedCone(t, a, R, u, p, deny);
    forall v, x, y | Explicit(R', v, y, true) && t.Implies(x, y) && x in t.Assignable(a.kind) && Inheritable(t, a, v, x)
      ensures Explicit(R', v, x, true)
    {
      if v == u && deny && y in S {
        assert x in t.Cone(a.kind, y, true);
        ConeClosed(t, a.kind, p, y, true);
      } else if v == u && !deny {
        assert Explicit(R, u, x, true);
        if x in S {
          assert y in t.Cone(a.kind, x, false);
          ConeClosed(t, a.kind, p, x, false);
        } else if z :| z in S && !Explicit(R, u, z, false) && x in t.Contradicts(z) {
          GrantConeFits(t, a, u, p, z);
          ContradictedIsNotInheritable(t, a, u, z, x);
        }
      }
    }
  }

  lemma AssignedKeepsNodeOk(t: Tables, a: Asset, R: Rows, u: User, p: Perm, deny: bool)
    requires t.Wf() && NodeOk(t, a, R) && MayAssign(t, a, u, p, deny)
    ensures NodeOk(t, a, AssignedCone(t, a, R, u, p, deny))
  {
    AssignedKeepsRowsFit(t, a, R, u, p, deny);
    AssignedKeepsNoContradiction(t, a, R, u, p, deny);
    AssignedKeepsGrantsClosed(t, a, R, u, p, deny);
    AssignedKeepsDenialsClosed(t, a, R, u, p, deny);
    forall v, q ensures Inherited(AssignedCone(t, a, R, u, p, deny), v, q) <==> Inherited(R, v, q) {
      AssignedKeepsInherited(t, a, R, u, p, deny, v, q);
    }
  }

  /** A grant leaves p and everything it implies explicitly granted and effective;
      a denial leaves p and everything that implies it without effect. */
  lemma AssignedTakesEffect(t: Tables, a: Asset, R: Rows, u: User, p: Perm, deny: bool, q: Perm)
    requires t.Wf() && InheritedFit(t, a, R) && NotBoth(R)
    requires MayAssign(t, a, u, p, deny) && q in t.Cone(a.kind, p, deny)
    ensures Explicit(AssignedCone(t, a, R, u, p, deny), u, q, deny)
    ensures Effective(t, AssignedCone(t, a, R, u, p, deny), u, q) <==> !deny
  {
    AssignedKeepsRowsFit(t, a, R, u, p, deny);
    AssignedKeepsNotBoth(t, a, R, u, p, deny);
    if !deny {
      GrantConeFits(t, a, u, p, q);
    }
  }

  lemma AssignOutcomeKeepsNodeOk(t: Tables, a: Asset, R: Rows, u: User, p: Perm, deny: bool, partialPerms: PartialPerms)
    requires t.Wf() && NodeOk(t, a, R)
    requires AssignOutcome(t, a, R, u, p, deny, false, partialPerms).Ok?
    ensures NodeOk(t, a, AssignOutcome(t, a, R, u, p, deny, false, partialPerms).value.rows)
  {
    var R1 := WithRow(t, a, R, u, p, deny);
    AssignInTwo(t, a, R, u, p, deny, partialPerms);
    AssignedKeepsNodeOk(t, a, R, u, p, deny);
    if BringsAdding(t, a.kind, p, partialPerms) {
      AssignedKeepsNodeOk(t, a, R1, u, AddSubmissions, false);
    }
  }

  /** What a row for the partial permission brings along takes nothing from it. */
  lemma AddingKeepsRow(t: Tables, a: Asset, R: Rows, u: User, x: Perm, deny: bool)
    requires t.Wf() && t.AddingLeavesPartial() && Explicit(R, u, x, deny) && (deny ==> x == PartialSubmissions)
    ensures Explicit(WithRow(t, a, R, u, AddSubmissions, false), u, x, deny)
  {
    var S := t.Cone(a.kind, AddSubmissions, false);
    assert forall y :: y in S ==> t.ComesWith(AddSubmissions, y) && y != PartialSubmissions;
    assert !Cleared(t, R, u, S, false, Row(u, x, deny, false));
  }

  /** A call that does not raise takes effect even where it finds the row it is to create and returns early. */
  lemma AssignOutcomeTakesEffect(t: Tables, a: Asset, R: Rows, u: User, p: Perm, deny: bool,
                                 partialPerms: PartialPerms, q: Perm)
    requires t.Wf() && NodeOk(t, a, R) && q in t.Cone(a.kind, p, deny)
    requires p == PartialSubmissions ==> t.AddingLeavesPartial()
    requires AssignOutcome(t, a, R, u, p, deny, false, partialPerms).Ok?
    ensures var R' := AssignOutcome(t, a, R, u, p, deny, false, partialPerms).value.rows;
            && (!deny ==> Explicit(R', u, q, false))
            && (Effective(t, R', u, q) <==> !deny)
  {
    var R1 := WithRow(t, a, R, u, p, deny);
    AssignInTwo(t, a, R, u, p, deny, partialPerms);
    WithRowTakesEffect(t, a, R, u, p, deny, q);
    if BringsAdding(t, a.kind, p, partialPerms) {
      AssignOutcomeKeepsNodeOk(t, a, R, u, p, deny, partialPerms);
      var R2 := WithRow(t, a, R1, u, AddSubmissions, false);
      AddingKeepsRow(t, a, R1, u, q, deny);
      ExplicitDecides(t, a, R2, u, q, deny);
    }
  }

  /** Explicit rows decide, whatever is inherited. */
  lemma ExplicitDecides(t: Tables, a: Asset, R: Rows, u: User, x: Perm, deny: bool)
    requires NodeOk(t, a, R) && Explicit(R, u, x, deny)
    ensures Effective(t, R, u, x) <==> !deny
  {
    assert Row(u, x, deny, false) in R && Row(u, x, true, true) !in R;
  }

  lemma WithRowTakesEffect(t: Tables, a: Asset, R: Rows, u: User, p: Perm, deny: bool, q: Perm)
    requires t.Wf() && NodeOk(t, a, R) && MayAssign(t, a, u, p, deny) && q in t.Cone(a.kind, p, deny)
    ensures !deny || q == p ==> Explicit(WithRow(t, a, R, u, p, deny), u, q, deny)
    ensures Effective(t, WithRow(t, a, R, u, p, deny), u, q) <==> !deny
  {
    if !Explicit(R, u, p, deny) {
      AssignedTakesEffect(t, a, R, u, p, deny, q);
    } else if deny {
      NodeOkIsClosed(t, a, R);
    } else {
      assert Row(u, q, false, false) in R && Row(u, q, true, true) !in R;
    }
  }

  // ---- What the rows satisfy in every state ----

  /** Inherited rows fit, and nothing is both granted and denied explicitly; with `agreeing`,
      no explicit grants contradict each other either. Nothing need be closed under implication. */
  ghost predicate RowsConsistent(t: Tables, a: Asset, R: Rows, agreeing: bool) {
    && InheritedFit(t, a, R)
    && NotBoth(R)
    && (agreeing ==> Answerable(t, a, R) && GrantsAgree(t, R))
  }

  lemma AssignedKeepsConsistent(t: Tables, a: Asset, R: Rows, u: User, p: Perm, deny: bool, agreeing: bool)
    requires t.Wf() && RowsConsistent(t, a, R, agreeing) && MayAssign(t, a, u, p, deny)
    ensures RowsConsistent(t, a, AssignedCone(t, a, R, u, p, deny), agreeing)
  {
    AssignedKeepsRowsFit(t, a, R, u, p, deny);
    AssignedKeepsNotBoth(t, a, R, u, p, deny);
    if agreeing {
      AssignedKeepsGrantsAgree(t, a, R, u, p, deny);
    }
  }

  lemma AssignOutcomeKeepsConsistent(t: Tables, a: Asset, R: Rows, u: User, p: Perm, deny: bool,
                                   partialPerms: PartialPerms, agreeing: bool)
    requires t.Wf() && RowsConsistent(t, a, R, agreeing)
    requires AssignOutcome(t, a, R, u, p, deny, false, partialPerms).Ok?
    ensures RowsConsistent(t, a, AssignOutcome(t, a, R, u, p, deny, false, partialPerms).value.rows, agreeing)
  {
    var R1 := WithRow(t, a, R, u, p, deny);
    AssignInTwo(t, a, R, u, p, deny, partialPerms);
    AssignedKeepsConsistent(t, a, R, u, p, deny, agreeing);
    if BringsAdding(t, a.kind, p, partialPerms) {
      AssignedKeepsConsistent(t, a, R1, u, AddSubmissions, false, agreeing);
    }
  }

  lemma RemovedKeepsConsistent(t: Tables, a: Asset, R: Rows, u: User, p: Perm, agreeing: bool)
    requires RowsConsistent(t, a, R, agreeing) && (Inherited(R, u, p) ==> p in t.Assignable(a.kind))
    ensures RowsConsistent(t, a, RemovedAll(t, a, R, u, p), agreeing)
  {
    RemovedKeepsRowsFit(t, a, R, u, p);
    RemovedKeepsNotBoth(t, a, R, u, p);
    if agreeing {
      RemovedKeepsGrantsAgree(t, a, R, u, p);
    }
  }

  // ---- remove_perm ----

  lemma NewlyDeniedIsAffected(t: Tables, a: Asset, R: Rows, u: User, p: Perm, q: Perm)
    requires NewlyDenied(t, a.kind, R, u, Affected(t, a.kind, p), q)
    ensures q in Affected(t, a.kind, p)
  {
    var x :| TurnsIntoDenial(R, u, Affected(t, a.kind, p), x) && q in t.Cone(a.kind, x, true);
    ConeClosed(t, a.kind, p, x, true);
  }

  ghost function RemovedAll(t: Tables, a: Asset, R: Rows, u: User, p: Perm): Rows {
    Removed(t, a.kind, R, u, Affected(t, a.kind, p))
  }

  /** What removing p leaves explicit: the grants outside p and what implies it, and some more denials inside. */
  lemma RemovedExplicit(t: Tables, a: Asset, R: Rows, u: User, p: Perm, v: User, q: Perm)
    ensures Explicit(RemovedAll(t, a, R, u, p), v, q, false) <==>
            Explicit(R, v, q, false) && !(v == u && q in Affected(t, a.kind, p))
    ensures Inherited(RemovedAll(t, a, R, u, p), v, q) <==>
            Inherited(R, v, q) && !(v == u && q in Affected(t, a.kind, p))
    ensures Explicit(RemovedAll(t, a, R, u, p), v, q, true) <==>
            Explicit(R, v, q, true) || (v == u && NewlyDenied(t, a.kind, R, u, Affected(t, a.kind, p), q))
  {}

  /** A permission that implies something affected is affected. */
  lemma AffectedIsUpwardClosed(t: Tables, a: Asset, p: Perm, x: Perm, y: Perm)
    requires t.Implies(x, y) && y in Affected(t, a.kind, p) && x in t.Assignable(a.kind)
    ensures x in Affected(t, a.kind, p)
  {
    assert x in t.Cone(a.kind, y, true);
    ConeClosed(t, a.kind, p, y, true);
  }

  lemma NewlyDeniedIsAssignable(t: Tables, a: Asset, R: Rows, u: User, p: Perm, q: Perm)
    requires Inherited(R, u, p) ==> p in t.Assignable(a.kind)
    requires NewlyDenied(t, a.kind, R, u, Affected(t, a.kind, p), q)
    ensures q in t.Assignable(a.kind)
  {
    var x :| TurnsIntoDenial(R, u, Affected(t, a.kind, p), x) && q in t.Cone(a.kind, x, true);
    assert x in t.Assignable(a.kind);
  }

  lemma RemovedKeepsRowsFit(t: Tables, a: Asset, R: Rows, u: User, p: Perm)
    requires Inherited(R, u, p) ==> p in t.Assignable(a.kind)
    ensures InheritedFit(t, a, R) ==> InheritedFit(t, a, RemovedAll(t, a, R, u, p))
    ensures PermsFit(t, a, R) ==> PermsFit(t, a, RemovedAll(t, a, R, u, p))
    ensures RowsFit(t, a, R) ==> RowsFit(t, a, RemovedAll(t, a, R, u, p))
  {
    forall r | r in RemovedAll(t, a, R, u, p) && r !in R
      ensures r.deny && !r.inherited && r.perm in t.Assignable(a.kind)
    {
      NewlyDeniedIsAssignable(t, a, R, u, p, r.perm);
    }
  }

  lemma RemovedKeepsNotBoth(t: Tables, a: Asset, R: Rows, u: User, p: Perm)
    requires NotBoth(R)
    ensures NotBoth(RemovedAll(t, a, R, u, p))
  {
    var R' := RemovedAll(t, a, R, u, p);
    forall v, q | Explicit(R', v, q, false) ensures !Explicit(R', v, q, true) {
      RemovedExplicit(t, a, R, u, p, v, q);
      if v == u && NewlyDenied(t, a.kind, R, u, Affected(t, a.kind, p), q) {
        NewlyDeniedIsAffected(t, a, R, u, p, q);
      }
    }
  }

  lemma RemovedKeepsGrantsAgree(t: Tables, a: Asset, R: Rows, u: User, p: Perm)
    requires GrantsAgree(t, R)
    ensures GrantsAgree(t, RemovedAll(t, a, R, u, p))
  {
    forall v, q | Explicit(RemovedAll(t, a, R, u, p), v, q, false) ensures Explicit(R, v, q, false) {
      RemovedExplicit(t, a, R, u, p, v, q);
    }
  }

  lemma RemovedKeepsNoContradiction(t: Tables, a: Asset, R: Rows, u: User, p: Perm)
    requires NoContradiction(t, R)
    ensures NoContradiction(t, RemovedAll(t, a, R, u, p))
  {
    RemovedKeepsNotBoth(t, a, R, u, p);
    RemovedKeepsGrantsAgree(t, a, R, u, p);
  }

  lemma RemovedKeepsGrantsClosed(t: Tables, a: Asset, R: Rows, u: User, p: Perm)
    requires RowsFit(t, a, R) && GrantsClosed(t, a, R)
    ensures GrantsClosed(t, a, RemovedAll(t, a, R, u, p))
  {
    var R' := RemovedAll(t, a, R, u, p);
    forall v, x, y | Explicit(R', v, x, false) && t.Implies(x, y) && y in t.Assignable(a.kind)
      ensures Explicit(R', v, y, false)
    {
      RemovedExplicit(t, a, R, u, p, v, x);
      RemovedExplicit(t, a, R, u, p, v, y);
      if v == u && y in Affected(t, a.kind, p) {
        AffectedIsUpwardClosed(t, a, p, x, y);
      }
    }
  }

  lemma RemovedKeepsInheritedClosed(t: Tables, a: Asset, R: Rows, u: User, p: Perm)
    requires RowsFit(t, a, R) && InheritedClosed(t, a, R)
    ensures InheritedClosed(t, a, RemovedAll(t, a, R, u, p))
  {
    var R' := RemovedAll(t, a, R, u, p);
    forall v, x, y | Inherited(R', v, x) && t.Implies(x, y) && y in t.Assignable(a.kind)
      ensures Inherited(R', v, y)
    {
      RemovedExplicit(t, a, R, u, p, v, x);
      RemovedExplicit(t, a, R, u, p, v, y);
      if v == u && y in Affected(t, a.kind, p) {
        AffectedIsUpwardClosed(t, a, p, x, y);
      }
    }
  }

  lemma RemovedKeepsDenialsClosed(t: Tables, a: Asset, R: Rows, u: User, p: Perm)
    requires DenialsClosed(t, a, R)
    ensures DenialsClosed(t, a, RemovedAll(t, a, R, u, p))
  {
    var R' := RemovedAll(t, a, R, u, p);
    forall v, x, y | Explicit(R', v, y, true) && t.Implies(x, y) && x in t.Assignable(a.kind) && Inheritable(t, a, v, x)
      ensures Explicit(R', v, x, true)
    {
      if !Explicit(R, v, y, true) {
        var z :| TurnsIntoDenial(R, u, Affected(t, a.kind, p), z) && y in t.Cone(a.kind, z, true);
        assert x in t.Cone(a.kind, y, true);
        ConeClosed(t, a.kind, z, y, true);
        assert NewlyDenied(t, a.kind, R, u, Affected(t, a.kind, p), x);
      }
    }
  }

  lemma RemovedKeepsNodeOk(t: Tables, a: Asset, R: Rows, u: User, p: Perm)
    requires NodeOk(t, a, R)
    ensures NodeOk(t, a, RemovedAll(t, a, R, u, p))
  {
    RemovedKeepsRowsFit(t, a, R, u, p);
    RemovedKeepsNoContradiction(t, a, R, u, p);
    RemovedKeepsGrantsClosed(t, a, R, u, p);
    RemovedKeepsInheritedClosed(t, a, R, u, p);
    RemovedKeepsDenialsClosed(t, a, R, u, p);
  }

  lemma RemovedDenials(t: Tables, a: Asset, R: Rows, u: User, p: Perm, v: User, q: Perm)
    ensures Denied(RemovedAll(t, a, R, u, p), v, q) <==>
            Denied(R, v, q) || (v == u && NewlyDenied(t, a.kind, R, u, Affected(t, a.kind, p), q))
  {
    assert Row(v, q, true, true) in RemovedAll(t, a, R, u, p) <==> Row(v, q, true, true) in R;
    RemovedExplicit(t, a, R, u, p, v, q);
  }

  lemma RemovedGrants(t: Tables, a: Asset, R: Rows, u: User, p: Perm, v: User, q: Perm)
    ensures Granted(RemovedAll(t, a, R, u, p), v, q) <==>
            Granted(R, v, q) && !(v == u && q in Affected(t, a.kind, p))
  {
    RemovedExplicit(t, a, R, u, p, v, q);
  }

  /** Removing p leaves u without p and without anything that implies it; everything else
      that u and everyone else hold stays exactly as effective as it was, whatever the rows are. */
  lemma RemovedTakesEffect(t: Tables, a: Asset, R: Rows, u: User, p: Perm, v: User, q: Perm)
    ensures Effective(t, RemovedAll(t, a, R, u, p), v, q) <==>
            Effective(t, R, v, q) && !(v == u && q in Affected(t, a.kind, p))
  {
    RemovedDenials(t, a, R, u, p, v, q);
    RemovedGrants(t, a, R, u, p, v, q);
    if NewlyDenied(t, a.kind, R, u, Affected(t, a.kind, p), q) {
      NewlyDeniedIsAffected(t, a, R, u, p, q);
    }
  }
}
