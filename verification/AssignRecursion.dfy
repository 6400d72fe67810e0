/** The recursion of assign_perm and remove_perm over implied permissions: what the rows are
    after some of the recursive calls, in whatever order these are made. */
module AssignRecursion {
  import opened Wrappers
  import opened PermissionTables
  import opened PartialPermissions
  import opened PermissionRows

  /** What a call of assign_perm still has to create; it shrinks along the recursion, even around a cycle. */
  ghost function Missing(t: Tables, kind: AssetType, R: Rows, u: User, p: Perm, deny: bool): set<Perm> {
    set q | q in t.Cone(kind, p, deny) && !Explicit(R, u, q, deny)
  }

  /** The permissions that the recursive calls are for. */
  ghost function Others(t: Tables, kind: AssetType, p: Perm, deny: bool): set<Perm> {
    t.ImpliedPermsOf(p, deny) * t.Assignable(kind)
  }

  /** The rows of an asset once p and the permissions of S are assigned, with those of `todo` still to visit. */
  ghost predicate Assigning(t: Tables, kind: AssetType, R0: Rows, R: Rows, u: User, p: Perm, deny: bool,
                            S: set<Perm>, todo: set<Perm>) {
    && R == Assigned(t, R0, u, S, deny)
    && p in S && S <= t.Cone(kind, p, deny)
    && todo <= Others(t, kind, p, deny) <= S + todo
    && (deny && PartialSubmissions in Others(t, kind, p, true) ==>
          if PartialSubmissions in todo then PartialSubmissions !in S else !Explicit(R0, u, PartialSubmissions, true))
  }

  lemma AssignedFirst(t: Tables, R: Rows, u: User, p: Perm, deny: bool, cleared: Rows)
    requires !Explicit(R, u, p, deny)
    requires forall r :: r in cleared <==>
               r in R && r.user == u && (r == Row(u, p, !deny, false) || (!deny && r.perm in t.Contradicts(p)))
    ensures Assigned(t, R, u, {p}, deny) == R - cleared + {Row(u, p, deny, false)}
  {
    forall r ensures Cleared(t, R, u, {p}, deny, r) <==>
                     r.user == u && (r == Row(u, p, !deny, false) || (!deny && r.perm in t.Contradicts(p)))
    {
      if !deny && r.perm in t.Contradicts(p) {
        assert p in {p};
      }
    }
  }

  lemma AssigningFirst(t: Tables, kind: AssetType, R0: Rows, R: Rows, u: User, p: Perm, deny: bool)
    requires t.PartialIsShallow() && R == Assigned(t, R0, u, {p}, deny)
    ensures Assigning(t, kind, R0, R, u, p, deny, {p}, Others(t, kind, p, deny))
  {}

  lemma OthersDoNotLeadToPartial(t: Tables, kind: AssetType, p: Perm, q: Perm)
    requires t.PartialIsShallow() && q in Others(t, kind, p, true) && q != PartialSubmissions
    ensures PartialSubmissions !in t.Cone(kind, q, true)
  {}

  lemma ConeWithin(t: Tables, kind: AssetType, p: Perm, q: Perm, deny: bool)
    requires q in Others(t, kind, p, deny)
    ensures t.Cone(kind, q, deny) <= t.Cone(kind, p, deny)
  {
    ConeClosed(t, kind, p, q, deny);
  }

  /** What a recursive call adds. */
  ghost function Visited(t: Tables, kind: AssetType, R: Rows, u: User, q: Perm, deny: bool): set<Perm> {
    if Explicit(R, u, q, deny) then {q} else t.Cone(kind, q, deny)
  }

  lemma VisitedComposes(t: Tables, kind: AssetType, R0: Rows, R: Rows, u: User, p: Perm, deny: bool, S: set<Perm>,
                        q: Perm)
    requires !deny ==> ConflictFree(t, t.Cone(kind, p, deny))
    requires R == Assigned(t, R0, u, S, deny) && S <= t.Cone(kind, p, deny) && q in Others(t, kind, p, deny)
    ensures Assigned(t, R0, u, S + Visited(t, kind, R, u, q, deny), deny) ==
            if Explicit(R, u, q, deny) then R else Assigned(t, R, u, t.Cone(kind, q, deny), deny)
  {
    ConeWithin(t, kind, p, q, deny);
    if deny {
      AssignedComposesForDenials(t, R0, u, S, Visited(t, kind, R, u, q, deny));
    } else {
      AssignedComposes(t, R0, u, S, Visited(t, kind, R, u, q, deny), deny);
    }
    if Explicit(R, u, q, deny) {
      AssignedAlready(t, R, u, q, deny);
    }
  }

  /** One recursive call of assign_perm: it adds the cone of q, or finds q already assigned. It is refused
      only where it meets the partial permission denied already, and then the whole call is to be refused. */
  lemma AssigningNext(t: Tables, a: Asset, R0: Rows, R: Rows, u: User, p: Perm, deny: bool,
                      S: set<Perm>, todo: set<Perm>, q: Perm)
    requires t.PartialIsShallow() && (!deny ==> ConflictFree(t, t.Cone(a.kind, p, deny)))
    requires Assigning(t, a.kind, R0, R, u, p, deny, S, todo) && q in todo
    requires u == ANONYMOUS_USER_ID && !deny ==> q in t.allowedAnonymous
    ensures match AssignOutcome(t, a, R, u, q, deny, true, map[])
            case Ok(c) =>
              Assigning(t, a.kind, R0, c.rows, u, p, deny, S + Visited(t, a.kind, R, u, q, deny), todo - {q}) &&
                          !c.recalculates
            case Err(e) => e == BadPartialPerms && Refused(t, a.kind, R0, u, p, deny)
  {
    VisitedComposes(t, a.kind, R0, R, u, p, deny, S, q);
    ConeWithin(t, a.kind, p, q, deny);
    if deny && q != PartialSubmissions {
      OthersDoNotLeadToPartial(t, a.kind, p, q);
    }
  }

  lemma AssigningDone(t: Tables, a: Asset, R0: Rows, R: Rows, u: User, p: Perm, deny: bool, S: set<Perm>)
    requires t.PartialIsShallow() && Assigning(t, a.kind, R0, R, u, p, deny, S, {})
    ensures R == Assigned(t, R0, u, t.Cone(a.kind, p, deny), deny)
    ensures !Refused(t, a.kind, R0, u, p, deny)
  {
    assert S == t.Cone(a.kind, p, deny);
  }

  lemma MissingShrinks(t: Tables, kind: AssetType, R0: Rows, R: Rows, u: User, p: Perm, deny: bool,
                       S: set<Perm>, todo: set<Perm>, q: Perm)
    requires !deny ==> ConflictFree(t, t.Cone(kind, p, deny))
    requires Assigning(t, kind, R0, R, u, p, deny, S, todo) && q in todo && !Explicit(R0, u, p, deny)
    ensures Missing(t, kind, R, u, q, deny) < Missing(t, kind, R0, u, p, deny)
  {
    ConeWithin(t, kind, p, q, deny);
    assert p in Missing(t, kind, R0, u, p, deny) && p !in Missing(t, kind, R, u, q, deny);
    forall x | x in Missing(t, kind, R, u, q, deny) ensures x in Missing(t, kind, R0, u, p, deny) {
      assert !Cleared(t, R0, u, S, deny, Row(u, x, deny, false));
    }
  }

  // ---- remove_perm ----

  /** The rows once the permissions of S, all of which imply p, are removed, with those of `todo` still to visit. */
  ghost predicate Removing(t: Tables, kind: AssetType, R0: Rows, R: Rows, u: User, p: Perm, S: set<Perm>,
                           todo: set<Perm>) {
    && R == Removed(t, kind, R0, u, S)
    && S <= Others(t, kind, p, true) <= S + todo
    && todo <= Others(t, kind, p, true)
    && UpwardClosed(t, kind, S)
  }

  lemma RemovingFirst(t: Tables, kind: AssetType, R: Rows, u: User, p: Perm)
    ensures Removing(t, kind, R, R, u, p, {}, Others(t, kind, p, true))
  {}

  lemma UnionIsUpwardClosed(t: Tables, kind: AssetType, S: set<Perm>, q: Perm)
    requires UpwardClosed(t, kind, S)
    ensures UpwardClosed(t, kind, S + t.Cone(kind, q, true))
  {
    forall x | x in t.Cone(kind, q, true) ensures t.Cone(kind, x, true) <= t.Cone(kind, q, true) {
      ConeClosed(t, kind, q, x, true);
    }
  }

  /** What implies q, when q implies p, implies p. */
  lemma ConeOfOtherIsOthers(t: Tables, kind: AssetType, p: Perm, q: Perm)
    requires t.Acyclic() && q in Others(t, kind, p, true)
    ensures t.Cone(kind, q, true) <= Others(t, kind, p, true)
    ensures t.ImpliedPermsOf(q, true) < t.ImpliedPermsOf(p, true)
  {
    forall x | t.Implies(x, q) ensures t.Implies(x, p) {
      ImpliesTransitive(t, x, q, p);
    }
    assert q in t.ImpliedPermsOf(p, true) && q !in t.ImpliedPermsOf(q, true);
  }

  /** One recursive call of remove_perm: it is never refused, because only the partial permission's
      own implications could meet a denial of it. */
  lemma RemovingNext(t: Tables, a: Asset, R0: Rows, R: Rows, u: User, p: Perm, S: set<Perm>, todo: set<Perm>, q: Perm)
    requires t.Acyclic() && t.PartialIsShallow() && t.AssignableOk()
    requires !Inherited(R0, u, PartialSubmissions)
    requires Removing(t, a.kind, R0, R, u, p, S, todo) && q in todo
    ensures RemoveOutcome(t, a, R, u, q, true).Ok?
    ensures Removing(t, a.kind, R0, RemoveOutcome(t, a, R, u, q, true).value.rows, u, p,
                     S + t.Cone(a.kind, q, true), todo - {q})
    ensures !Inherited(RemoveOutcome(t, a, R, u, q, true).value.rows, u, PartialSubmissions)
  {
    ConeOfOtherIsOthers(t, a.kind, p, q);
    UnionIsUpwardClosed(t, a.kind, S, q);
    RemovedComposes(t, a.kind, R0, u, S, t.Cone(a.kind, q, true));
    if q != PartialSubmissions {
      OthersDoNotLeadToPartial(t, a.kind, p, q);
    }
    assert !Inherited(R, u, PartialSubmissions);
  }

  /** Nothing that implies p can leave a denial of p, nor of the partial permission. */
  lemma NothingAboveDenies(t: Tables, kind: AssetType, R: Rows, u: User, p: Perm, S: set<Perm>, q: Perm)
    requires t.Acyclic() && t.PartialIsShallow() && S <= Others(t, kind, p, true)
    requires q == p || (q == PartialSubmissions && !Inherited(R, u, PartialSubmissions))
    ensures !NewlyDenied(t, kind, R, u, S, q)
  {
    if x :| TurnsIntoDenial(R, u, S, x) && q in t.Cone(kind, x, true) {
      if q == p {
        if x != p {
          ImpliesTransitive(t, p, x, p);
        }
      } else if x != PartialSubmissions {
        OthersDoNotLeadToPartial(t, kind, p, x);
      }
    }
  }

  /** p itself adds no denial when it was not inherited, or is denied already. */
  lemma NoDenialOfItsOwn(t: Tables, kind: AssetType, R: Rows, u: User, p: Perm, S: set<Perm>, q: Perm)
    requires !TurnsIntoDenial(R, u, {p}, p)
    ensures NewlyDenied(t, kind, R, u, S + {p}, q) <==> NewlyDenied(t, kind, R, u, S, q)
  {
    if NewlyDenied(t, kind, R, u, S, q) {
      var x :| TurnsIntoDenial(R, u, S, x) && q in t.Cone(kind, x, true);
      assert TurnsIntoDenial(R, u, S + {p}, x);
    }
    if NewlyDenied(t, kind, R, u, S + {p}, q) {
      var x :| TurnsIntoDenial(R, u, S + {p}, x) && q in t.Cone(kind, x, true);
      assert TurnsIntoDenial(R, u, S, x);
    }
  }

  lemma NewlyDeniedInCone(t: Tables, kind: AssetType, R: Rows, u: User, p: Perm, S: set<Perm>, q: Perm)
    requires S <= t.Cone(kind, p, true) && NewlyDenied(t, kind, R, u, S, q)
    ensures q in t.Cone(kind, p, true)
  {
    var x :| TurnsIntoDenial(R, u, S, x) && q in t.Cone(kind, x, true);
    ConeClosed(t, kind, p, x, true);
  }

  /** A removal that turns p itself into a denial denies exactly the cone of p. */
  lemma ConeIsNewlyDenied(t: Tables, kind: AssetType, R: Rows, u: User, p: Perm, q: Perm)
    requires TurnsIntoDenial(R, u, {p}, p)
    ensures NewlyDenied(t, kind, R, u, t.Cone(kind, p, true), q) <==> q in t.Cone(kind, p, true)
  {
    if q in t.Cone(kind, p, true) {
      assert TurnsIntoDenial(R, u, t.Cone(kind, p, true), p);
    }
    if NewlyDenied(t, kind, R, u, t.Cone(kind, p, true), q) {
      NewlyDeniedInCone(t, kind, R, u, p, t.Cone(kind, p, true), q);
    }
  }

  /** R0 without u's grants in S, and with denials of N: what a removal leaves, with the denials named. */
  ghost predicate LeftBy(R0: Rows, R: Rows, u: User, S: set<Perm>, N: set<Perm>) {
    forall r :: r in R <==>
                || (r in R0 && !(r.user == u && !r.deny && r.perm in S))
                || (r == Row(u, r.perm, true, false) && r.perm in N)
  }

  lemma DenyingCompletes(t: Tables, R0: Rows, R: Rows, u: User, p: Perm, S: set<Perm>, N: set<Perm>)
    requires LeftBy(R0, R, u, S, N) && N <= S + {p}
    ensures LeftBy(R0, Assigned(t, R - {Row(u, p, false, false), Row(u, p, false, true)}, u, S + {p}, true), u, S + {p},
                   S + {p})
  {}

  lemma LeftByIsUnique(R0: Rows, R1: Rows, R2: Rows, u: User, S: set<Perm>, N: set<Perm>)
    requires LeftBy(R0, R1, u, S, N) && LeftBy(R0, R2, u, S, N)
    ensures R1 == R2
  {
    forall r ensures r in R1 <==> r in R2 {
    }
  }

  ghost function NewDenials(t: Tables, kind: AssetType, R: Rows, u: User, S: set<Perm>): set<Perm> {
    set q: Perm | NewlyDenied(t, kind, R, u, S, q)
  }

  lemma RemovedIsLeftBy(t: Tables, kind: AssetType, R: Rows, u: User, S: set<Perm>)
    ensures LeftBy(R, Removed(t, kind, R, u, S), u, S, NewDenials(t, kind, R, u, S))
  {}

  lemma DeletingCompletes(R0: Rows, R: Rows, u: User, p: Perm, S: set<Perm>, N: set<Perm>)
    requires LeftBy(R0, R, u, S, N)
    ensures LeftBy(R0, R - {Row(u, p, false, false), Row(u, p, false, true)}, u, S + {p}, N)
  {}

  /** After the recursive calls, deleting p's own grants completes a removal from which nothing was inherited. */
  lemma RemovingDirect(t: Tables, kind: AssetType, R0: Rows, R: Rows, u: User, p: Perm, S: set<Perm>)
    requires R == Removed(t, kind, R0, u, S) && !TurnsIntoDenial(R0, u, {p}, p)
    ensures R - {Row(u, p, false, false), Row(u, p, false, true)} == Removed(t, kind, R0, u, S + {p})
  {
    var N := NewDenials(t, kind, R0, u, S);
    assert NewDenials(t, kind, R0, u, S + {p}) == N by {
      forall q: Perm ensures q in NewDenials(t, kind, R0, u, S + {p}) <==> q in N {
        NoDenialOfItsOwn(t, kind, R0, u, p, S, q);
      }
    }
    RemovedIsLeftBy(t, kind, R0, u, S);
    RemovedIsLeftBy(t, kind, R0, u, S + {p});
    DeletingCompletes(R0, R, u, p, S, N);
    LeftByIsUnique(R0, R - {Row(u, p, false, false), Row(u, p, false, true)}, Removed(t, kind, R0, u, S + {p}), u,
                   S + {p}, N);
  }

  /** Denying p, where its inherited grant was deleted, completes the removal. */
  lemma RemovingInherited(t: Tables, kind: AssetType, R0: Rows, R: Rows, u: User, p: Perm, S: set<Perm>, C: set<Perm>)
    requires C == t.Cone(kind, p, true) && S + {p} == C
    requires R == Removed(t, kind, R0, u, S)
    requires TurnsIntoDenial(R0, u, {p}, p)
    ensures Assigned(t, R - {Row(u, p, false, false), Row(u, p, false, true)}, u, C, true) == Removed(t, kind, R0, u, C)
  {
    assert NewDenials(t, kind, R0, u, C) == C by {
      forall q: Perm ensures q in NewDenials(t, kind, R0, u, C) <==> q in C {
        ConeIsNewlyDenied(t, kind, R0, u, p, q);
      }
    }
    assert NewDenials(t, kind, R0, u, S) <= C by {
      forall q | q in NewDenials(t, kind, R0, u, S) ensures q in C {
        NewlyDeniedInCone(t, kind, R0, u, p, S, q);
      }
    }
    RemovedIsLeftBy(t, kind, R0, u, S);
    RemovedIsLeftBy(t, kind, R0, u, C);
    DenyingCompletes(t, R0, R, u, p, S, NewDenials(t, kind, R0, u, S));
    LeftByIsUnique(R0, Assigned(t, R - {Row(u, p, false, false), Row(u, p, false, true)}, u, C, true),
                   Removed(t, kind, R0, u, C), u, C, C);
  }

  /** The end of remove_perm, when p was inherited: the denial that replaces it decides the outcome. */
  lemma RemovingDone(t: Tables, a: Asset, R0: Rows, R: Rows, u: User, p: Perm, S: set<Perm>)
    requires t.Acyclic() && t.PartialIsShallow() && Removing(t, a.kind, R0, R, u, p, S, {})
    requires p in t.allAssignable && !Inherited(R0, u, PartialSubmissions)
    ensures Inherited(R, u, p) <==> Inherited(R0, u, p)
    ensures var R2 := R - {Row(u, p, false, false), Row(u, p, false, true)};
            var outcome := RemoveOutcome(t, a, R0, u, p, true);
            if Inherited(R0, u, p) then AssignOutcome(t, a, R2, u, p, true, true, map[]) == outcome
            else outcome == Ok(Change(R2, false))
  {
    var R2 := R - {Row(u, p, false, false), Row(u, p, false, true)};
    assert p !in S;
    NothingAboveDenies(t, a.kind, R0, u, p, S, p);
    NothingAboveDenies(t, a.kind, R0, u, p, S, PartialSubmissions);
    assert Explicit(R2, u, p, true) <==> Explicit(R0, u, p, true);
    assert Explicit(R2, u, PartialSubmissions, true) <==> Explicit(R0, u, PartialSubmissions, true);
    assert S + {p} == t.Cone(a.kind, p, true);
    if TurnsIntoDenial(R0, u, {p}, p) {
      RemovingInherited(t, a.kind, R0, R, u, p, S, t.Cone(a.kind, p, true));
    } else {
      RemovingDirect(t, a.kind, R0, R, u, p, S);
    }
  }
}
