/** When copy_permissions_from gives one user the same effective permissions in every order of the
    source rows, and when these are the source's. */
module CopyOrder {
  import opened Wrappers
  import opened Sequences
  import opened PermissionTables
  import opened PartialPermissions
  import opened PermissionRows
  import opened PermissionInvariants
  import opened PermissionInheritance
  import opened CopyPermissions
  import opened CopyWrites

  /** Some source row of u, with what comes with it, grants q, or denies it. */
  ghost predicate Marked(t: Tables, kind: AssetType, source: Rows, filters: StoredFilters, u: User, q: Perm,
                         deny: bool) {
    exists r :: r in source && r.user == u && (q, deny) in Writes(t, kind, filters, r)
  }

  /** The source rows of u, with what comes with them, both grant and deny a permission. */
  ghost predicate Clash(t: Tables, kind: AssetType, source: Rows, filters: StoredFilters, u: User) {
    exists q :: Marked(t, kind, source, filters, u, q, false) && Marked(t, kind, source, filters, u, q, true)
  }

  /** They grant two permissions that contradict each other. */
  ghost predicate Contradiction(t: Tables, kind: AssetType, source: Rows, filters: StoredFilters, u: User) {
    exists x, y :: && Marked(t, kind, source, filters, u, x, false) && Marked(t, kind, source, filters, u, y, false)
                   && y in t.Contradicts(x)
  }

  // ---- The rows of the target's owner play no part ----

  ghost predicate SameRowsOf(R1: Rows, R2: Rows, u: User) {
    forall r: Row :: r.user == u ==> (r in R1 <==> r in R2)
  }

  lemma WithRowIsLocal(t: Tables, a: Asset, R1: Rows, R2: Rows, u: User, p: Perm, deny: bool)
    requires SameRowsOf(R1, R2, u)
    ensures SameRowsOf(WithRow(t, a, R1, u, p, deny), WithRow(t, a, R2, u, p, deny), u)
  {
    var S := t.Cone(a.kind, p, deny);
    forall x ensures Explicit(R1, u, x, deny) <==> Explicit(R2, u, x, deny) {
    }
    forall r: Row | r.user == u ensures Cleared(t, R1, u, S, deny, r) <==> Cleared(t, R2, u, S, deny, r) {
    }
  }

  lemma AssignIsLocal(t: Tables, a: Asset, R1: Rows, R2: Rows, r: Row, filters: StoredFilters)
    requires SameRowsOf(R1, R2, r.user)
    ensures var o1 := AssignOutcome(t, a, R1, r.user, r.perm, r.deny, false, FiltersFor(filters, r));
            var o2 := AssignOutcome(t, a, R2, r.user, r.perm, r.deny, false, FiltersFor(filters, r));
            && (o1.Ok? <==> o2.Ok?)
            && (o1.Ok? ==> SameRowsOf(o1.value.rows, o2.value.rows, r.user))
  {
    var o1 := AssignOutcome(t, a, R1, r.user, r.perm, r.deny, false, FiltersFor(filters, r));
    var o2 := AssignOutcome(t, a, R2, r.user, r.perm, r.deny, false, FiltersFor(filters, r));
    assert Explicit(R1, r.user, PartialSubmissions, true) <==> Explicit(R2, r.user, PartialSubmissions, true);
    assert Explicit(R1, r.user, r.perm, r.deny) <==> Explicit(R2, r.user, r.perm, r.deny);
    AssignSucceedsIff(t, a, R1, r.user, r.perm, r.deny, FiltersFor(filters, r));
    AssignSucceedsIff(t, a, R2, r.user, r.perm, r.deny, FiltersFor(filters, r));
    if o1.Ok? {
      AssignInTwo(t, a, R1, r.user, r.perm, r.deny, FiltersFor(filters, r));
      AssignInTwo(t, a, R2, r.user, r.perm, r.deny, FiltersFor(filters, r));
      WithRowIsLocal(t, a, R1, R2, r.user, r.perm, r.deny);
      WithRowIsLocal(t, a, WithRow(t, a, R1, r.user, r.perm, r.deny), WithRow(t, a, R2, r.user, r.perm, r.deny),
                     r.user, AddSubmissions, false);
    }
  }

  ghost predicate SameForeign(a: Asset, R1: Rows, R2: Rows) {
    forall u :: a.owner != Some(u) ==> SameRowsOf(R1, R2, u)
  }

  /** Whether the copy raises, and what it leaves to anyone but the owner, does not depend on the owner's rows. */
  lemma {:induction false} CopyIsLocal(t: Tables, a: Asset, R1: Rows, R2: Rows, list: seq<Row>, filters: StoredFilters)
    requires SameForeign(a, R1, R2)
    ensures var o1, o2 := CopyOutcome(t, a, R1, list, filters), CopyOutcome(t, a, R2, list, filters);
            && (o1.Ok? <==> o2.Ok?)
            && (o1.Ok? ==> SameForeign(a, o1.value.rows, o2.value.rows))
  {
    if list != [] {
      var init, r := list[..|list| - 1], list[|list| - 1];
      CopyIsLocal(t, a, R1, R2, init, filters);
      if CopyOutcome(t, a, R1, init, filters).Ok? && IsForeign(a, r) {
        var c1, c2 := CopyOutcome(t, a, R1, init, filters).value, CopyOutcome(t, a, R2, init, filters).value;
        AssignIsLocal(t, a, c1.rows, c2.rows, r, filters);
        if CopyNext(t, a, c1, r, filters).Ok? {
          AssignTouchesOwnRows(t, a, c1.rows, r.user, r.perm, r.deny, FiltersFor(filters, r));
          AssignTouchesOwnRows(t, a, c2.rows, r.user, r.perm, r.deny, FiltersFor(filters, r));
        }
      }
    }
  }

  // ---- Without a clash or a contradiction ----

  ghost predicate NoConflict(t: Tables, W: Marks) {
    && (forall q :: !((q, false) in W && (q, true) in W))
    && (forall x, y :: (x, false) in W && (y, false) in W ==> y !in t.Contradicts(x))
  }

  ghost predicate HoldsGrants(R: Rows, u: User, W: Marks) {
    forall q :: (q, false) in W ==> Explicit(R, u, q, false)
  }

  lemma WithRowHoldsGrants(t: Tables, a: Asset, R: Rows, u: User, p: Perm, deny: bool, W: Marks)
    requires Tracks(t, a.kind, R, u, W) && HoldsGrants(R, u, W) && NoConflict(t, W + ConeMarks(t, a.kind, p, deny))
    ensures HoldsGrants(WithRow(t, a, R, u, p, deny), u, W + ConeMarks(t, a.kind, p, deny))
  {
    var S, W' := t.Cone(a.kind, p, deny), W + ConeMarks(t, a.kind, p, deny);
    forall q | q in S ensures (q, deny) in W' {
    }
    if Explicit(R, u, p, deny) {
      forall q | q in S ensures (q, deny) in W {
      }
    } else {
      forall q | (q, false) in W ensures !Cleared(t, R, u, S, deny, Row(u, q, false, false)) {
        assert (q, false) in W';
      }
    }
  }

  lemma AssignHoldsGrants(t: Tables, a: Asset, R: Rows, filters: StoredFilters, r: Row, W: Marks)
    requires Tracks(t, a.kind, R, r.user, W) && HoldsGrants(R, r.user, W)
    requires NoConflict(t, W + Writes(t, a.kind, filters, r))
    requires AssignOutcome(t, a, R, r.user, r.perm, r.deny, false, FiltersFor(filters, r)).Ok?
    ensures HoldsGrants(AssignOutcome(t, a, R, r.user, r.perm, r.deny, false, FiltersFor(filters, r)).value.rows,
                        r.user, W + Writes(t, a.kind, filters, r))
  {
    var R1, W1 := WithRow(t, a, R, r.user, r.perm, r.deny), W + ConeMarks(t, a.kind, r.perm, r.deny);
    AssignInTwo(t, a, R, r.user, r.perm, r.deny, FiltersFor(filters, r));
    WithRowTracks(t, a, R, r.user, r.perm, r.deny, W);
    WithRowHoldsGrants(t, a, R, r.user, r.perm, r.deny, W);
    if BringsAdding(t, a.kind, r.perm, FiltersFor(filters, r)) {
      assert W + Writes(t, a.kind, filters, r) == W1 + ConeMarks(t, a.kind, AddSubmissions, false);
      WithRowHoldsGrants(t, a, R1, r.user, AddSubmissions, false, W1);
    } else {
      assert W + Writes(t, a.kind, filters, r) == W1;
    }
  }

  lemma {:induction false} CopyHoldsGrants(t: Tables, a: Asset, R: Rows, list: seq<Row>, filters: StoredFilters,
                                           u: User)
    requires OnlyOwners(a, R) && a.owner != Some(u) && CopyOutcome(t, a, R, list, filters).Ok?
    requires NoConflict(t, Written(t, a.kind, list, filters, u))
    ensures HoldsGrants(CopyOutcome(t, a, R, list, filters).value.rows, u, Written(t, a.kind, list, filters, u))
  {
    if list != [] {
      var init, r := list[..|list| - 1], list[|list| - 1];
      CopyHoldsGrants(t, a, R, init, filters, u);
      var R1, W1 := CopyOutcome(t, a, R, init, filters).value.rows, Written(t, a.kind, init, filters, u);
      if r.user == u {
        CopyTracks(t, a, R, init, filters, u);
        AssignHoldsGrants(t, a, R1, filters, r, W1);
      } else if IsForeign(a, r) {
        AssignTouchesOwnRows(t, a, R1, r.user, r.perm, r.deny, FiltersFor(filters, r));
      }
    }
  }

  lemma MarkedIff(t: Tables, kind: AssetType, list: seq<Row>, source: Rows, filters: StoredFilters, u: User, q: Perm,
                  deny: bool)
    requires Listing(list, source)
    ensures (q, deny) in Written(t, kind, list, filters, u) <==> Marked(t, kind, source, filters, u, q, deny)
  {
    WrittenIff(t, kind, list, filters, u, q, deny);
  }

  /** Without a clash or a contradiction the explicit grants are exactly what the source rows grant; the denials
      are among what they deny, and exactly that where nothing contradicts it. */
  lemma CopyFollowsSource(t: Tables, a: Asset, R: Rows, source: Rows, list: seq<Row>, filters: StoredFilters, u: User,
                          q: Perm)
    requires OnlyOwners(a, R) && a.owner != Some(u) && Listing(list, source)
    requires CopyOutcome(t, a, R, list, filters).Ok?
    requires !Clash(t, a.kind, source, filters, u) && !Contradiction(t, a.kind, source, filters, u)
    ensures var C := CopyOutcome(t, a, R, list, filters).value.rows;
            && (Explicit(C, u, q, false) <==> Marked(t, a.kind, source, filters, u, q, false))
            && (Explicit(C, u, q, true) ==> Marked(t, a.kind, source, filters, u, q, true))
            && ((forall x :: q !in t.Contradicts(x)) && Marked(t, a.kind, source, filters, u, q, true) ==>
                  Explicit(C, u, q, true))
  {
    var W := Written(t, a.kind, list, filters, u);
    forall x, deny ensures (x, deny) in W <==> Marked(t, a.kind, source, filters, u, x, deny) {
      MarkedIff(t, a.kind, list, source, filters, u, x, deny);
    }
    CopyTracks(t, a, R, list, filters, u);
    CopyHoldsGrants(t, a, R, list, filters, u);
  }

  // ---- The copy, recalculated ----

  /** What the target holds in the end. */
  ghost function Copied(t: Tables, a: Asset, R: Rows, list: seq<Row>, filters: StoredFilters, parentPerms: Perms): Rows
    requires CopyOutcome(t, a, R, list, filters).Ok?
  {
    Recalculated(t, a, CopyOutcome(t, a, R, list, filters).value.rows, parentPerms)
  }

  /** The target with its owner's rows, and what its parent hands down. */
  ghost predicate Target(t: Tables, a: Asset, R: Rows, parentPerms: Perms) {
    t.Wf() && OnlyOwners(a, R) && OwnerOk(a) && PublicPermsOk(t, parentPerms)
  }

  /** The user ends with the same effective permissions in every order. */
  ghost predicate OrderFree(t: Tables, a: Asset, R: Rows, source: Rows, filters: StoredFilters, parentPerms: Perms,
                            u: User)
    requires NeverRaises(t, a, R, source, filters)
  {
    forall list1, list2, p :: Listing(list1, source) && Listing(list2, source) ==>
                                (Effective(t, Copied(t, a, R, list1, filters, parentPerms), u, p) <==>
                                 Effective(t, Copied(t, a, R, list2, filters, parentPerms), u, p))
  }

  /** The user ends with the source's effective permissions in every order. */
  ghost predicate Faithful(t: Tables, a: Asset, R: Rows, source: Rows, filters: StoredFilters, parentPerms: Perms,
                           u: User)
    requires NeverRaises(t, a, R, source, filters)
  {
    forall list, p :: Listing(list, source) ==>
                        (Effective(t, Copied(t, a, R, list, filters, parentPerms), u, p) <==>
                         Effective(t, source, u, p))
  }

  lemma NothingIsOk(t: Tables, a: Asset)
    ensures NodeOk(t, a, {}) && OnlyOwners(a, {})
  {
    assert forall u, p, deny :: !Explicit({}, u, p, deny);
  }

  /** The rows left to u are as sound as if the owner had none. */
  lemma CopiedRowsAreOk(t: Tables, a: Asset, R: Rows, list: seq<Row>, filters: StoredFilters, u: User)
    returns (C: Rows)
    requires t.Wf() && OnlyOwners(a, R) && a.owner != Some(u) && CopyOutcome(t, a, R, list, filters).Ok?
    ensures NodeOk(t, a, C) && SameRowsOf(C, CopyOutcome(t, a, R, list, filters).value.rows, u)
    ensures CopyOutcome(t, a, {}, list, filters).Ok? && C == CopyOutcome(t, a, {}, list, filters).value.rows
  {
    NothingIsOk(t, a);
    CopyIsLocal(t, a, {}, R, list, filters);
    CopyKeepsNodeOk(t, a, {}, list, filters);
    C := CopyOutcome(t, a, {}, list, filters).value.rows;
  }

  /** Explicit rows decide, whatever is inherited; without one, inheritance does. */
  lemma CopiedEffective(t: Tables, a: Asset, R: Rows, list: seq<Row>, filters: StoredFilters, parentPerms: Perms,
                        u: User, x: Perm)
    requires Target(t, a, R, parentPerms) && a.owner != Some(u) && CopyOutcome(t, a, R, list, filters).Ok?
    ensures var C := CopyOutcome(t, a, R, list, filters).value.rows;
            Effective(t, Copied(t, a, R, list, filters, parentPerms), u, x) <==>
            (Explicit(C, u, x, false) || Inherits(t, a, parentPerms, u, x)) && !Explicit(C, u, x, true)
  {
    var C := CopyOutcome(t, a, R, list, filters).value.rows;
    var C0 := CopiedRowsAreOk(t, a, R, list, filters, u);
    RecalculatedEffective(t, a, C, parentPerms, u, x);
    assert Explicit(C, u, x, false) ==> Row(u, x, false, false) in C0;
    if Inherits(t, a, parentPerms, u, x) {
      InheritsFits(t, a, parentPerms, u, x);
    }
  }

  lemma ContradictedIsNotInherited(t: Tables, a: Asset, parentPerms: Perms, u: User, x: Perm, y: Perm)
    requires t.Wf() && a.owner != Some(u) && y in t.Contradicts(x)
    ensures !Inherits(t, a, parentPerms, u, y)
  {
    if Inherits(t, a, parentPerms, u, y) {
      InheritsIsInheritable(t, a, parentPerms, u, y);
      assert false;
    }
  }

  /** Without a clash or a contradiction: u ends with what the source rows grant or
      the parent hands down, less what they deny. */
  lemma CopiedWithoutConflict(t: Tables, a: Asset, R: Rows, source: Rows, list: seq<Row>, filters: StoredFilters,
                              parentPerms: Perms, u: User, x: Perm)
    requires Target(t, a, R, parentPerms) && a.owner != Some(u) && Listing(list, source)
    requires CopyOutcome(t, a, R, list, filters).Ok?
    requires !Clash(t, a.kind, source, filters, u) && !Contradiction(t, a.kind, source, filters, u)
    ensures Effective(t, Copied(t, a, R, list, filters, parentPerms), u, x) <==>
            && (Marked(t, a.kind, source, filters, u, x, false) || Inherits(t, a, parentPerms, u, x))
            && !Marked(t, a.kind, source, filters, u, x, true)
  {
    CopiedEffective(t, a, R, list, filters, parentPerms, u, x);
    CopyFollowsSource(t, a, R, source, list, filters, u, x);
    if y :| x in t.Contradicts(y) {
      ContradictedIsNotInherited(t, a, parentPerms, u, y, x);
    }
  }

  // ---- With one, the order matters ----

  lemma ConeIsExplicit(t: Tables, a: Asset, R: Rows, u: User, p: Perm, deny: bool, x: Perm)
    requires NodeOk(t, a, R) && x in t.Cone(a.kind, p, deny) && (deny ==> x == p)
    ensures Explicit(WithRow(t, a, R, u, p, deny), u, x, deny)
  {
    if Explicit(R, u, p, deny) && x != p {
      assert GrantsClosed(t, a, R);
    }
  }

  /** The row listed last is assigned, with everything that comes with a grant. */
  lemma LastRowIsAssigned(t: Tables, a: Asset, init: seq<Row>, r: Row, filters: StoredFilters, x: Perm, deny: bool)
    requires t.Wf() && t.AddingLeavesPartial() && IsForeign(a, r)
    requires CopyOutcome(t, a, {}, init + [r], filters).Ok?
    requires (x, deny) in Writes(t, a.kind, filters, r) && (deny ==> x == r.perm)
    ensures Explicit(CopyOutcome(t, a, {}, init + [r], filters).value.rows, r.user, x, deny)
  {
    CopyOneMore(t, a, {}, init, r, filters);
    NothingIsOk(t, a);
    CopyKeepsNodeOk(t, a, {}, init, filters);
    var R0 := CopyOutcome(t, a, {}, init, filters).value.rows;
    AssignInTwo(t, a, R0, r.user, r.perm, r.deny, FiltersFor(filters, r));
    AssignedKeepsNodeOk(t, a, R0, r.user, r.perm, r.deny);
    var R1 := WithRow(t, a, R0, r.user, r.perm, r.deny);
    if (x, deny) in ConeMarks(t, a.kind, r.perm, r.deny) {
      ConeIsExplicit(t, a, R0, r.user, r.perm, r.deny, x);
      if BringsAdding(t, a.kind, r.perm, FiltersFor(filters, r)) {
        AddingKeepsRow(t, a, R1, r.user, x, deny);
      }
    } else {
      ConeIsExplicit(t, a, R1, r.user, AddSubmissions, false, x);
    }
  }

  /** So what a source row grants, and the permission that it denies, stands in some order. */
  lemma RowWinsSomewhere(t: Tables, a: Asset, R: Rows, source: Rows, r: Row, filters: StoredFilters, x: Perm,
                         deny: bool) returns (list: seq<Row>)
    requires t.Wf() && t.AddingLeavesPartial() && OnlyOwners(a, R) && IsForeign(a, r) && r in source
    requires NeverRaises(t, a, R, source, filters)
    requires (x, deny) in Writes(t, a.kind, filters, r) && (deny ==> x == r.perm)
    ensures Listing(list, source)
    ensures Explicit(CopyOutcome(t, a, R, list, filters).value.rows, r.user, x, deny)
  {
    var init := ListingEndingWith(source, r);
    list := init + [r];
    var C0 := CopiedRowsAreOk(t, a, R, list, filters, r.user);
    LastRowIsAssigned(t, a, init, r, filters, x, deny);
  }

  lemma OrdersDiffer(t: Tables, a: Asset, R: Rows, source: Rows, list1: seq<Row>, list2: seq<Row>,
                     filters: StoredFilters, parentPerms: Perms, u: User, p: Perm)
    requires NeverRaises(t, a, R, source, filters) && Listing(list1, source) && Listing(list2, source)
    requires Effective(t, Copied(t, a, R, list1, filters, parentPerms), u, p)
    requires !Effective(t, Copied(t, a, R, list2, filters, parentPerms), u, p)
    ensures !OrderFree(t, a, R, source, filters, parentPerms, u)
  {}

  /** What comes with a grant and with a denial: the grant comes with the denied permission itself. */
  lemma GrantMeetsDenial(t: Tables, a: Asset, filters: StoredFilters, r1: Row, r2: Row, q: Perm)
    requires (q, false) in Writes(t, a.kind, filters, r1) && (q, true) in Writes(t, a.kind, filters, r2)
    requires r2.perm in t.Assignable(a.kind)
    ensures r2.deny && (r2.perm, true) in Writes(t, a.kind, filters, r2)
    ensures (r2.perm, false) in Writes(t, a.kind, filters, r1)
  {
    assert q in t.Cone(a.kind, r2.perm, true);
    var g := if q in t.Cone(a.kind, r1.perm, false) && !r1.deny then r1.perm else AddSubmissions;
    assert q in t.Cone(a.kind, g, false);
    if q != r2.perm && q != g {
      ImpliesTransitive(t, g, q, r2.perm);
    }
    assert r2.perm in t.Cone(a.kind, g, false);
  }

  /** A clash gives two orders with different results: the grant last, or the denial last. */
  lemma ClashIsNotOrderFree(t: Tables, a: Asset, R: Rows, source: Rows, filters: StoredFilters, parentPerms: Perms,
                            u: User)
    requires Target(t, a, R, parentPerms) && t.AddingLeavesPartial() && a.owner != Some(u)
    requires NeverRaises(t, a, R, source, filters) && Clash(t, a.kind, source, filters, u)
    ensures !OrderFree(t, a, R, source, filters, parentPerms, u)
  {
    var q :| Marked(t, a.kind, source, filters, u, q, false) && Marked(t, a.kind, source, filters, u, q, true);
    var r1 :| r1 in source && r1.user == u && (q, false) in Writes(t, a.kind, filters, r1);
    var r2 :| r2 in source && r2.user == u && (q, true) in Writes(t, a.kind, filters, r2);
    var list := SomeListing(source);
    CopiedCanBeCopied(t, a, R, list, filters, r2);
    GrantMeetsDenial(t, a, filters, r1, r2, q);
    var list1 := RowWinsSomewhere(t, a, R, source, r1, filters, r2.perm, false);
    var list2 := RowWinsSomewhere(t, a, R, source, r2, filters, r2.perm, true);
    NotBothCopied(t, a, R, list1, filters, u, r2.perm);
    CopiedEffective(t, a, R, list1, filters, parentPerms, u, r2.perm);
    CopiedEffective(t, a, R, list2, filters, parentPerms, u, r2.perm);
    OrdersDiffer(t, a, R, source, list1, list2, filters, parentPerms, u, r2.perm);
  }

  lemma NotBothCopied(t: Tables, a: Asset, R: Rows, list: seq<Row>, filters: StoredFilters, u: User, x: Perm)
    requires t.Wf() && OnlyOwners(a, R) && a.owner != Some(u) && CopyOutcome(t, a, R, list, filters).Ok?
    requires Explicit(CopyOutcome(t, a, R, list, filters).value.rows, u, x, false)
    ensures !Explicit(CopyOutcome(t, a, R, list, filters).value.rows, u, x, true)
    ensures forall y :: y in t.Contradicts(x) ==> !Explicit(CopyOutcome(t, a, R, list, filters).value.rows, u, y, false)
  {
    var C0 := CopiedRowsAreOk(t, a, R, list, filters, u);
    assert forall y, deny :: Explicit(C0, u, y, deny) <==>
                             Explicit(CopyOutcome(t, a, R, list, filters).value.rows, u, y, deny);
  }

  /** So does a contradiction: either grant last. */
  lemma ContradictionIsNotOrderFree(t: Tables, a: Asset, R: Rows, source: Rows, filters: StoredFilters,
                                    parentPerms: Perms, u: User)
    requires Target(t, a, R, parentPerms) && t.AddingLeavesPartial() && a.owner != Some(u)
    requires NeverRaises(t, a, R, source, filters) && Contradiction(t, a.kind, source, filters, u)
    ensures !OrderFree(t, a, R, source, filters, parentPerms, u)
  {
    var x, y :| && Marked(t, a.kind, source, filters, u, x, false) && Marked(t, a.kind, source, filters, u, y, false)
                && y in t.Contradicts(x);
    var r1 :| r1 in source && r1.user == u && (x, false) in Writes(t, a.kind, filters, r1);
    var r2 :| r2 in source && r2.user == u && (y, false) in Writes(t, a.kind, filters, r2);
    var list1 := RowWinsSomewhere(t, a, R, source, r1, filters, x, false);
    var list2 := RowWinsSomewhere(t, a, R, source, r2, filters, y, false);
    NotBothCopied(t, a, R, list1, filters, u, x);
    NotBothCopied(t, a, R, list2, filters, u, y);
    ContradictedIsNotInherited(t, a, parentPerms, u, x, y);
    CopiedEffective(t, a, R, list1, filters, parentPerms, u, y);
    CopiedEffective(t, a, R, list2, filters, parentPerms, u, y);
    OrdersDiffer(t, a, R, source, list2, list1, filters, parentPerms, u, y);
  }

  /** The result is the same in every order exactly when the source rows, with what comes with them, neither
      both grant and deny a permission nor grant two that contradict each other. */
  lemma CopyIsOrderFreeIff(t: Tables, a: Asset, R: Rows, source: Rows, filters: StoredFilters, parentPerms: Perms,
                           u: User)
    requires Target(t, a, R, parentPerms) && t.AddingLeavesPartial() && a.owner != Some(u)
    requires NeverRaises(t, a, R, source, filters)
    ensures OrderFree(t, a, R, source, filters, parentPerms, u) <==>
            !Clash(t, a.kind, source, filters, u) && !Contradiction(t, a.kind, source, filters, u)
  {
    if Clash(t, a.kind, source, filters, u) {
      ClashIsNotOrderFree(t, a, R, source, filters, parentPerms, u);
    } else if Contradiction(t, a.kind, source, filters, u) {
      ContradictionIsNotOrderFree(t, a, R, source, filters, parentPerms, u);
    } else {
      forall list1, list2, p | Listing(list1, source) && Listing(list2, source)
        ensures Effective(t, Copied(t, a, R, list1, filters, parentPerms), u, p) <==>
                Effective(t, Copied(t, a, R, list2, filters, parentPerms), u, p)
      {
        CopiedWithoutConflict(t, a, R, source, list1, filters, parentPerms, u, p);
        CopiedWithoutConflict(t, a, R, source, list2, filters, parentPerms, u, p);
      }
    }
  }

  // ---- The whole copy, exceptions included ----

  /** Whether the copy raises does not depend on the order, nor, if it does not raise, what anyone ends with. */
  ghost predicate WhollyOrderFree(t: Tables, a: Asset, R: Rows, source: Rows, filters: StoredFilters,
                                  parentPerms: Perms)
  {
    forall list1, list2 :: Listing(list1, source) && Listing(list2, source) ==>
                             SameResult(t, a, R, list1, list2, filters, parentPerms)
  }

  ghost predicate SameResult(t: Tables, a: Asset, R: Rows, list1: seq<Row>, list2: seq<Row>, filters: StoredFilters,
                             parentPerms: Perms)
  {
    && (CopyOutcome(t, a, R, list1, filters).Ok? <==> CopyOutcome(t, a, R, list2, filters).Ok?)
    && (CopyOutcome(t, a, R, list1, filters).Ok? && CopyOutcome(t, a, R, list2, filters).Ok? ==>
          forall u, p :: Effective(t, Copied(t, a, R, list1, filters, parentPerms), u, p) <==>
                         Effective(t, Copied(t, a, R, list2, filters, parentPerms), u, p))
  }

  predicate IsPartialDenial(r: Row) {
    r.deny && r.perm == PartialSubmissions
  }

  /** Denials of the partial permission come last. */
  predicate PartialDenialsLast(list: seq<Row>) {
    forall i, j :: 0 <= i < j < |list| && IsPartialDenial(list[i]) ==> IsPartialDenial(list[j])
  }

  /** Where these come last, no other denial meets a partial permission that a row before it denied. */
  lemma OnlyOneDenies(t: Tables, a: Asset, list: seq<Row>, i: nat)
    requires t.PartialIsShallow() && t.PartialImpliesOne() && Distinct(list) && PartialDenialsLast(list)
    requires i < |list| - 1 && list[i].user == list[|list| - 1].user && DeniesPartial(t, a, list[i])
    requires forall r :: r in list && r.inherited ==> !r.deny
    ensures list[|list| - 1].deny ==> !t.Implies(PartialSubmissions, list[|list| - 1].perm)
  {
    var r, last := list[i], list[|list| - 1];
    assert r in list && last in list && r != last;
    assert IsPartialDenial(r) ==> IsPartialDenial(last);
  }

  lemma LastIsNotRefused(t: Tables, a: Asset, R: Rows, init: seq<Row>, last: Row, filters: StoredFilters)
    requires t.PartialIsShallow() && t.PartialImpliesOne() && OnlyOwners(a, R) && IsForeign(a, last)
    requires CopyOutcome(t, a, R, init, filters).Ok? && Distinct(init + [last]) && PartialDenialsLast(init + [last])
    requires forall r :: r in init + [last] && r.inherited ==> !r.deny
    ensures !Refused(t, a.kind, CopyOutcome(t, a, R, init, filters).value.rows, last.user, last.perm, last.deny)
  {
    if Explicit(CopyOutcome(t, a, R, init, filters).value.rows, last.user, PartialSubmissions, true) {
      PartialDeniedByListed(t, a, R, init, filters, last.user);
      var i :| 0 <= i < |init| && init[i].user == last.user && DeniesPartial(t, a, init[i]);
      OnlyOneDenies(t, a, init + [last], i);
    }
  }

  /** In such an order the copy does not raise. */
  lemma {:induction false} PartialDenialsLastRaisesNothing(t: Tables, a: Asset, R: Rows, source: Rows, list: seq<Row>,
                                                           filters: StoredFilters)
    requires t.PartialIsShallow() && t.PartialImpliesOne() && OnlyOwners(a, R)
    requires forall r :: r in source && r.inherited ==> !r.deny
    requires forall r :: r in source && IsForeign(a, r) ==> CanBeCopied(t, a, filters, r)
    requires Distinct(list) && (forall r :: r in list ==> r in source) && PartialDenialsLast(list)
    ensures CopyOutcome(t, a, R, list, filters).Ok?
  {
    if list != [] {
      var init, last := list[..|list| - 1], list[|list| - 1];
      assert list == init + [last] && last in list;
      PartialDenialsLastRaisesNothing(t, a, R, source, init, filters);
      if IsForeign(a, last) {
        var c := CopyOutcome(t, a, R, init, filters).value;
        LastIsNotRefused(t, a, R, init, last, filters);
        AssignSucceedsIff(t, a, c.rows, last.user, last.perm, last.deny, FiltersFor(filters, last));
      }
    }
  }

  lemma SomeOrderSucceeds(t: Tables, a: Asset, R: Rows, source: Rows, filters: StoredFilters) returns (list: seq<Row>)
    requires t.PartialIsShallow() && t.PartialImpliesOne() && OnlyOwners(a, R)
    requires forall r :: r in source && r.inherited ==> !r.deny
    requires forall r :: r in source && IsForeign(a, r) ==> CanBeCopied(t, a, filters, r)
    ensures Listing(list, source) && CopyOutcome(t, a, R, list, filters).Ok?
  {
    var last := set r | r in source && IsPartialDenial(r);
    var list1 := SomeListing(source - last);
    var list2 := SomeListing(last);
    list := list1 + list2;
    forall i | 0 <= i < |list| ensures IsPartialDenial(list[i]) <==> |list1| <= i {
      if i < |list1| {
        assert list1[i] in list1 && list1[i] in source - last;
      } else {
        assert list2[i - |list1|] in list2 && list2[i - |list1|] in last;
      }
    }
    assert Distinct(list);
    PartialDenialsLastRaisesNothing(t, a, R, source, list, filters);
  }

  /** The owner ends with the same in every order. */
  lemma OwnerIsOrderFree(t: Tables, a: Asset, R: Rows, list1: seq<Row>, list2: seq<Row>, filters: StoredFilters,
                         parentPerms: Perms, u: User, p: Perm)
    requires a.owner == Some(u)
    requires CopyOutcome(t, a, R, list1, filters).Ok? && CopyOutcome(t, a, R, list2, filters).Ok?
    ensures Effective(t, Copied(t, a, R, list1, filters, parentPerms), u, p) <==>
            Effective(t, Copied(t, a, R, list2, filters, parentPerms), u, p)
  {
    var C1, C2 := CopyOutcome(t, a, R, list1, filters).value.rows, CopyOutcome(t, a, R, list2, filters).value.rows;
    forall deny ensures Explicit(C1, u, p, deny) <==> Explicit(C2, u, p, deny) {
      CopyKeepsOwnersRows(t, a, R, list1, filters, Row(u, p, deny, false));
      CopyKeepsOwnersRows(t, a, R, list2, filters, Row(u, p, deny, false));
    }
    RecalculatedEffective(t, a, C1, parentPerms, u, p);
    RecalculatedEffective(t, a, C2, parentPerms, u, p);
  }

  /** The whole copy does not depend on the order exactly when it raises in all, some row being one that the
      target cannot be given, or no two rows of one user deny the partial permission, and the rows of
      no user but the owner clash or contradict each other. */
  lemma CopyIsWhollyOrderFreeIff(t: Tables, a: Asset, R: Rows, source: Rows, filters: StoredFilters,
                                 parentPerms: Perms)
    requires Target(t, a, R, parentPerms) && t.AddingLeavesPartial() && t.PartialImpliesOne()
    requires forall r :: r in source && r.inherited ==> !r.deny
    ensures WhollyOrderFree(t, a, R, source, filters, parentPerms) <==>
            || (exists r :: r in source && IsForeign(a, r) && !CanBeCopied(t, a, filters, r))
            || (&& OneDeniesPartial(t, a, source)
                && forall u :: a.owner != Some(u) ==>
                                 && !Clash(t, a.kind, source, filters, u)
                                 && !Contradiction(t, a.kind, source, filters, u))
  {
    if r :| r in source && IsForeign(a, r) && !CanBeCopied(t, a, filters, r) {
      forall list | Listing(list, source) ensures CopyOutcome(t, a, R, list, filters).Err? {
        if CopyOutcome(t, a, R, list, filters).Ok? {
          CopiedCanBeCopied(t, a, R, list, filters, r);
        }
      }
    } else if OneDeniesPartial(t, a, source) {
      NeverRaisesIff(t, a, R, source, filters);
      OrderFreeForAll(t, a, R, source, filters, parentPerms);
    } else {
      var list1 := SomeOrderRaises(t, a, R, source, filters);
      var list2 := SomeOrderSucceeds(t, a, R, source, filters);
      assert !SameResult(t, a, R, list1, list2, filters, parentPerms);
    }
  }

  /** Where no order raises: for every user on its own. */
  lemma OrderFreeForAll(t: Tables, a: Asset, R: Rows, source: Rows, filters: StoredFilters, parentPerms: Perms)
    requires Target(t, a, R, parentPerms) && t.AddingLeavesPartial() && NeverRaises(t, a, R, source, filters)
    ensures WhollyOrderFree(t, a, R, source, filters, parentPerms) <==>
            forall u :: a.owner != Some(u) ==>
                          && !Clash(t, a.kind, source, filters, u)
                          && !Contradiction(t, a.kind, source, filters, u)
  {
    forall u | a.owner != Some(u)
      ensures OrderFree(t, a, R, source, filters, parentPerms, u) <==>
              !Clash(t, a.kind, source, filters, u) && !Contradiction(t, a.kind, source, filters, u)
    {
      CopyIsOrderFreeIff(t, a, R, source, filters, parentPerms, u);
    }
    if WhollyOrderFree(t, a, R, source, filters, parentPerms) {
      forall u | a.owner != Some(u) ensures OrderFree(t, a, R, source, filters, parentPerms, u) {
        forall list1, list2, p | Listing(list1, source) && Listing(list2, source)
          ensures Effective(t, Copied(t, a, R, list1, filters, parentPerms), u, p) <==>
                  Effective(t, Copied(t, a, R, list2, filters, parentPerms), u, p)
        {
          assert SameResult(t, a, R, list1, list2, filters, parentPerms);
        }
      }
    }
    if forall u :: a.owner != Some(u) ==> OrderFree(t, a, R, source, filters, parentPerms, u) {
      forall list1, list2 | Listing(list1, source) && Listing(list2, source)
        ensures SameResult(t, a, R, list1, list2, filters, parentPerms)
      {
        forall u, p
          ensures Effective(t, Copied(t, a, R, list1, filters, parentPerms), u, p) <==>
                  Effective(t, Copied(t, a, R, list2, filters, parentPerms), u, p)
        {
          if a.owner == Some(u) {
            OwnerIsOrderFree(t, a, R, list1, list2, filters, parentPerms, u, p);
          } else {
            assert OrderFree(t, a, R, source, filters, parentPerms, u);
          }
        }
      }
    }
  }

  // ---- When the copy is faithful ----

  /** Whatever comes with what u is granted is granted, as far as the target's type goes. */
  ghost predicate GrantsComplete(t: Tables, a: Asset, source: Rows, filters: StoredFilters, u: User) {
    forall q :: Marked(t, a.kind, source, filters, u, q, false) ==> Granted(source, u, q)
  }

  /** The target's parent hands down nothing that the source does not grant or deny. */
  ghost predicate NothingHandedDown(t: Tables, a: Asset, source: Rows, filters: StoredFilters, parentPerms: Perms,
                                    u: User) {
    forall p :: Inherits(t, a, parentPerms, u, p) ==>
                  Granted(source, u, p) || Marked(t, a.kind, source, filters, u, p, true)
  }

  /** The result is the source's in every order exactly when, in addition, the grants are complete
      and the target's parent adds nothing. */
  lemma CopyIsFaithfulIff(t: Tables, a: Asset, R: Rows, source: Rows, filters: StoredFilters, parentPerms: Perms,
                          u: User)
    requires Target(t, a, R, parentPerms) && t.AddingLeavesPartial() && a.owner != Some(u)
    requires NeverRaises(t, a, R, source, filters)
    ensures Faithful(t, a, R, source, filters, parentPerms, u) <==>
            && !Clash(t, a.kind, source, filters, u) && !Contradiction(t, a.kind, source, filters, u)
            && GrantsComplete(t, a, source, filters, u) && NothingHandedDown(t, a, source, filters, parentPerms, u)
  {
    CopyIsOrderFreeIff(t, a, R, source, filters, parentPerms, u);
    if Faithful(t, a, R, source, filters, parentPerms, u) {
      FaithfulIsOrderFree(t, a, R, source, filters, parentPerms, u);
      FaithfulIsComplete(t, a, R, source, filters, parentPerms, u);
    }
    if && !Clash(t, a.kind, source, filters, u) && !Contradiction(t, a.kind, source, filters, u)
       && GrantsComplete(t, a, source, filters, u) && NothingHandedDown(t, a, source, filters, parentPerms, u)
    {
      forall list, p | Listing(list, source)
        ensures Effective(t, Copied(t, a, R, list, filters, parentPerms), u, p) <==> Effective(t, source, u, p)
      {
        CompleteIsFaithful(t, a, R, source, list, filters, parentPerms, u, p);
      }
    }
  }

  lemma FaithfulIsOrderFree(t: Tables, a: Asset, R: Rows, source: Rows, filters: StoredFilters, parentPerms: Perms,
                            u: User)
    requires NeverRaises(t, a, R, source, filters) && Faithful(t, a, R, source, filters, parentPerms, u)
    ensures OrderFree(t, a, R, source, filters, parentPerms, u)
  {
    forall list1, list2, p | Listing(list1, source) && Listing(list2, source)
      ensures Effective(t, Copied(t, a, R, list1, filters, parentPerms), u, p) <==>
              Effective(t, Copied(t, a, R, list2, filters, parentPerms), u, p)
    {
      assert Effective(t, Copied(t, a, R, list1, filters, parentPerms), u, p) <==> Effective(t, source, u, p);
    }
  }

  lemma FaithfulIsComplete(t: Tables, a: Asset, R: Rows, source: Rows, filters: StoredFilters, parentPerms: Perms,
                           u: User)
    requires Target(t, a, R, parentPerms) && a.owner != Some(u) && NeverRaises(t, a, R, source, filters)
    requires !Clash(t, a.kind, source, filters, u) && !Contradiction(t, a.kind, source, filters, u)
    requires Faithful(t, a, R, source, filters, parentPerms, u)
    ensures GrantsComplete(t, a, source, filters, u) && NothingHandedDown(t, a, source, filters, parentPerms, u)
  {
    var list := SomeListing(source);
    forall q | Marked(t, a.kind, source, filters, u, q, false) ensures Granted(source, u, q) {
      CopiedWithoutConflict(t, a, R, source, list, filters, parentPerms, u, q);
      assert Effective(t, source, u, q);
    }
    forall p | Inherits(t, a, parentPerms, u, p) && !Marked(t, a.kind, source, filters, u, p, true)
      ensures Granted(source, u, p)
    {
      CopiedWithoutConflict(t, a, R, source, list, filters, parentPerms, u, p);
      assert Effective(t, source, u, p);
    }
  }

  /** A source row of u that grants, or denies, p. */
  lemma SourceRow(source: Rows, u: User, p: Perm, deny: bool) returns (r: Row)
    requires if deny then Denied(source, u, p) else Granted(source, u, p)
    ensures r in source && r.user == u && r.perm == p && r.deny == deny
  {
    r := Row(u, p, deny, Row(u, p, deny, false) !in source);
  }

  lemma RowIsMarked(t: Tables, a: Asset, source: Rows, filters: StoredFilters, u: User, p: Perm, deny: bool)
    requires if deny then Denied(source, u, p) else Granted(source, u, p)
    ensures Marked(t, a.kind, source, filters, u, p, deny)
  {
    var r := SourceRow(source, u, p, deny);
    assert p in t.Cone(a.kind, p, deny) && (p, deny) in ConeMarks(t, a.kind, p, deny);
  }

  lemma CompleteIsFaithful(t: Tables, a: Asset, R: Rows, source: Rows, list: seq<Row>, filters: StoredFilters,
                           parentPerms: Perms, u: User, p: Perm)
    requires Target(t, a, R, parentPerms) && a.owner != Some(u) && Listing(list, source)
    requires CopyOutcome(t, a, R, list, filters).Ok?
    requires !Clash(t, a.kind, source, filters, u) && !Contradiction(t, a.kind, source, filters, u)
    requires GrantsComplete(t, a, source, filters, u) && NothingHandedDown(t, a, source, filters, parentPerms, u)
    ensures Effective(t, Copied(t, a, R, list, filters, parentPerms), u, p) <==> Effective(t, source, u, p)
  {
    CopiedWithoutConflict(t, a, R, source, list, filters, parentPerms, u, p);
    if Denied(source, u, p) {
      RowIsMarked(t, a, source, filters, u, p, true);
    }
    if Granted(source, u, p) {
      RowIsMarked(t, a, source, filters, u, p, false);
      var r := SourceRow(source, u, p, false);
      CopiedCanBeCopied(t, a, R, list, filters, r);
    }
  }

  // ---- Clashes ----

  /** A row of u grants g, or brings it along. */
  ghost predicate Gives(t: Tables, kind: AssetType, source: Rows, filters: StoredFilters, u: User, g: Perm) {
    || Granted(source, u, g)
    || (g == AddSubmissions && exists r :: r in source && r.user == u &&
                                           BringsAdding(t, kind, r.perm, FiltersFor(filters, r)))
  }

  /** Among permissions of the target's type there is a clash exactly when
      a permission given to u is, or implies, one denied to u. */
  lemma ClashIff(t: Tables, a: Asset, source: Rows, filters: StoredFilters, u: User)
    requires forall r :: r in source && r.user == u ==> r.perm in t.Assignable(a.kind)
    ensures Clash(t, a.kind, source, filters, u) <==>
            exists g, d :: Gives(t, a.kind, source, filters, u, g) && Denied(source, u, d) && t.ComesWith(g, d)
  {
    if Clash(t, a.kind, source, filters, u) {
      var q :| Marked(t, a.kind, source, filters, u, q, false) && Marked(t, a.kind, source, filters, u, q, true);
      var r1 :| r1 in source && r1.user == u && (q, false) in Writes(t, a.kind, filters, r1);
      var r2 :| r2 in source && r2.user == u && (q, true) in Writes(t, a.kind, filters, r2);
      GrantMeetsDenial(t, a, filters, r1, r2, q);
      RowGives(t, a, source, filters, r1, r2.perm);
      assert r2 == Row(u, r2.perm, true, r2.inherited);
      assert Denied(source, u, r2.perm);
    }
    if g, d :| Gives(t, a.kind, source, filters, u, g) && Denied(source, u, d) && t.ComesWith(g, d) {
      var r2 := SourceRow(source, u, d, true);
      RowIsMarked(t, a, source, filters, u, d, true);
      assert d in t.Cone(a.kind, g, false);
      assert (d, false) in ConeMarks(t, a.kind, g, false);
      if Granted(source, u, g) {
        var r1 := SourceRow(source, u, g, false);
        assert (d, false) in Writes(t, a.kind, filters, r1);
      } else {
        var r1 :| r1 in source && r1.user == u && BringsAdding(t, a.kind, r1.perm, FiltersFor(filters, r1));
        assert (d, false) in Writes(t, a.kind, filters, r1);
      }
      assert Marked(t, a.kind, source, filters, u, d, false);
    }
  }

  lemma RowGives(t: Tables, a: Asset, source: Rows, filters: StoredFilters, r: Row, d: Perm)
    requires r in source && (d, false) in Writes(t, a.kind, filters, r)
    ensures exists g :: Gives(t, a.kind, source, filters, r.user, g) && t.ComesWith(g, d)
  {
    if (d, false) in ConeMarks(t, a.kind, r.perm, r.deny) {
      assert r == Row(r.user, r.perm, false, r.inherited);
      assert Gives(t, a.kind, source, filters, r.user, r.perm) && t.ComesWith(r.perm, d);
    } else {
      assert Gives(t, a.kind, source, filters, r.user, AddSubmissions) && t.ComesWith(AddSubmissions, d);
    }
  }

  /** An ordinary source with a clash: an inherited permission was removed, and the asset
      was saved since, so that the inherited grant is back beside the denial. */
  lemma RemovedAndSavedClashes(t: Tables, b: Asset, R: Rows, parentPerms: Perms, u: User, p: Perm, a: Asset,
                               filters: StoredFilters)
    requires Inherited(R, u, p) && !Explicit(R, u, p, true) && Inherits(t, b, parentPerms, u, p)
    ensures Clash(t, a.kind, Recalculated(t, b, RemovedAll(t, b, R, u, p), parentPerms), filters, u)
  {
    var R1 := RemovedAll(t, b, R, u, p);
    var source := Recalculated(t, b, R1, parentPerms);
    assert TurnsIntoDenial(R, u, Affected(t, b.kind, p), p);
    assert NewlyDenied(t, b.kind, R, u, Affected(t, b.kind, p), p);
    RemovedExplicit(t, b, R, u, p, u, p);
    assert Explicit(source, u, p, true) && Inherited(source, u, p);
    RowIsMarked(t, a, source, filters, u, p, false);
    RowIsMarked(t, a, source, filters, u, p, true);
  }
}
