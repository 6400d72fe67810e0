/** copy_permissions_from: assigning the rows of one asset, in the order in which they are listed, to another one.
    What the copy keeps, when it raises, and when it depends on the order. */
module CopyPermissions {
  import opened Wrappers
  import opened Sequences
  import opened PermissionTables
  import opened PartialPermissions
  import opened PermissionRows
  import opened PermissionInvariants
  import opened PermissionInheritance

  /** The filters stored for the users of the source asset. */
  type StoredFilters = map<User, PartialPerms>

  function FiltersFor(filters: StoredFilters, r: Row): PartialPerms {
    if IsPartialPerm(r.perm) && r.user in filters then filters[r.user] else map[]
  }

  /** One more source row; the rows of the target's owner are skipped. */
  ghost function CopyNext(t: Tables, a: Asset, c: Change, r: Row, filters: StoredFilters): Outcome {
    if a.owner == Some(r.user) then Ok(c)
    else
      match AssignOutcome(t, a, c.rows, r.user, r.perm, r.deny, false, FiltersFor(filters, r))
      case Err(e) => Err(e)
      case Ok(c2) => Ok(Change(c2.rows, c.recalculates || c2.recalculates))
  }

  /** The rows of the target once the listed source rows have been assigned one after another. */
  ghost function CopyOutcome(t: Tables, a: Asset, R: Rows, list: seq<Row>, filters: StoredFilters): Outcome {
    if list == [] then Ok(Change(R, false))
    else
      match CopyOutcome(t, a, R, list[..|list| - 1], filters)
      case Err(e) => Err(e)
      case Ok(c) => CopyNext(t, a, c, list[|list| - 1], filters)
  }

  lemma CopyOneMore(t: Tables, a: Asset, R: Rows, list: seq<Row>, r: Row, filters: StoredFilters)
    ensures CopyOutcome(t, a, R, list + [r], filters) ==
            match CopyOutcome(t, a, R, list, filters)
            case Err(e) => Err(e)
            case Ok(c) => CopyNext(t, a, c, r, filters)
  {
    assert (list + [r])[..|list|] == list;
  }

  /** An error stops the copying for good. */
  lemma {:induction false} CopyingStopped(t: Tables, a: Asset, R: Rows, list: seq<Row>, i: nat, filters: StoredFilters)
    requires i <= |list| && CopyOutcome(t, a, R, list[..i], filters).Err?
    ensures CopyOutcome(t, a, R, list, filters) == CopyOutcome(t, a, R, list[..i], filters)
  {
    if i == |list| {
      assert list[..i] == list;
    } else {
      assert list[..|list| - 1][..i] == list[..i];
      CopyingStopped(t, a, R, list[..|list| - 1], i, filters);
    }
  }

  /** The rows that are kept when the copying starts. */
  function OwnersRows(a: Asset, R: Rows): Rows {
    set r | r in R && a.owner == Some(r.user)
  }

  /** Rows of the owner only. */
  predicate OnlyOwners(a: Asset, R: Rows) {
    forall r :: r in R ==> a.owner == Some(r.user)
  }

  predicate IsForeign(a: Asset, r: Row) {
    a.owner != Some(r.user)
  }

  predicate HasForeign(a: Asset, list: seq<Row>) {
    exists r :: r in list && IsForeign(a, r)
  }

  // ---- What every copy keeps ----

  lemma OwnersRowsAreOk(t: Tables, a: Asset, R: Rows)
    requires NodeOk(t, a, R)
    ensures NodeOk(t, a, OwnersRows(a, R))
  {
    var O := OwnersRows(a, R);
    forall v, p, deny ensures Explicit(O, v, p, deny) <==> a.owner == Some(v) && Explicit(R, v, p, deny) {
    }
    forall v, p ensures Inherited(O, v, p) <==> a.owner == Some(v) && Inherited(R, v, p) {
    }
  }

  /** Copying keeps the row invariants of the target, whatever the source holds. */
  lemma {:induction false} CopyKeepsNodeOk(t: Tables, a: Asset, R: Rows, list: seq<Row>, filters: StoredFilters)
    requires t.Wf() && NodeOk(t, a, R) && CopyOutcome(t, a, R, list, filters).Ok?
    ensures NodeOk(t, a, CopyOutcome(t, a, R, list, filters).value.rows)
  {
    if list != [] {
      var init, r := list[..|list| - 1], list[|list| - 1];
      CopyKeepsNodeOk(t, a, R, init, filters);
      if IsForeign(a, r) {
        var R1 := CopyOutcome(t, a, R, init, filters).value.rows;
        AssignOutcomeKeepsNodeOk(t, a, R1, r.user, r.perm, r.deny, FiltersFor(filters, r));
      }
    }
  }

  /** Whatever the explicit rows: copying leaves consistent ones. */
  lemma {:induction false} CopyKeepsConsistent(t: Tables, a: Asset, R: Rows, list: seq<Row>, filters: StoredFilters,
                                               agreeing: bool)
    requires t.Wf() && RowsConsistent(t, a, R, agreeing) && CopyOutcome(t, a, R, list, filters).Ok?
    ensures RowsConsistent(t, a, CopyOutcome(t, a, R, list, filters).value.rows, agreeing)
  {
    if list != [] {
      var init, r := list[..|list| - 1], list[|list| - 1];
      CopyKeepsConsistent(t, a, R, init, filters, agreeing);
      if IsForeign(a, r) {
        var R1 := CopyOutcome(t, a, R, init, filters).value.rows;
        AssignOutcomeKeepsConsistent(t, a, R1, r.user, r.perm, r.deny, FiltersFor(filters, r), agreeing);
      }
    }
  }

  /** The rows of other users are the same, and no inherited row is new. */
  ghost predicate TouchesOwnRows(R: Rows, R': Rows, u: User) {
    forall r: Row :: (r.user != u ==> (r in R' <==> r in R)) && (r.inherited && r in R' ==> r in R)
  }

  /** An assignment touches rows of its own user only, and creates no inherited row. */
  lemma AssignTouchesOwnRows(t: Tables, a: Asset, R: Rows, u: User, p: Perm, deny: bool, partialPerms: PartialPerms)
    requires AssignOutcome(t, a, R, u, p, deny, false, partialPerms).Ok?
    ensures TouchesOwnRows(R, AssignOutcome(t, a, R, u, p, deny, false, partialPerms).value.rows, u)
  {
    AssignInTwo(t, a, R, u, p, deny, partialPerms);
  }

  /** The owner's rows stay, and nobody else is given an inherited row. */
  lemma {:induction false} CopyKeepsOwnersRows(t: Tables, a: Asset, R: Rows, list: seq<Row>, filters: StoredFilters,
                                               r: Row)
    requires CopyOutcome(t, a, R, list, filters).Ok?
    ensures var R' := CopyOutcome(t, a, R, list, filters).value.rows;
            && (!IsForeign(a, r) ==> (r in R' <==> r in R))
            && (r.inherited && r in R' ==> r in R)
  {
    if list != [] {
      var init, s := list[..|list| - 1], list[|list| - 1];
      CopyKeepsOwnersRows(t, a, R, init, filters, r);
      if IsForeign(a, s) {
        var R1 := CopyOutcome(t, a, R, init, filters).value.rows;
        AssignTouchesOwnRows(t, a, R1, s.user, s.perm, s.deny, FiltersFor(filters, s));
      }
    }
  }

  /** The copy recalculates the descendants on the way exactly when the source
      has a row of someone else than the target's owner; else it changes no row. */
  lemma {:induction false} CopyRecalculatesIff(t: Tables, a: Asset, R: Rows, list: seq<Row>, filters: StoredFilters)
    requires OnlyOwners(a, R) && CopyOutcome(t, a, R, list, filters).Ok?
    ensures var c := CopyOutcome(t, a, R, list, filters).value;
            (c.recalculates <==> HasForeign(a, list)) && (!HasForeign(a, list) ==> c.rows == R)
  {
    if list != [] {
      var init, r := list[..|list| - 1], list[|list| - 1];
      assert list == init + [r];
      CopyRecalculatesIff(t, a, R, init, filters);
      ForeignOneMore(a, init, r);
      if IsForeign(a, r) && !HasForeign(a, init) {
        assert !Explicit(R, r.user, r.perm, r.deny);
        NewRowRecalculates(t, a, R, r.user, r.perm, r.deny, FiltersFor(filters, r));
      }
    }
  }

  lemma ForeignOneMore(a: Asset, list: seq<Row>, r: Row)
    ensures HasForeign(a, list + [r]) <==> HasForeign(a, list) || IsForeign(a, r)
  {
    if HasForeign(a, list) {
      var s :| s in list && IsForeign(a, s);
      assert s in list + [r];
    }
    assert r in list + [r];
  }

  lemma NewRowRecalculates(t: Tables, a: Asset, R: Rows, u: User, p: Perm, deny: bool, partialPerms: PartialPerms)
    requires !Explicit(R, u, p, deny) && AssignOutcome(t, a, R, u, p, deny, false, partialPerms).Ok?
    ensures AssignOutcome(t, a, R, u, p, deny, false, partialPerms).value.recalculates
  {}

  // ---- Listings of a source ----

  /** The source rows in some order. */
  predicate Listing(list: seq<Row>, source: Rows) {
    Distinct(list) && (forall r :: r in list ==> r in source) && forall r :: r in source ==> r in list
  }

  /** The copy raises in no order. */
  ghost predicate NeverRaises(t: Tables, a: Asset, R: Rows, source: Rows, filters: StoredFilters) {
    forall list :: Listing(list, source) ==> CopyOutcome(t, a, R, list, filters).Ok?
  }

  lemma {:induction false} SomeListing(source: Rows) returns (list: seq<Row>)
    ensures Listing(list, source)
    decreases |source|
  {
    if r :| r in source {
      var rest := SomeListing(source - {r});
      list := rest + [r];
      assert r !in rest;
    } else {
      list := [];
    }
  }

  lemma ListingEndingWith(source: Rows, r: Row) returns (init: seq<Row>)
    requires r in source
    ensures Listing(init + [r], source)
  {
    init := SomeListing(source - {r});
  }

  lemma ListingStartingWith(source: Rows, r1: Row, r2: Row) returns (rest: seq<Row>)
    requires r1 in source && r2 in source && r1 != r2
    ensures Listing([r1, r2] + rest, source)
  {
    rest := SomeListing(source - {r1, r2});
    var list := [r1, r2] + rest;
    forall r | r in list ensures r in source {
      if r !in rest {
        assert r == r1 || r == r2;
      }
    }
    assert list[0] == r1 && list[1] == r2;
  }

  // ---- When the copy raises ----

  /** The target can be given the row; a row for the partial permission needs
      an owner, stored filters, and whatever they bring along. */
  ghost predicate CanBeCopied(t: Tables, a: Asset, filters: StoredFilters, r: Row) {
    && CanBeGiven(t, a, r.user, r.perm, r.deny)
    && (r.perm == PartialSubmissions ==> a.owner.Some? && FiltersFor(filters, r) != map[])
    && (BringsAdding(t, a.kind, r.perm, FiltersFor(filters, r)) ==> CanBeGiven(t, a, r.user, AddSubmissions, false))
  }

  /** The row denies the partial permission, itself or with what it denies. */
  ghost predicate DeniesPartial(t: Tables, a: Asset, r: Row) {
    r.deny && t.ComesWith(PartialSubmissions, r.perm) && PartialSubmissions in t.Assignable(a.kind)
  }

  lemma {:induction false} CopiedCanBeCopied(t: Tables, a: Asset, R: Rows, list: seq<Row>, filters: StoredFilters,
                                             r: Row)
    requires CopyOutcome(t, a, R, list, filters).Ok? && r in list && IsForeign(a, r)
    ensures CanBeCopied(t, a, filters, r)
  {
    var init, last := list[..|list| - 1], list[|list| - 1];
    assert list == init + [last];
    if r != last {
      CopiedCanBeCopied(t, a, R, init, filters, r);
    } else {
      NextCanBeCopied(t, a, CopyOutcome(t, a, R, init, filters).value, r, filters);
    }
  }

  lemma NextCanBeCopied(t: Tables, a: Asset, c: Change, r: Row, filters: StoredFilters)
    requires IsForeign(a, r) && CopyNext(t, a, c, r, filters).Ok?
    ensures CanBeCopied(t, a, filters, r)
  {
    AssignSucceedsIff(t, a, c.rows, r.user, r.perm, r.deny, FiltersFor(filters, r));
  }

  /** Among the rows of one user, one at most denies the partial permission. */
  ghost predicate OneDeniesPartial(t: Tables, a: Asset, source: Rows) {
    forall r1, r2 ::
      r1 in source && r2 in source && IsForeign(a, r1) && r1.user == r2.user
      && DeniesPartial(t, a, r1) && DeniesPartial(t, a, r2) ==>
        r1 == r2
  }

  /** Only a denial of the partial permission, or of what it implies, denies it. */
  lemma PartialNewlyDenied(t: Tables, a: Asset, R: Rows, r: Row, partialPerms: PartialPerms)
    requires t.PartialIsShallow() && !Explicit(R, r.user, PartialSubmissions, true)
    requires AssignOutcome(t, a, R, r.user, r.perm, r.deny, false, partialPerms).Ok?
    requires Explicit(AssignOutcome(t, a, R, r.user, r.perm, r.deny, false, partialPerms).value.rows,
                      r.user, PartialSubmissions, true)
    ensures DeniesPartial(t, a, r)
  {
    AssignInTwo(t, a, R, r.user, r.perm, r.deny, partialPerms);
  }

  lemma {:induction false} PartialDeniedByListed(t: Tables, a: Asset, R: Rows, list: seq<Row>, filters: StoredFilters,
                                                 u: User)
    requires t.PartialIsShallow() && OnlyOwners(a, R) && a.owner != Some(u)
    requires CopyOutcome(t, a, R, list, filters).Ok?
    requires Explicit(CopyOutcome(t, a, R, list, filters).value.rows, u, PartialSubmissions, true)
    ensures exists r :: r in list && r.user == u && DeniesPartial(t, a, r)
  {
    if list != [] {
      var init, last := list[..|list| - 1], list[|list| - 1];
      assert list == init + [last] && last in list;
      var R1 := CopyOutcome(t, a, R, init, filters).value.rows;
      if Explicit(R1, u, PartialSubmissions, true) {
        PartialDeniedByListed(t, a, R, init, filters, u);
        var r :| r in init && r.user == u && DeniesPartial(t, a, r);
        assert r in list;
      } else if last.user == u {
        PartialNewlyDenied(t, a, R1, last, FiltersFor(filters, last));
      } else if IsForeign(a, last) {
        AssignTouchesOwnRows(t, a, R1, last.user, last.perm, last.deny, FiltersFor(filters, last));
      }
    }
  }

  lemma {:induction false} OneDenialRaisesNothing(t: Tables, a: Asset, R: Rows, source: Rows, list: seq<Row>,
                                                  filters: StoredFilters)
    requires t.PartialIsShallow() && OnlyOwners(a, R) && OneDeniesPartial(t, a, source)
    requires forall r :: r in source && IsForeign(a, r) ==> CanBeCopied(t, a, filters, r)
    requires Distinct(list) && forall r :: r in list ==> r in source
    ensures CopyOutcome(t, a, R, list, filters).Ok?
  {
    if list != [] {
      var init, last := list[..|list| - 1], list[|list| - 1];
      assert list == init + [last] && last in list;
      OneDenialRaisesNothing(t, a, R, source, init, filters);
      assert forall r :: r in init ==> r in source && r != last;
      var c := CopyOutcome(t, a, R, init, filters).value;
      if IsForeign(a, last) {
        if Explicit(c.rows, last.user, PartialSubmissions, true) && DeniesPartial(t, a, last) {
          PartialDeniedByListed(t, a, R, init, filters, last.user);
          assert false;
        }
        NextRaisesNothing(t, a, c, last, filters);
      }
    }
  }

  lemma NextRaisesNothing(t: Tables, a: Asset, c: Change, r: Row, filters: StoredFilters)
    requires CanBeCopied(t, a, filters, r) && IsForeign(a, r) && t.PartialIsShallow()
    requires !(Explicit(c.rows, r.user, PartialSubmissions, true) && DeniesPartial(t, a, r))
    ensures CopyNext(t, a, c, r, filters).Ok?
  {
    AssignSucceedsIff(t, a, c.rows, r.user, r.perm, r.deny, FiltersFor(filters, r));
  }

  /** The rows after the first row of a user, a denial. */
  lemma FirstDenial(t: Tables, a: Asset, R: Rows, r: Row, filters: StoredFilters)
    requires t.PartialIsShallow() && t.AddingLeavesPartial() && OnlyOwners(a, R) && IsForeign(a, r)
    requires DeniesPartial(t, a, r) && CanBeCopied(t, a, filters, r)
    ensures var outcome := CopyNext(t, a, Change(R, false), r, filters);
            && outcome.Ok?
            && Explicit(outcome.value.rows, r.user, PartialSubmissions, true)
            && (forall q :: q !in t.Cone(a.kind, r.perm, true) ==> !Explicit(outcome.value.rows, r.user, q, true))
  {
    assert forall p, deny :: !Explicit(R, r.user, p, deny);
    assert PartialSubmissions in t.Cone(a.kind, r.perm, true);
    NextRaisesNothing(t, a, Change(R, false), r, filters);
  }

  lemma TwoDenialsRaise(t: Tables, a: Asset, R: Rows, r1: Row, r2: Row, filters: StoredFilters)
    requires t.PartialIsShallow() && t.AddingLeavesPartial() && OnlyOwners(a, R)
    requires IsForeign(a, r1) && r1.user == r2.user && r1.perm != r2.perm && r2.perm != PartialSubmissions
    requires DeniesPartial(t, a, r1) && DeniesPartial(t, a, r2) && CanBeCopied(t, a, filters, r1)
    ensures CopyOutcome(t, a, R, [r1, r2], filters).Err?
  {
    assert [] + [r1] == [r1] && [r1] + [r2] == [r1, r2];
    CopyOneMore(t, a, R, [], r1, filters);
    CopyOneMore(t, a, R, [r1], r2, filters);
    FirstDenial(t, a, R, r1, filters);
    var c := CopyNext(t, a, Change(R, false), r1, filters).value;
    assert r2.perm !in t.Cone(a.kind, r1.perm, true);
    assert Refused(t, a.kind, c.rows, r2.user, r2.perm, true);
  }

  /** With two such rows of one user, an order raises in which they come first. */
  lemma SomeOrderRaises(t: Tables, a: Asset, R: Rows, source: Rows, filters: StoredFilters) returns (list: seq<Row>)
    requires t.PartialIsShallow() && t.AddingLeavesPartial() && OnlyOwners(a, R) && !OneDeniesPartial(t, a, source)
    requires forall r :: r in source && r.inherited ==> !r.deny
    requires forall r :: r in source && IsForeign(a, r) ==> CanBeCopied(t, a, filters, r)
    ensures Listing(list, source) && CopyOutcome(t, a, R, list, filters).Err?
  {
    var r1, r2 :| r1 in source && r2 in source && IsForeign(a, r1) && r1.user == r2.user
                  && DeniesPartial(t, a, r1) && DeniesPartial(t, a, r2) && r1 != r2;
    var first, second := if r2.perm == PartialSubmissions then r2 else r1,
                         if r2.perm == PartialSubmissions then r1 else r2;
    var rest := ListingStartingWith(source, first, second);
    list := [first, second] + rest;
    TwoDenialsRaise(t, a, R, first, second, filters);
    assert list[..2] == [first, second];
    CopyingStopped(t, a, R, list, 2, filters);
  }

  /** Copying raises in no order exactly when the target can be given every row,
      and no two rows of one user both deny the partial permission. */
  lemma NeverRaisesIff(t: Tables, a: Asset, R: Rows, source: Rows, filters: StoredFilters)
    requires t.PartialIsShallow() && t.AddingLeavesPartial() && OnlyOwners(a, R)
    requires forall r :: r in source && r.inherited ==> !r.deny
    ensures NeverRaises(t, a, R, source, filters) <==>
            && (forall r :: r in source && IsForeign(a, r) ==> CanBeCopied(t, a, filters, r))
            && OneDeniesPartial(t, a, source)
  {
    if NeverRaises(t, a, R, source, filters) {
      forall r | r in source && IsForeign(a, r) ensures CanBeCopied(t, a, filters, r) {
        var list := SomeListing(source);
        CopiedCanBeCopied(t, a, R, list, filters, r);
      }
      if !OneDeniesPartial(t, a, source) {
        var list := SomeOrderRaises(t, a, R, source, filters);
      }
    }
    if OneDeniesPartial(t, a, source) && forall r :: r in source && IsForeign(a, r) ==> CanBeCopied(t, a, filters, r) {
      forall list | Listing(list, source) ensures CopyOutcome(t, a, R, list, filters).Ok? {
        OneDenialRaisesNothing(t, a, R, source, list, filters);
      }
    }
  }
}
