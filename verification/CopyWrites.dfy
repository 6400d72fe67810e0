/** Which permissions copied rows decide: where the copy leaves an explicit row, whatever the order. */
module CopyWrites {
  import opened Wrappers
  import opened PermissionTables
  import opened PartialPermissions
  import opened PermissionRows
  import opened PermissionInvariants
  import opened CopyPermissions

  /** Copying r grants or denies q, with whatever else it grants or denies. */
  ghost predicate Decides(t: Tables, kind: AssetType, filters: StoredFilters, r: Row, q: Perm) {
    || q in t.Cone(kind, r.perm, r.deny)
    || (BringsAdding(t, kind, r.perm, FiltersFor(filters, r)) && q in t.Cone(kind, AddSubmissions, false))
  }

  /** Some row of u decides q. */
  ghost predicate Decided(t: Tables, kind: AssetType, source: Rows, filters: StoredFilters, u: User, q: Perm) {
    exists r :: r in source && r.user == u && Decides(t, kind, filters, r, q)
  }

  /** A permission, and whether it is denied. */
  type Marks = set<(Perm, bool)>

  /** What one explicit row for p writes. */
  ghost function ConeMarks(t: Tables, kind: AssetType, p: Perm, deny: bool): Marks {
    set q | q in t.Cone(kind, p, deny) :: (q, deny)
  }

  ghost function Writes(t: Tables, kind: AssetType, filters: StoredFilters, r: Row): Marks {
    ConeMarks(t, kind, r.perm, r.deny)
    + (if BringsAdding(t, kind, r.perm, FiltersFor(filters, r)) then ConeMarks(t, kind, AddSubmissions, false) else {})
  }

  /** What the listed rows of u write. */
  ghost function Written(t: Tables, kind: AssetType, list: seq<Row>, filters: StoredFilters, u: User): Marks {
    if list == [] then {}
    else
      var r := list[|list| - 1];
      Written(t, kind, list[..|list| - 1], filters, u) + (if r.user == u then Writes(t, kind, filters, r) else {})
  }

  /** Everything explicit of u was written, and what was written is still explicit, one way or the other,
      unless something contradicts it. */
  ghost predicate Tracks(t: Tables, kind: AssetType, R: Rows, u: User, W: Marks) {
    && (forall q, deny :: Explicit(R, u, q, deny) ==> (q, deny) in W)
    && (forall q, deny :: (q, deny) in W && (forall x :: q !in t.Contradicts(x)) ==> IsExplicit(R, u, q))
    && (forall q, deny, x :: (q, deny) in W && x in t.Cone(kind, q, deny) ==> (x, deny) in W)
  }

  lemma WithRowTracks(t: Tables, a: Asset, R: Rows, u: User, p: Perm, deny: bool, W: Marks)
    requires Tracks(t, a.kind, R, u, W)
    ensures Tracks(t, a.kind, WithRow(t, a, R, u, p, deny), u, W + ConeMarks(t, a.kind, p, deny))
  {
    var S, W' := t.Cone(a.kind, p, deny), W + ConeMarks(t, a.kind, p, deny);
    var R' := WithRow(t, a, R, u, p, deny);
    forall q, d, x | (q, d) in W' && x in t.Cone(a.kind, q, d) ensures (x, d) in W' {
      if (q, d) !in W {
        ConeClosed(t, a.kind, p, q, d);
      }
    }
    if Explicit(R, u, p, deny) {
      assert (p, deny) in W && W' == W;
    } else {
      forall q, d | (q, d) in W' && forall x :: q !in t.Contradicts(x) ensures IsExplicit(R', u, q) {
        if q !in S {
          assert IsExplicit(R, u, q);
        }
      }
    }
  }

  lemma AssignTracks(t: Tables, a: Asset, R: Rows, filters: StoredFilters, r: Row, W: Marks)
    requires Tracks(t, a.kind, R, r.user, W)
    requires AssignOutcome(t, a, R, r.user, r.perm, r.deny, false, FiltersFor(filters, r)).Ok?
    ensures Tracks(t, a.kind, AssignOutcome(t, a, R, r.user, r.perm, r.deny, false, FiltersFor(filters, r)).value.rows,
                   r.user, W + Writes(t, a.kind, filters, r))
  {
    var R1, W1 := WithRow(t, a, R, r.user, r.perm, r.deny), W + ConeMarks(t, a.kind, r.perm, r.deny);
    AssignInTwo(t, a, R, r.user, r.perm, r.deny, FiltersFor(filters, r));
    WithRowTracks(t, a, R, r.user, r.perm, r.deny, W);
    if BringsAdding(t, a.kind, r.perm, FiltersFor(filters, r)) {
      WithRowTracks(t, a, R1, r.user, AddSubmissions, false, W1);
      assert W + Writes(t, a.kind, filters, r) == W1 + ConeMarks(t, a.kind, AddSubmissions, false);
    } else {
      assert W + Writes(t, a.kind, filters, r) == W1;
    }
  }

  lemma OthersTrack(t: Tables, kind: AssetType, R: Rows, R': Rows, v: User, u: User, W: Marks)
    requires Tracks(t, kind, R, u, W) && TouchesOwnRows(R, R', v) && v != u
    ensures Tracks(t, kind, R', u, W)
  {
    forall q, deny ensures Explicit(R', u, q, deny) <==> Explicit(R, u, q, deny) {
    }
  }

  lemma {:induction false} CopyTracks(t: Tables, a: Asset, R: Rows, list: seq<Row>, filters: StoredFilters, u: User)
    requires OnlyOwners(a, R) && a.owner != Some(u) && CopyOutcome(t, a, R, list, filters).Ok?
    ensures Tracks(t, a.kind, CopyOutcome(t, a, R, list, filters).value.rows, u, Written(t, a.kind, list, filters, u))
  {
    if list != [] {
      var init, r := list[..|list| - 1], list[|list| - 1];
      CopyTracks(t, a, R, init, filters, u);
      var R1, W1 := CopyOutcome(t, a, R, init, filters).value.rows, Written(t, a.kind, init, filters, u);
      if r.user == u {
        AssignTracks(t, a, R1, filters, r, W1);
      } else if IsForeign(a, r) {
        AssignTouchesOwnRows(t, a, R1, r.user, r.perm, r.deny, FiltersFor(filters, r));
        OthersTrack(t, a.kind, R1, CopyOutcome(t, a, R, list, filters).value.rows, r.user, u, W1);
      }
    }
  }

  lemma {:induction false} WrittenIff(t: Tables, kind: AssetType, list: seq<Row>, filters: StoredFilters, u: User,
                                      q: Perm, deny: bool)
    ensures (q, deny) in Written(t, kind, list, filters, u) <==>
            exists r :: r in list && r.user == u && (q, deny) in Writes(t, kind, filters, r)
  {
    if list != [] {
      var init, last := list[..|list| - 1], list[|list| - 1];
      assert list == init + [last];
      WrittenIff(t, kind, init, filters, u, q, deny);
    }
  }

  /** Whatever the order of the source rows: the copy leaves an explicit row of u for a permission that
      nothing contradicts exactly when some source row of u decides it. */
  lemma CopyDecidesIff(t: Tables, a: Asset, R: Rows, source: Rows, list: seq<Row>, filters: StoredFilters, u: User,
                       q: Perm)
    requires OnlyOwners(a, R) && a.owner != Some(u) && Listing(list, source)
    requires CopyOutcome(t, a, R, list, filters).Ok? && forall x :: q !in t.Contradicts(x)
    ensures IsExplicit(CopyOutcome(t, a, R, list, filters).value.rows, u, q) <==>
            Decided(t, a.kind, source, filters, u, q)
  {
    CopyTracks(t, a, R, list, filters, u);
    WrittenIff(t, a.kind, list, filters, u, q, false);
    WrittenIff(t, a.kind, list, filters, u, q, true);
    forall r ensures Decides(t, a.kind, filters, r, q) <==>
                     (q, false) in Writes(t, a.kind, filters, r) || (q, true) in Writes(t, a.kind, filters, r)
    {
      assert (q, r.deny) in ConeMarks(t, a.kind, r.perm, r.deny) <==> q in t.Cone(a.kind, r.perm, r.deny);
    }
  }
}
