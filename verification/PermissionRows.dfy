/** The permission rows of one asset: what a call of assign_perm or remove_perm makes of them,
    in closed form and in whatever order the implied permissions are visited. */
module PermissionRows {
  import opened Wrappers
  import opened PermissionTables
  import opened PartialPermissions

  type User = int

  const ANONYMOUS_USER_ID: User := -1

  /** One record of the ObjectPermission table; the asset is given by the map that holds it. */
  datatype Row = Row(user: User, perm: Perm, deny: bool, inherited: bool)

  type Rows = set<Row>

  predicate Explicit(R: Rows, u: User, p: Perm, deny: bool) {
    Row(u, p, deny, false) in R
  }

  predicate Inherited(R: Rows, u: User, p: Perm) {
    Row(u, p, false, true) in R
  }

  // ---- Effective permissions ----

  predicate Granted(R: Rows, u: User, p: Perm) {
    Row(u, p, false, false) in R || Row(u, p, false, true) in R
  }

  predicate Denied(R: Rows, u: User, p: Perm) {
    Row(u, p, true, false) in R || Row(u, p, true, true) in R
  }

  /** (user, permission) is in `_get_effective_perms(include_calculated=False)`: granted,
      not denied, and not withheld from the anonymous user. */
  predicate Effective(t: Tables, R: Rows, u: User, p: Perm) {
    && Granted(R, u, p)
    && !Denied(R, u, p)
    && (u == ANONYMOUS_USER_ID ==> p in t.allowedAnonymous)
  }

  type Perms = set<(User, Perm)>

  /** The whole effective set, which a child inherits from. */
  ghost function EffectivePerms(t: Tables, R: Rows): (s: Perms)
    ensures forall u, p :: (u, p) in s <==> Effective(t, R, u, p)
  {
    set r | r in R && Effective(t, R, r.user, r.perm) :: (r.user, r.perm)
  }

  // ---- assign_perm ----

  /** Row r of user u stands in the way of newly assigning a permission of S: it is the opposite explicit
      row of a permission not assigned yet, or any row for what such a grant contradicts. */
  ghost predicate Cleared(t: Tables, R: Rows, u: User, S: set<Perm>, deny: bool, r: Row) {
    && r.user == u
    && (|| (r == Row(u, r.perm, !deny, false) && r.perm in S && !Explicit(R, u, r.perm, deny))
        || (!deny && exists x :: x in S && !Explicit(R, u, x, false) && r.perm in t.Contradicts(x)))
  }

  /** The rows once every permission of S is explicitly granted (or denied) to u. */
  ghost function Assigned(t: Tables, R: Rows, u: User, S: set<Perm>, deny: bool): (R': Rows)
    ensures forall r :: r in R' <==>
              (r in R && !Cleared(t, R, u, S, deny, r)) || (r.perm in S && r == Row(u, r.perm, deny, false))
  {
    (set r | r in R && !Cleared(t, R, u, S, deny, r)) + (set q | q in S :: Row(u, q, deny, false))
  }

  ghost predicate ConflictFree(t: Tables, S: set<Perm>) {
    forall x, y :: x in S && y in S ==> y !in t.Contradicts(x)
  }

  /** Assigning one set after another is assigning both at once: the visiting order does not matter. */
  lemma AssignedComposes(t: Tables, R: Rows, u: User, S1: set<Perm>, S2: set<Perm>, deny: bool)
    requires ConflictFree(t, S1 + S2)
    ensures Assigned(t, Assigned(t, R, u, S1, deny), u, S2, deny) == Assigned(t, R, u, S1 + S2, deny)
  {
    var R1 := Assigned(t, R, u, S1, deny);
    forall x | x in S2 ensures Explicit(R1, u, x, deny) <==> x in S1 || Explicit(R, u, x, deny) {
    }
    forall r | r in R && r !in R1 ensures r !in Assigned(t, R, u, S1 + S2, deny) {
    }
  }

  lemma AssignedComposesForDenials(t: Tables, R: Rows, u: User, S1: set<Perm>, S2: set<Perm>)
    ensures Assigned(t, Assigned(t, R, u, S1, true), u, S2, true) == Assigned(t, R, u, S1 + S2, true)
  {
    var R1 := Assigned(t, R, u, S1, true);
    forall x | x in S2 ensures Explicit(R1, u, x, true) <==> x in S1 || Explicit(R, u, x, true) {
    }
  }

  lemma AssignedAlready(t: Tables, R: Rows, u: User, p: Perm, deny: bool)
    requires Explicit(R, u, p, deny)
    ensures Assigned(t, R, u, {p}, deny) == R
  {}

  lemma GrantConeIsConflictFree(t: Tables, kind: AssetType, p: Perm)
    requires t.Wf()
    ensures ConflictFree(t, t.Cone(kind, p, false))
  {
    forall x, y | x in t.Cone(kind, p, false) && y in t.Cone(kind, p, false) ensures y !in t.Contradicts(x) {
      assert t.ComesWith(p, x) && t.ComesWith(p, y);
    }
  }

  type AssetId = int

  /** The fields of an asset that its permissions depend on; one that is to be deleted is in the trash. */
  datatype Asset = Asset(owner: Option<User>, kind: AssetType, parent: Option<AssetId>, pendingDelete: bool)

  /** What assign_perm and remove_perm raise; the transaction then leaves the table as it was. */
  datatype PermError = CannotAssign | AnonymousCannotHave | CannotRemove | BadPartialPerms

  /** The rows after a call, and whether the call got as far as recalculating the descendants. */
  datatype Change = Change(rows: Rows, recalculates: bool)

  type Outcome = Result<Change, PermError>

  /** The partial permissions that a call carries would be stored under this codename. */
  ghost predicate StoredUnder(t: Tables, kind: AssetType, partialPerms: PartialPerms, p: Perm) {
    p in partialPerms || exists f :: Intended(PassesOn(t, kind), partialPerms, p, f)
  }

  /** The denial of p meets the partial permission, which is denied already. */
  ghost predicate Refused(t: Tables, kind: AssetType, R: Rows, u: User, p: Perm, deny: bool) {
    && deny && p != PartialSubmissions && PartialSubmissions in t.Cone(kind, p, true)
    && Explicit(R, u, PartialSubmissions, true)
  }

  /** What assign_perm makes of the rows of an asset. */
  ghost function AssignOutcome(t: Tables, a: Asset, R: Rows, u: User, p: Perm, deny: bool,
                               deferRecalc: bool, partialPerms: PartialPerms): Outcome
    decreases if p == PartialSubmissions then 1 else 0, 2
  {
    if p !in t.Assignable(a.kind) then Err(CannotAssign)
    else if u == ANONYMOUS_USER_ID && !deny && p !in t.allowedAnonymous then Err(AnonymousCannotHave)
    else if Explicit(R, u, p, deny) then UpdatePartialOutcome(t, a, Change(R, false), u, p, partialPerms)
    else NewRowOutcome(t, a, R, u, p, deny, deferRecalc, partialPerms)
  }

  /** The case without an identical row. */
  ghost function NewRowOutcome(t: Tables, a: Asset, R: Rows, u: User, p: Perm, deny: bool,
                               deferRecalc: bool, partialPerms: PartialPerms): Outcome
    decreases if p == PartialSubmissions then 1 else 0, 1
  {
    var R1 := Assigned(t, R, u, t.Cone(a.kind, p, deny), deny);
    if Refused(t, a.kind, R, u, p, deny) then Err(BadPartialPerms)
    else if deferRecalc then Ok(Change(R1, false))
    else UpdatePartialOutcome(t, a, Change(R1, true), u, p, partialPerms)
  }

  /** What Asset._update_partial_permissions adds to it: nothing, unless it is the partial permission
      that was assigned; then the owner and a call without filters are refused, and filters for adding
      submissions bring that permission along. */
  ghost function UpdatePartialOutcome(t: Tables, a: Asset, c: Change, u: User, p: Perm,
                                      partialPerms: PartialPerms): Outcome
    decreases if p == PartialSubmissions then 1 else 0, 0
  {
    if p != PartialSubmissions then
      Ok(c)
    else if a.owner.None? || u == a.owner.value || partialPerms == map[] then
      Err(BadPartialPerms)
    else if !StoredUnder(t, a.kind, partialPerms, AddSubmissions) then
      Ok(c)
    else
      match AssignOutcome(t, a, c.rows, u, AddSubmissions, false, true, map[])
      case Ok(c2) => Ok(Change(c2.rows, c.recalculates))
      case Err(e) => Err(e)
  }

  // ---- remove_perm ----

  /** Removing x, a member of S, puts a denial in the place of an inherited row. */
  predicate TurnsIntoDenial(R: Rows, u: User, S: set<Perm>, x: Perm) {
    x in S && Inherited(R, u, x) && !Explicit(R, u, x, true)
  }

  /** The denials left by removing the permissions of S: for each one that was inherited and
      not denied yet, itself and everything that implies it. */
  ghost predicate NewlyDenied(t: Tables, kind: AssetType, R: Rows, u: User, S: set<Perm>, q: Perm) {
    exists x :: TurnsIntoDenial(R, u, S, x) && q in t.Cone(kind, x, true)
  }

  /** The rows once every permission of S is removed from u. */
  ghost function Removed(t: Tables, kind: AssetType, R: Rows, u: User, S: set<Perm>): (R': Rows)
    ensures forall r :: r in R' <==>
              || (r in R && !(r.user == u && !r.deny && r.perm in S))
              || (r == Row(u, r.perm, true, false) && NewlyDenied(t, kind, R, u, S, r.perm))
  {
    (set r | r in R && !(r.user == u && !r.deny && r.perm in S))
    + (set q: Perm | NewlyDenied(t, kind, R, u, S, q) :: Row(u, q, true, false))
  }

  /** Everything remove_perm(p) goes over: p and what implies it. */
  ghost function Affected(t: Tables, kind: AssetType, p: Perm): set<Perm> {
    t.Cone(kind, p, true)
  }

  /** What remove_perm makes of the rows of an asset. The last two errors come from
      the denial that replaces an inherited permission. */
  ghost function RemoveOutcome(t: Tables, a: Asset, R: Rows, u: User, p: Perm, deferRecalc: bool): Outcome {
    if p !in t.allAssignable then
      Err(CannotRemove)
    else if Inherited(R, u, p) && p !in t.Assignable(a.kind) then
      Err(CannotAssign)
    else if Inherited(R, u, p) && !Explicit(R, u, p, true) && PartialSubmissions in t.Cone(a.kind, p, true)
            && Explicit(R, u, PartialSubmissions, true) then
      Err(BadPartialPerms)
    else
      Ok(Change(Removed(t, a.kind, R, u, Affected(t, a.kind, p)), !deferRecalc))
  }

  ghost predicate UpwardClosed(t: Tables, kind: AssetType, S: set<Perm>) {
    forall x :: x in S ==> t.Cone(kind, x, true) <= S
  }

  lemma NewlyDeniedSplits(t: Tables, kind: AssetType, R: Rows, u: User, S1: set<Perm>, S2: set<Perm>, q: Perm)
    requires UpwardClosed(t, kind, S1) && NewlyDenied(t, kind, R, u, S1 + S2, q)
    ensures NewlyDenied(t, kind, R, u, S1, q) || NewlyDenied(t, kind, Removed(t, kind, R, u, S1), u, S2, q)
  {
    var R1 := Removed(t, kind, R, u, S1);
    var x :| TurnsIntoDenial(R, u, S1 + S2, x) && q in t.Cone(kind, x, true);
    if !TurnsIntoDenial(R, u, S1, x) {
      assert !NewlyDenied(t, kind, R, u, S1, x);
      assert TurnsIntoDenial(R1, u, S2, x);
    }
  }

  lemma NewlyDeniedJoins(t: Tables, kind: AssetType, R: Rows, u: User, S1: set<Perm>, S2: set<Perm>, q: Perm)
    requires NewlyDenied(t, kind, R, u, S1, q) || NewlyDenied(t, kind, Removed(t, kind, R, u, S1), u, S2, q)
    ensures NewlyDenied(t, kind, R, u, S1 + S2, q)
  {
    var R1 := Removed(t, kind, R, u, S1);
    if NewlyDenied(t, kind, R, u, S1, q) {
      var x :| TurnsIntoDenial(R, u, S1, x) && q in t.Cone(kind, x, true);
      assert TurnsIntoDenial(R, u, S1 + S2, x);
    } else {
      var x :| TurnsIntoDenial(R1, u, S2, x) && q in t.Cone(kind, x, true);
      assert TurnsIntoDenial(R, u, S1 + S2, x);
    }
  }

  /** Removing one set after another is removing both at once. */
  lemma RemovedComposes(t: Tables, kind: AssetType, R: Rows, u: User, S1: set<Perm>, S2: set<Perm>)
    requires UpwardClosed(t, kind, S1)
    ensures Removed(t, kind, Removed(t, kind, R, u, S1), u, S2) == Removed(t, kind, R, u, S1 + S2)
  {
    var R1 := Removed(t, kind, R, u, S1);
    forall q
      ensures NewlyDenied(t, kind, R, u, S1 + S2, q) <==>
              NewlyDenied(t, kind, R, u, S1, q) || NewlyDenied(t, kind, R1, u, S2, q)
    {
      if NewlyDenied(t, kind, R, u, S1 + S2, q) {
        NewlyDeniedSplits(t, kind, R, u, S1, S2, q);
      }
      if NewlyDenied(t, kind, R, u, S1, q) || NewlyDenied(t, kind, R1, u, S2, q) {
        NewlyDeniedJoins(t, kind, R, u, S1, S2, q);
      }
    }
  }
}
