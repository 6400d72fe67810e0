/** The permission tables an asset class must define, the conditions the permission
    logic relies on, and the tables that kpi.models.asset.Asset really defines. */
module PermissionTables {
  import opened Implication

  /** The codenames of the permissions on an asset. */
  datatype Perm =
    | ViewAsset
    | ChangeAsset
    | DiscoverAsset
    | ManageAsset
    | AddSubmissions
    | ViewSubmissions
    | PartialSubmissions
    | ChangeSubmissions
    | DeleteSubmissions
    | ValidateSubmissions
    | DeleteAsset

  datatype AssetType = Text | Empty | Question | Block | Survey | Template | Collection

  /** Codenames that end in `_submissions`. */
  predicate IsSubmissionsPerm(p: Perm) {
    p in {AddSubmissions, ViewSubmissions, PartialSubmissions, ChangeSubmissions, DeleteSubmissions,
          ValidateSubmissions}
  }

  /** Codenames that start with `partial_`. */
  predicate IsPartialPerm(p: Perm) {
    p == PartialSubmissions
  }

  datatype Tables = Tables(
    implied: Graph<Perm>,
    contradictory: map<Perm, set<Perm>>,
    heritable: map<Perm, Perm>,
    assignable: map<AssetType, set<Perm>>,
    allAssignable: set<Perm>,
    allowedAnonymous: set<Perm>,
    withChildren: set<AssetType>
  ) {
    /** get_assignable_permissions(), with partial permissions. */
    function Assignable(kind: AssetType): set<Perm> {
      if kind in assignable then assignable[kind] else {}
    }

    /** get_assignable_permissions(with_partial=False): what an owner is given. */
    function OwnerPerms(kind: AssetType): set<Perm> {
      set p | p in Assignable(kind) && !IsPartialPerm(p)
    }

    function Contradicts(p: Perm): set<Perm> {
      if p in contradictory then contradictory[p] else {}
    }

    /** p implies q, through any number of table entries. */
    ghost predicate Implies(p: Perm, q: Perm) {
      Reaches(implied, p, q)
    }

    ghost predicate ComesWith(p: Perm, q: Perm) {
      p == q || Implies(p, q)
    }

    /** What get_implied_perms(p, reverse) returns when no asset is passed. */
    ghost function ImpliedPermsOf(p: Perm, reverse: bool): set<Perm> {
      set q: Perm | if reverse then Implies(q, p) else Implies(p, q)
    }

    /** p and everything that has to be assigned with it on an asset of this type:
        what p implies for a grant, what implies p for a denial. */
    ghost function Cone(kind: AssetType, p: Perm, deny: bool): set<Perm> {
      {p} + ImpliedPermsOf(p, deny) * Assignable(kind)
    }

    /** Every permission an asset can inherit. */
    function HeritableRange(): set<Perm> {
      heritable.Values
    }

    /** No permission implies itself. */
    ghost predicate Acyclic() {
      forall p :: !Implies(p, p)
    }

    /** Nothing implies the partial permission, and what it implies implies nothing more. */
    ghost predicate PartialIsShallow() {
      && (forall p :: !Implies(p, PartialSubmissions))
      && (forall p, q :: Implies(PartialSubmissions, p) ==> !Implies(p, q))
    }

    ghost predicate AssignableOk() {
      && (forall kind, p :: p in Assignable(kind) ==> p in allAssignable)
      && (forall kind :: kind in withChildren ==> PartialSubmissions !in Assignable(kind))
    }

    /** What the anonymous user may have is closed under implication. */
    ghost predicate AnonymousOk() {
      && (forall p, q :: p in allowedAnonymous && Implies(p, q) ==> q in allowedAnonymous)
      && (forall p :: p in heritable && p in allowedAnonymous ==> heritable[p] in allowedAnonymous)
    }

    /** No two permissions of the parent become the same one of the child. */
    predicate InheritanceIsInjective() {
      forall p, q :: p in heritable && q in heritable && heritable[p] == heritable[q] ==> p == q
    }

    /** Whatever a translated permission implies on the child is the
        translation of something it implied on the parent, of any type. */
    ghost predicate TranslationIsKept(p: Perm, q: Perm, kind: AssetType, parentKind: AssetType) {
      p in heritable && p in Assignable(parentKind) && Implies(heritable[p], q) && q in Assignable(kind) ==>
        exists r :: Implies(p, r) && r in Assignable(parentKind) && r in heritable && heritable[r] == q
    }

    /** Inheritance is injective, never yields the partial permission, and keeps implications. */
    ghost predicate HeritableOk() {
      && InheritanceIsInjective()
      && PartialSubmissions !in HeritableRange()
      && (forall p, q, kind, parentKind :: TranslationIsKept(p, q, kind, parentKind))
    }

    /** Contradictions never touch what can be inherited, and only the partial permission
        is contradicted by anything other than itself. */
    ghost predicate ContradictionsAreNarrow() {
      && (forall p, c :: c in Contradicts(p) ==> c !in HeritableRange())
      && (forall p, c :: c in Contradicts(p) && p != PartialSubmissions ==> c == PartialSubmissions)
    }

    /** What implies a contradicted permission is contradicted too. */
    ghost predicate ContradictionsAreUpwardClosed() {
      forall p, c, q :: c in Contradicts(p) && Implies(q, c) ==> q in Contradicts(p)
    }

    /** No grant contradicts what comes with it. */
    ghost predicate NoSelfContradiction() {
      forall p, x, y :: ComesWith(p, x) && ComesWith(p, y) ==> y !in Contradicts(x)
    }

    /** A contradicted permission, or something granted with it, contradicts back. A symmetric table
        is answered; the real one is not symmetric, but it is answered. */
    ghost predicate ContradictionsAreAnswered() {
      forall kind, x, c :: c in Contradicts(x) && x in Assignable(kind) && c in Assignable(kind) ==>
        exists y :: y in Cone(kind, c, false) && x in Contradicts(y)
    }

    predicate ContradictionsAreSymmetric() {
      forall x, c :: c in Contradicts(x) ==> x in Contradicts(c)
    }

    /** Being granted the right to add submissions does not contradict the partial permission. */
    ghost predicate AddingLeavesPartial() {
      forall x :: ComesWith(AddSubmissions, x) ==> PartialSubmissions !in Contradicts(x)
    }

    /** The partial permission implies one permission at most. */
    ghost predicate PartialImpliesOne() {
      forall p, q :: Implies(PartialSubmissions, p) && Implies(PartialSubmissions, q) ==> p == q
    }

    ghost predicate Wf() {
      && PartialIsShallow()
      && AssignableOk()
      && AnonymousOk()
      && HeritableOk()
      && ContradictionsAreNarrow()
      && ContradictionsAreUpwardClosed()
      && NoSelfContradiction()
      && ContradictionsAreAnswered()
    }
  }

  lemma ImpliesTransitive(t: Tables, p: Perm, q: Perm, r: Perm)
    requires t.Implies(p, q) && t.Implies(q, r)
    ensures t.Implies(p, r)
  {
    ReachesTransitive(t.implied, p, q, r);
  }

  /** A cone holds the cones of its members. */
  lemma ConeClosed(t: Tables, kind: AssetType, p: Perm, q: Perm, deny: bool)
    requires q in t.Cone(kind, p, deny)
    ensures t.Cone(kind, q, deny) <= t.Cone(kind, p, deny)
  {
    forall r | r in t.Cone(kind, q, deny) ensures r in t.Cone(kind, p, deny) {
      if q != p && r != q {
        if deny {
          ImpliesTransitive(t, r, q, p);
        } else {
          ImpliesTransitive(t, p, q, r);
        }
      }
    }
  }

  // ---- The tables of kpi.models.asset.Asset ----

  const ASSIGNABLE_PERMISSIONS: set<Perm> :=
    {ViewAsset, ChangeAsset, DiscoverAsset, ManageAsset, AddSubmissions, ViewSubmissions,
     PartialSubmissions, ChangeSubmissions, DeleteSubmissions, ValidateSubmissions}

  const BASIC_PERMISSIONS: set<Perm> := {ViewAsset, ChangeAsset, ManageAsset}

  const IMPLIED_PERMISSIONS: Graph<Perm> := map[
    ChangeAsset := {ViewAsset},
    DiscoverAsset := {ViewAsset},
    ManageAsset := ASSIGNABLE_PERMISSIONS - {ManageAsset, PartialSubmissions},
    ViewSubmissions := {ViewAsset},
    PartialSubmissions := {ViewAsset},
    ChangeSubmissions := {ViewSubmissions, AddSubmissions},
    DeleteSubmissions := {ViewSubmissions},
    ValidateSubmissions := {ViewSubmissions}
  ]

  const CONTRADICTORY_PERMISSIONS: map<Perm, set<Perm>> := map[
    PartialSubmissions := {ViewSubmissions, ChangeSubmissions, DeleteSubmissions, ValidateSubmissions, ManageAsset},
    ViewSubmissions := {PartialSubmissions},
    ChangeSubmissions := {PartialSubmissions},
    DeleteSubmissions := {PartialSubmissions},
    ValidateSubmissions := {PartialSubmissions}
  ]

  const ASSET_TABLES := Tables(
    IMPLIED_PERMISSIONS,
    CONTRADICTORY_PERMISSIONS,
    map[ViewAsset := ViewAsset, ChangeAsset := ChangeAsset],
    map[
      Survey := ASSIGNABLE_PERMISSIONS - {DiscoverAsset},
      Template := BASIC_PERMISSIONS,
      Block := BASIC_PERMISSIONS,
      Question := BASIC_PERMISSIONS,
      Text := {},
      Empty := BASIC_PERMISSIONS,
      Collection := BASIC_PERMISSIONS + {DiscoverAsset}
    ],
    ASSIGNABLE_PERMISSIONS,
    {ViewAsset, DiscoverAsset, AddSubmissions, ViewSubmissions},
    {Collection}
  )

  /** Everything each permission implies in the real table, written out. */
  function AssetClosure(p: Perm): set<Perm> {
    match p
    case ChangeAsset => {ViewAsset}
    case DiscoverAsset => {ViewAsset}
    case ManageAsset => {ViewAsset, ChangeAsset, DiscoverAsset, AddSubmissions, ViewSubmissions,
                         ChangeSubmissions, DeleteSubmissions, ValidateSubmissions}
    case ViewSubmissions => {ViewAsset}
    case PartialSubmissions => {ViewAsset}
    case ChangeSubmissions => {ViewAsset, ViewSubmissions, AddSubmissions}
    case DeleteSubmissions => {ViewAsset, ViewSubmissions}
    case ValidateSubmissions => {ViewAsset, ViewSubmissions}
    case ViewAsset => {}
    case AddSubmissions => {}
    case DeleteAsset => {}
  }

  lemma AssetImplies(p: Perm, q: Perm)
    ensures ASSET_TABLES.Implies(p, q) <==> q in AssetClosure(p)
  {
    var g := IMPLIED_PERMISSIONS;
    if Reaches(g, p, q) {
      var n: nat :| n > 0 && Steps(g, p, q, n);
      forall x, y | (x == p || x in AssetClosure(p)) && Edge(g, x, y) ensures y in AssetClosure(p) {
        AssetClosureIsClosed(p, x, y);
      }
      ClosedContainsSteps(g, AssetClosure(p), p, q, n);
    }
    if q in AssetClosure(p) {
      AssetClosureIsReached(p, q);
    }
  }

  lemma AssetClosureIsReached(p: Perm, q: Perm)
    requires q in AssetClosure(p)
    ensures ASSET_TABLES.Implies(p, q)
  {
    var g := IMPLIED_PERMISSIONS;
    if Edge(g, p, q) {
      EdgeReaches(g, p, q);
    } else {
      assert Edge(g, p, ViewSubmissions) && Edge(g, ViewSubmissions, q);
      EdgeReaches(g, p, ViewSubmissions);
      EdgeReaches(g, ViewSubmissions, q);
      ReachesTransitive(g, p, ViewSubmissions, q);
    }
  }

  lemma AssetClosureIsClosed(p: Perm, x: Perm, y: Perm)
    requires (x == p || x in AssetClosure(p)) && Edge(IMPLIED_PERMISSIONS, x, y)
    ensures y in AssetClosure(p)
  {
  }

  lemma AssetImpliesAll()
    ensures forall p, q :: ASSET_TABLES.Implies(p, q) <==> q in AssetClosure(p)
  {
    forall p, q ensures ASSET_TABLES.Implies(p, q) <==> q in AssetClosure(p) {
      AssetImplies(p, q);
    }
  }

  lemma AssetImplicationIsOk()
    ensures ASSET_TABLES.Acyclic() && ASSET_TABLES.PartialIsShallow()
  {
    AssetImpliesAll();
  }

  lemma AssetAnonymousIsOk()
    ensures ASSET_TABLES.AnonymousOk()
  {
    AssetImpliesAll();
  }

  lemma AssetHeritable()
    ensures forall p :: p in ASSET_TABLES.heritable <==> p == ViewAsset || p == ChangeAsset
    ensures ASSET_TABLES.heritable[ViewAsset] == ViewAsset && ASSET_TABLES.heritable[ChangeAsset] == ChangeAsset
    ensures forall p :: p in ASSET_TABLES.HeritableRange() <==> p == ViewAsset || p == ChangeAsset
  {
    var h := ASSET_TABLES.heritable;
    assert forall p :: p in h <==> p == ViewAsset || p == ChangeAsset;
    assert h[ViewAsset] in h.Values && h[ChangeAsset] in h.Values;
  }

  lemma AssetHeritableImplies(p: Perm, q: Perm, kind: AssetType, parentKind: AssetType)
    requires p == ViewAsset || p == ChangeAsset
    requires ASSET_TABLES.Implies(p, q) && q in ASSET_TABLES.Assignable(kind)
    requires p in ASSET_TABLES.Assignable(parentKind)
    ensures q == ViewAsset && ViewAsset in ASSET_TABLES.Assignable(parentKind)
  {
    AssetImplies(p, q);
    assert parentKind != Text;
  }

  /** A table that lets permissions be inherited as they are. */
  lemma InheritedAsTheyAre(t: Tables)
    requires PartialSubmissions !in t.heritable && forall p :: p in t.heritable ==> t.heritable[p] == p
    requires forall p, q, kind, parentKind ::
               p in t.heritable && p in t.Assignable(parentKind) && t.Implies(p, q) && q in t.Assignable(kind) ==>
                 q in t.heritable && q in t.Assignable(parentKind)
    ensures t.HeritableOk()
  {
  }

  lemma AssetHeritableIsOk()
    ensures ASSET_TABLES.HeritableOk()
  {
    var t := ASSET_TABLES;
    AssetHeritable();
    forall p, q, kind, parentKind
      | p in t.heritable && p in t.Assignable(parentKind) && t.Implies(p, q) && q in t.Assignable(kind)
      ensures q in t.heritable && q in t.Assignable(parentKind)
    {
      AssetHeritableImplies(p, q, kind, parentKind);
    }
    InheritedAsTheyAre(t);
  }

  /** Who contradicts whom in the real table: the partial permission against five others. */
  lemma AssetContradicts(p: Perm, c: Perm)
    ensures c in ASSET_TABLES.Contradicts(p) <==>
            if p == PartialSubmissions
            then c in {ViewSubmissions, ChangeSubmissions, DeleteSubmissions, ValidateSubmissions, ManageAsset}
            else c == PartialSubmissions &&
                 p in {ViewSubmissions, ChangeSubmissions, DeleteSubmissions, ValidateSubmissions}
  {}

  lemma AssetContradictionsAnswered(kind: AssetType, x: Perm, c: Perm)
    requires c in ASSET_TABLES.Contradicts(x)
    requires x in ASSET_TABLES.Assignable(kind) && c in ASSET_TABLES.Assignable(kind)
    ensures exists y :: y in ASSET_TABLES.Cone(kind, c, false) && x in ASSET_TABLES.Contradicts(y)
  {
    AssetContradicts(x, c);
    if c == ManageAsset {
      AssetImplies(c, ViewSubmissions);
      AssetContradicts(ViewSubmissions, x);
      assert ViewSubmissions in ASSET_TABLES.Cone(kind, c, false);
    } else {
      AssetContradicts(c, x);
      assert c in ASSET_TABLES.Cone(kind, c, false);
    }
  }

  lemma AssetConeHasNoContradiction(p: Perm, x: Perm, y: Perm)
    requires ASSET_TABLES.ComesWith(p, x) && ASSET_TABLES.ComesWith(p, y)
    ensures y !in ASSET_TABLES.Contradicts(x)
  {
    AssetContradicts(x, y);
    AssetImplies(p, x);
    AssetImplies(p, y);
  }

  lemma AssetContradictionsAreNarrow()
    ensures ASSET_TABLES.ContradictionsAreNarrow()
    ensures ASSET_TABLES.ContradictionsAreUpwardClosed()
  {
    var t := ASSET_TABLES;
    forall p, c | c in t.Contradicts(p)
      ensures c !in t.HeritableRange()
      ensures p != PartialSubmissions ==> c == PartialSubmissions
    {
      AssetContradicts(p, c);
    }
    forall p, c, q | c in t.Contradicts(p) && t.Implies(q, c) ensures q in t.Contradicts(p) {
      AssetContradicts(p, c);
      AssetContradicts(p, q);
      AssetImplies(q, c);
    }
  }

  lemma AssetContradictionsAreConsistent()
    ensures ASSET_TABLES.NoSelfContradiction()
    ensures ASSET_TABLES.ContradictionsAreAnswered()
  {
    var t := ASSET_TABLES;
    forall p, x, y | t.ComesWith(p, x) && t.ComesWith(p, y) ensures y !in t.Contradicts(x) {
      AssetConeHasNoContradiction(p, x, y);
    }
    forall kind, x, c | c in t.Contradicts(x) && x in t.Assignable(kind) && c in t.Assignable(kind)
      ensures exists y :: y in t.Cone(kind, c, false) && x in t.Contradicts(y)
    {
      AssetContradictionsAnswered(kind, x, c);
    }
  }

  lemma AssetPartialImpliesOne()
    ensures ASSET_TABLES.PartialImpliesOne()
  {
    forall p | ASSET_TABLES.Implies(PartialSubmissions, p) ensures p == ViewAsset {
      AssetImplies(PartialSubmissions, p);
    }
  }

  lemma AssetAddingLeavesPartial()
    ensures ASSET_TABLES.AddingLeavesPartial()
  {
    forall x | ASSET_TABLES.ComesWith(AddSubmissions, x) ensures PartialSubmissions !in ASSET_TABLES.Contradicts(x) {
      AssetImplies(AddSubmissions, x);
      AssetContradicts(x, PartialSubmissions);
    }
  }

  /** The tables of kpi.models.asset.Asset meet every condition. */
  lemma AssetTablesAreWf()
    ensures ASSET_TABLES.Wf() && ASSET_TABLES.Acyclic()
  {
    AssetImplicationIsOk();
    AssetAnonymousIsOk();
    AssetHeritableIsOk();
    AssetContradictionsAreNarrow();
    AssetContradictionsAreConsistent();
  }

  // ---- Tables with a cycle ----

  /** Two permissions that imply each other. */
  const CYCLIC_TABLES := Tables(
    map[ViewSubmissions := {AddSubmissions}, AddSubmissions := {ViewSubmissions}],
    map[],
    map[ViewAsset := ViewAsset],
    map[Survey := {ViewAsset, ViewSubmissions, AddSubmissions}, Collection := {ViewAsset}],
    {ViewAsset, ViewSubmissions, AddSubmissions},
    {ViewAsset},
    {Collection}
  )

  lemma CyclicImplies(p: Perm, q: Perm)
    requires CYCLIC_TABLES.Implies(p, q)
    ensures p in {ViewSubmissions, AddSubmissions} && q in {ViewSubmissions, AddSubmissions}
  {
    var g := CYCLIC_TABLES.implied;
    var n: nat :| n > 0 && Steps(g, p, q, n);
    var m :| Edge(g, p, m) && Steps(g, m, q, n - 1);
    ClosedContainsSteps(g, {ViewSubmissions, AddSubmissions}, p, q, n);
  }

  /** The conditions do not rule out cycles of implications. */
  lemma CyclesAreAllowed()
    ensures CYCLIC_TABLES.Wf() && !CYCLIC_TABLES.Acyclic()
  {
    var t := CYCLIC_TABLES;
    EdgeReaches(t.implied, ViewSubmissions, AddSubmissions);
    EdgeReaches(t.implied, AddSubmissions, ViewSubmissions);
    ImpliesTransitive(t, ViewSubmissions, AddSubmissions, ViewSubmissions);
    forall p, q | t.Implies(p, q)
      ensures p in {ViewSubmissions, AddSubmissions} && q in {ViewSubmissions, AddSubmissions}
    {
      CyclicImplies(p, q);
    }
    InheritedAsTheyAre(t);
  }
}
