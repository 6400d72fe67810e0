/** get_all_implied_perms hands its asset to get_implied_perms in the position of `reverse`. */
module AllImpliedPerms {
  import opened Wrappers
  import opened Implication
  import opened PermissionTables

  /** An asset given as `for_instance` is a true value of `reverse`, and restricts nothing. */
  method GetAllImpliedPerms(t: Tables, forInstance: Option<AssetType>) returns (all: map<Perm, set<Perm>>)
    ensures all.Keys == t.implied.Keys
    ensures forall p :: p in all ==> all[p] == t.ImpliedPermsOf(p, forInstance.Some?)
  {
    all := map[];
    var codenames := t.implied.Keys;
    while codenames != {}
      invariant codenames <= t.implied.Keys && all.Keys == t.implied.Keys - codenames
      invariant forall p :: p in all ==> all[p] == t.ImpliedPermsOf(p, forInstance.Some?)
    {
      var codename :| codename in codenames;
      codenames := codenames - {codename};
      var implied := ImpliedPerms(t.implied, codename, forInstance.Some?, None);
      all := all[codename := implied];
    }
  }

  /** What the documentation promises for an asset: the implied permissions it can be given. */
  ghost function Documented(t: Tables, kind: AssetType, p: Perm): set<Perm> {
    t.ImpliedPermsOf(p, false) * t.Assignable(kind)
  }

  /** With an asset the promise is kept exactly for the permissions that nothing implies and that imply
      nothing the asset can be given, and, on a cycle, for those that nothing outside their cycle implies,
      and that imply nothing outside it that the asset can be given, when it can be given the whole cycle. */
  lemma AgreesWithDocumentedIff(t: Tables, kind: AssetType, p: Perm)
    ensures t.ImpliedPermsOf(p, true) == Documented(t, kind, p) <==>
            if !t.Implies(p, p) then t.ImpliedPermsOf(p, true) == {} && Documented(t, kind, p) == {}
            else
              && (forall q :: t.Implies(q, p) ==> t.Implies(p, q) && q in t.Assignable(kind))
              && (forall q :: t.Implies(p, q) && q in t.Assignable(kind) ==> t.Implies(q, p))
  {
    if t.ImpliedPermsOf(p, true) == Documented(t, kind, p) {
      forall q | t.Implies(q, p) ensures t.Implies(p, q) && q in t.Assignable(kind) && t.Implies(p, p) {
        assert q in Documented(t, kind, p);
        ImpliesTransitive(t, p, q, p);
      }
      forall q | t.Implies(p, q) && q in t.Assignable(kind) ensures t.Implies(q, p) {
        assert q in Documented(t, kind, p);
      }
      if !t.Implies(p, p) {
        assert forall q :: q !in t.ImpliedPermsOf(p, true);
      }
    }
  }

  /** On a real survey: change_asset is said to imply manage_asset, and no longer view_asset. */
  lemma ChangeAssetIsReversed()
    ensures ManageAsset in ASSET_TABLES.ImpliedPermsOf(ChangeAsset, true)
            - Documented(ASSET_TABLES, Survey, ChangeAsset)
    ensures ViewAsset in Documented(ASSET_TABLES, Survey, ChangeAsset) - ASSET_TABLES.ImpliedPermsOf(ChangeAsset, true)
  {
    AssetImplies(ManageAsset, ChangeAsset);
    AssetImplies(ChangeAsset, ManageAsset);
    AssetImplies(ChangeAsset, ViewAsset);
    AssetImplies(ViewAsset, ChangeAsset);
  }
}
