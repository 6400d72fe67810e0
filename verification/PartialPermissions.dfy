/** Row-level ("partial") permissions: each submissions permission carries a list of Mongo filters,
    and the filters of a permission are copied, in place, to the permissions it implies. */
module PartialPermissions {
  import opened Wrappers
  import opened Sequences
  import opened Implication
  import opened PermissionTables

  /** A Mongo filter. */
  datatype Filter = Filter(json: string)

  /** A dictionary of filter lists. */
  type PartialPerms = map<Perm, seq<Filter>>

  /** (q, p) is here when filters attached to q are also attached to p. */
  type Passing = set<(Perm, Perm)>

  /** Filters go from a permission to the assignable submissions permissions that it implies. */
  ghost function PassesOn(t: Tables, kind: AssetType): Passing {
    set q: Perm, p: Perm | t.Implies(q, p) && p in t.Assignable(kind) && IsSubmissionsPerm(p) :: (q, p)
  }

  predicate Listed(m: PartialPerms, p: Perm, f: Filter) {
    p in m && f in m[p]
  }

  /** The intended result: p holds f when f was given for p or for a permission that passes it on. */
  ghost predicate Intended(passing: Passing, m: PartialPerms, p: Perm, f: Filter) {
    Listed(m, p, f) || exists q :: Listed(m, q, f) && (q, p) in passing
  }

  predicate AllDistinct(m: PartialPerms) {
    forall p :: p in m ==> Distinct(m[p])
  }

  /** m2 is m1 expanded: the same keys and those that receive a filter,
      and under each key exactly the intended filters. */
  ghost predicate IsExpansion(passing: Passing, m1: PartialPerms, m2: PartialPerms) {
    && (forall p :: p in m2 <==> p in m1 || exists f :: Intended(passing, m1, p, f))
    && (forall p, f :: Listed(m2, p, f) <==> Intended(passing, m1, p, f))
  }

  /** Whatever a permission allows, so does everything it passes its filters to. */
  ghost predicate IsExpanded(passing: Passing, m: PartialPerms) {
    forall q, p, f :: Listed(m, q, f) && (q, p) in passing ==> Listed(m, p, f)
  }

  ghost predicate Transitive(passing: Passing) {
    forall p, q, r :: (p, q) in passing && (q, r) in passing ==> (p, r) in passing
  }

  lemma PassesOnTransitive(t: Tables, kind: AssetType)
    ensures Transitive(PassesOn(t, kind))
  {
    var passing := PassesOn(t, kind);
    forall p, q, r | (p, q) in passing && (q, r) in passing ensures (p, r) in passing {
      ImpliesTransitive(t, p, q, r);
    }
  }

  lemma ExpansionIsExpanded(passing: Passing, m1: PartialPerms, m2: PartialPerms)
    requires Transitive(passing) && IsExpansion(passing, m1, m2)
    ensures IsExpanded(passing, m2)
  {
    forall q, p, f | Listed(m2, q, f) && (q, p) in passing ensures Listed(m2, p, f) {
      assert Intended(passing, m1, q, f);
      if !Listed(m1, q, f) {
        var r :| Listed(m1, r, f) && (r, q) in passing;
      }
    }
  }

  /** A submission is matched under a permission when one of its filters matches. */
  ghost predicate Matched<S(!new)>(matches: (Filter, S) -> bool, m: PartialPerms, p: Perm, s: S) {
    exists f :: Listed(m, p, f) && matches(f, s)
  }

  /** After the expansion a submission is matched under p when p itself, or a permission
      that implies it, matched the submission before. */
  lemma ExpansionMatches<S(!new)>(passing: Passing, matches: (Filter, S) -> bool,
                                  m1: PartialPerms, m2: PartialPerms, p: Perm, s: S)
    requires Transitive(passing) && IsExpansion(passing, m1, m2)
    ensures Matched(matches, m2, p, s) <==>
            Matched(matches, m1, p, s) || exists q :: (q, p) in passing && Matched(matches, m1, q, s)
  {
    if Matched(matches, m2, p, s) {
      var f :| Listed(m2, p, f) && matches(f, s);
      assert Intended(passing, m1, p, f);
    }
    if Matched(matches, m1, p, s) {
      var f :| Listed(m1, p, f) && matches(f, s);
      assert Intended(passing, m1, p, f);
    } else if q :| (q, p) in passing && Matched(matches, m1, q, s) {
      var f :| Listed(m1, q, f) && matches(f, s);
      assert Intended(passing, m1, p, f);
    }
  }

  /** After the expansion every submission matched under p is matched under
      each submissions permission that p implies. */
  lemma ExpansionMatchesImplied<S(!new)>(passing: Passing, matches: (Filter, S) -> bool,
                                         m1: PartialPerms, m2: PartialPerms, p: Perm, q: Perm, s: S)
    requires Transitive(passing) && IsExpansion(passing, m1, m2)
    requires (p, q) in passing && Matched(matches, m2, p, s)
    ensures Matched(matches, m2, q, s)
  {
    ExpansionIsExpanded(passing, m1, m2);
    var f :| Listed(m2, p, f) && matches(f, s);
    assert Listed(m2, q, f);
  }

  /** Something that passes its filters on to p has one that p lacks. */
  ghost predicate Gains(passing: Passing, m: PartialPerms, p: Perm) {
    exists q, f :: (q, p) in passing && Listed(m, q, f) && !Listed(m, p, f)
  }

  /** The second list is the first one with other filters appended. */
  predicate Appended(l1: seq<Filter>, l2: seq<Filter>) {
    l1 <= l2 && forall k :: |l1| <= k < |l2| ==> l2[k] !in l1
  }

  predicate ExtendsLists(m1: PartialPerms, m2: PartialPerms) {
    forall p :: p in m1 ==> p in m2 && Appended(m1[p], m2[p])
  }

  lemma ExtendsListsTransitive(m1: PartialPerms, m2: PartialPerms, m3: PartialPerms)
    requires ExtendsLists(m1, m2) && ExtendsLists(m2, m3)
    ensures ExtendsLists(m1, m3)
  {
    forall p | p in m1 ensures p in m3 && Appended(m1[p], m3[p]) {
      forall k | |m1[p]| <= k < |m3[p]| ensures m3[p][k] !in m1[p] {
        assert k < |m2[p]| ==> m3[p][k] == m2[p][k];
        assert forall f :: f in m1[p] ==> f in m2[p];
      }
    }
  }

  /** In an expansion that only appends, the list of a key has changed exactly when the key gains a filter. */
  lemma ListChangesIff(passing: Passing, m1: PartialPerms, m2: PartialPerms, p: Perm)
    requires IsExpansion(passing, m1, m2) && ExtendsLists(m1, m2) && p in m1
    ensures m2[p] != m1[p] <==> Gains(passing, m1, p)
  {
    if m2[p] != m1[p] {
      var f := m2[p][|m1[p]|];
      assert Listed(m2, p, f) && Intended(passing, m1, p, f) && !Listed(m1, p, f);
    }
    if q, f :| (q, p) in passing && Listed(m1, q, f) && !Listed(m1, p, f) {
      assert Intended(passing, m1, p, f) && Listed(m2, p, f);
    }
  }

  /** So an expanded dictionary is left as it is. */
  lemma ExpandedStays(passing: Passing, m1: PartialPerms, m2: PartialPerms)
    requires IsExpansion(passing, m1, m2) && ExtendsLists(m1, m2)
    requires IsExpanded(passing, m1)
    ensures m2 == m1
  {
    forall p, f | Intended(passing, m1, p, f) ensures p in m1 {
    }
    forall p | p in m1 ensures m2[p] == m1[p] {
      ListChangesIff(passing, m1, m2, p);
    }
  }

  lemma ListsChangeIff(passing: Passing, m1: PartialPerms, m2: PartialPerms)
    requires ExpandingTo(passing, m1, m2, {})
    ensures IsExpansion(passing, m1, m2) && (IsExpanded(passing, m1) ==> m2 == m1)
    ensures forall p :: p in m1 ==> (m2[p] != m1[p] <==> Gains(passing, m1, p))
  {
    ExpandingIsExpansion(passing, m1, m2);
    if IsExpanded(passing, m1) {
      ExpandedStays(passing, m1, m2);
    }
    forall p | p in m1 ensures m2[p] != m1[p] <==> Gains(passing, m1, p) {
      ListChangesIff(passing, m1, m2, p);
    }
  }

  /** A caller whose list changes: what lets a user change some submissions lets it view them. */
  lemma ChangeFiltersReachCallersViewList(f: Filter, g: Filter, m2: PartialPerms)
    requires f != g
    ensures var passing, m1 := PassesOn(ASSET_TABLES, Survey), map[ViewSubmissions := [g], ChangeSubmissions := [f]];
            && Gains(passing, m1, ViewSubmissions)
            && (IsExpansion(passing, m1, m2) ==>
                  Listed(m2, ViewSubmissions, f) && !Listed(m1, ViewSubmissions, f))
  {
    var passing, m1 := PassesOn(ASSET_TABLES, Survey), map[ViewSubmissions := [g], ChangeSubmissions := [f]];
    AssetImplies(ChangeSubmissions, ViewSubmissions);
    assert (ChangeSubmissions, ViewSubmissions) in passing;
    assert Listed(m1, ChangeSubmissions, f);
    assert Intended(passing, m1, ViewSubmissions, f);
  }

  /** m2 is m1 with the filters of partialPerm appended to those of impliedPerm, where missing. */
  ghost predicate Added(m1: PartialPerms, m2: PartialPerms, partialPerm: Perm, impliedPerm: Perm) {
    && m1.Keys <= m2.Keys
    && (forall p :: p in m2 && p !in m1 ==> p == impliedPerm && m2[p] != [])
    && (forall p :: p in m1 && p != impliedPerm ==> m2[p] == m1[p])
    && (forall f :: Listed(m2, impliedPerm, f) <==> Listed(m1, impliedPerm, f) || Listed(m1, partialPerm, f))
  }

  /** Where the expansion stands once the keys outside `pending` have passed their filters on. */
  ghost predicate Expanding(passing: Passing, m1: PartialPerms, m2: PartialPerms, pending: set<Perm>) {
    && m1.Keys <= m2.Keys
    && (forall p, f :: Listed(m1, p, f) ==> Listed(m2, p, f))
    && (forall p, f :: Listed(m2, p, f) ==> Intended(passing, m1, p, f))
    && (forall p :: p in m2 && p !in m1 ==> m2[p] != [])
    && (forall q, p, f :: Listed(m1, q, f) && q !in pending && (q, p) in passing ==> Listed(m2, p, f))
  }

  lemma IntendedPassesOn(passing: Passing, m: PartialPerms, q: Perm, p: Perm, f: Filter)
    requires Transitive(passing) && (q, p) in passing && Intended(passing, m, q, f)
    ensures Intended(passing, m, p, f)
  {
    if !Listed(m, q, f) {
      var r :| Listed(m, r, f) && (r, q) in passing;
      assert (r, p) in passing;
    }
  }

  lemma AddedGrows(m1: PartialPerms, m2: PartialPerms, m3: PartialPerms, partialPerm: Perm, impliedPerm: Perm)
    requires Added(m2, m3, partialPerm, impliedPerm)
    ensures forall p, f :: Listed(m2, p, f) ==> Listed(m3, p, f)
    ensures forall p, f :: Listed(m3, p, f) ==> Listed(m2, p, f) || (p == impliedPerm && Listed(m2, partialPerm, f))
    ensures (forall p :: p in m2 && p !in m1 ==> m2[p] != []) ==> forall p :: p in m3 && p !in m1 ==> m3[p] != []
  {
    if impliedPerm in m2 && m2[impliedPerm] != [] {
      assert Listed(m2, impliedPerm, m2[impliedPerm][0]);
    }
  }

  /** One call of add_implied_permission for a permission that passes its filters on. */
  lemma ExpandingAdds(passing: Passing, m1: PartialPerms, m2: PartialPerms, m3: PartialPerms,
                      pending: set<Perm>, partialPerm: Perm, impliedPerm: Perm)
    requires Transitive(passing) && Expanding(passing, m1, m2, pending) && Added(m2, m3, partialPerm, impliedPerm)
    requires (partialPerm, impliedPerm) in passing
    ensures Expanding(passing, m1, m3, pending)
    ensures forall p, f :: Listed(m2, p, f) ==> Listed(m3, p, f)
    ensures forall f :: Listed(m1, partialPerm, f) ==> Listed(m3, impliedPerm, f)
  {
    AddedGrows(m1, m2, m3, partialPerm, impliedPerm);
    forall f | Listed(m2, partialPerm, f) ensures Intended(passing, m1, impliedPerm, f) {
      IntendedPassesOn(passing, m1, partialPerm, impliedPerm, f);
    }
  }

  lemma ExpandingIsExpansion(passing: Passing, m1: PartialPerms, m2: PartialPerms)
    requires Expanding(passing, m1, m2, {})
    ensures IsExpansion(passing, m1, m2)
  {
    forall p, f | Intended(passing, m1, p, f) ensures Listed(m2, p, f) {
    }
    forall p | p in m2 && p !in m1 ensures exists f :: Intended(passing, m1, p, f) {
      assert Listed(m2, p, m2[p][0]);
    }
  }

  /** A list with those of the others that it lacked appended in order. */
  function Extended(l: seq<Filter>, others: seq<Filter>): seq<Filter> {
    if others == [] then l
    else
      var init := Extended(l, others[..|others| - 1]);
      var last := others[|others| - 1];
      if last in init then init else init + [last]
  }

  lemma {:induction false} ExtendedMembers(l: seq<Filter>, others: seq<Filter>)
    ensures forall f :: f in Extended(l, others) <==> f in l || f in others
    ensures Distinct(l) ==> Distinct(Extended(l, others))
    ensures (forall f :: f in others ==> f in l) ==> Extended(l, others) == l
    ensures Appended(l, Extended(l, others))
  {
    if others == [] {
    } else {
      var init, last := others[..|others| - 1], others[|others| - 1];
      ExtendedMembers(l, init);
      assert others == init + [last];
    }
  }

  /** defaultdict(list) access. */
  function GetList(m: PartialPerms, p: Perm): seq<Filter> {
    if p in m then m[p] else []
  }

  /** A permission's filters already reached another one. */
  ghost predicate Covered(m: PartialPerms, p: Perm, q: Perm) {
    forall f :: Listed(m, p, f) ==> Listed(m, q, f)
  }

  lemma AddedIf(m1: PartialPerms, m2: PartialPerms, partialPerm: Perm, impliedPerm: Perm, l: seq<Filter>)
    requires partialPerm in m1 && m2 == m1[impliedPerm := l] && l != []
    requires forall f :: f in l <==> f in GetList(m1, impliedPerm) || f in m1[partialPerm]
    ensures Added(m1, m2, partialPerm, impliedPerm)
  {}

  lemma CoveredAddsNothing(m: PartialPerms, partialPerm: Perm, impliedPerm: Perm)
    requires partialPerm in m && m[partialPerm] != [] && Covered(m, partialPerm, impliedPerm)
    ensures m[impliedPerm := Extended(GetList(m, impliedPerm), m[partialPerm])] == m
  {
    var l, others := GetList(m, impliedPerm), m[partialPerm];
    assert Listed(m, partialPerm, others[0]);
    forall f | f in others ensures f in l {
      assert Listed(m, partialPerm, f);
    }
    ExtendedMembers(l, others);
  }

  lemma AddedByExtending(m1: PartialPerms, m2: PartialPerms, partialPerm: Perm, impliedPerm: Perm)
    requires partialPerm in m1 && m1[partialPerm] != []
    requires m2 == m1[impliedPerm := Extended(GetList(m1, impliedPerm), m1[partialPerm])]
    ensures Added(m1, m2, partialPerm, impliedPerm)
    ensures AllDistinct(m1) ==> AllDistinct(m2)
    ensures Covered(m1, partialPerm, impliedPerm) ==> m2 == m1
    ensures ExtendsLists(m1, m2)
  {
    ExtendedMembers(GetList(m1, impliedPerm), m1[partialPerm]);
    assert m1[partialPerm][0] in m2[impliedPerm];
    AddedIf(m1, m2, partialPerm, impliedPerm, m2[impliedPerm]);
    if Covered(m1, partialPerm, impliedPerm) {
      CoveredAddsNothing(m1, partialPerm, impliedPerm);
    }
  }

  // ---- Lists as objects, shared between dictionaries ----

  class FilterList {
    var items: seq<Filter>

    constructor (items: seq<Filter>)
      ensures this.items == items
    {
      this.items := items;
    }

    /** The loop of add_implied_permission. */
    method AppendMissing(permsToAdd: seq<Filter>)
      modifies this
      ensures items == Extended(old(items), permsToAdd)
    {
      for i := 0 to |permsToAdd|
        invariant items == Extended(old(items), permsToAdd[..i])
      {
        assert permsToAdd[..i + 1][..i] == permsToAdd[..i];
        if permsToAdd[i] !in items {
          items := items + [permsToAdd[i]];
        }
      }
      assert permsToAdd[..|permsToAdd|] == permsToAdd;
    }
  }

  type ListDict = map<Perm, FilterList>

  function ContentsOf(lists: ListDict): PartialPerms
    reads lists.Values
  {
    map p | p in lists :: lists[p].items
  }

  /** No list is the value of two keys. */
  predicate Unshared(lists: ListDict) {
    forall p, q :: p in lists && q in lists && p != q ==> lists[p] != lists[q]
  }

  /** The later dictionary holds the very lists of the earlier one. */
  predicate SharesLists(lists1: ListDict, lists2: ListDict) {
    forall p :: p in lists1 ==> p in lists2 && lists2[p] == lists1[p]
  }

  /** A defaultdict: a missing key is given an empty list when it is read. */
  class PartialPermsDict {
    var lists: ListDict

    constructor (lists: ListDict)
      ensures this.lists == lists
    {
      this.lists := lists;
    }

    method GetOrCreate(p: Perm) returns (l: FilterList)
      requires Unshared(lists)
      modifies this
      ensures Unshared(lists) && SharesLists(old(lists), lists) && p in lists && l == lists[p]
      ensures p in old(lists) ==> lists == old(lists)
      ensures p !in old(lists) ==> fresh(l) && lists == old(lists)[p := l] && l.items == []
    {
      if p !in lists {
        l := new FilterList([]);
        lists := lists[p := l];
      } else {
        l := lists[p];
      }
    }

    /** Appends filters to the list of one key. */
    method Append(impliedPerm: Perm, permsToAdd: seq<Filter>)
      requires Unshared(lists)
      modifies this, lists.Values
      ensures Unshared(lists) && SharesLists(old(lists), lists)
      ensures forall p :: p in lists && p !in old(lists) ==> fresh(lists[p])
      ensures ContentsOf(lists) ==
              old(ContentsOf(lists))[impliedPerm := Extended(GetList(old(ContentsOf(lists)), impliedPerm), permsToAdd)]
    {
      var l := GetOrCreate(impliedPerm);
      l.AppendMissing(permsToAdd);
    }

    /** add_implied_permission: append to the implied permission's list, in place, what it lacks. */
    method AddImpliedPermission(partialPerm: Perm, impliedPerm: Perm)
      requires partialPerm in lists && Unshared(lists)
      modifies this, lists.Values
      ensures Unshared(lists) && SharesLists(old(lists), lists)
      ensures forall p :: p in lists && p !in old(lists) ==> fresh(lists[p])
      ensures Added(old(ContentsOf(lists)), ContentsOf(lists), partialPerm, impliedPerm)
      ensures AllDistinct(old(ContentsOf(lists))) ==> AllDistinct(ContentsOf(lists))
      ensures Covered(old(ContentsOf(lists)), partialPerm, impliedPerm) ==> ContentsOf(lists) == old(ContentsOf(lists))
      ensures ExtendsLists(old(ContentsOf(lists)), ContentsOf(lists))
    {
      var permsToAdd := lists[partialPerm].items;
      if permsToAdd != [] {
        ghost var before := ContentsOf(lists);
        Append(impliedPerm, permsToAdd);
        AddedByExtending(before, ContentsOf(lists), partialPerm, impliedPerm);
      }
    }
  }

  /** Where the expansion of a dictionary with contents m1 stands. */
  ghost predicate ExpandingTo(passing: Passing, m1: PartialPerms, m2: PartialPerms, pending: set<Perm>) {
    && Expanding(passing, m1, m2, pending)
    && (AllDistinct(m1) ==> AllDistinct(m2))
    && ExtendsLists(m1, m2)
  }

  /** update_partial_perms_to_include_implied, with keys and implied permissions visited in any order. The new
      dictionary holds the caller's own lists, so that each of these whose key gains a filter is extended in place. */
  method UpdateSharedLists(t: Tables, kind: AssetType, partialPerms: ListDict) returns (newPerms: ListDict)
    requires Unshared(partialPerms)
    modifies partialPerms.Values
    ensures SharesLists(partialPerms, newPerms)
    ensures IsExpansion(PassesOn(t, kind), old(ContentsOf(partialPerms)), ContentsOf(newPerms))
    ensures AllDistinct(old(ContentsOf(partialPerms))) ==> AllDistinct(ContentsOf(newPerms))
    ensures IsExpanded(PassesOn(t, kind), old(ContentsOf(partialPerms))) ==>
            ContentsOf(newPerms) == old(ContentsOf(partialPerms))
    ensures forall p :: p in partialPerms ==>
              && Appended(old(partialPerms[p].items), partialPerms[p].items)
              && (partialPerms[p].items != old(partialPerms[p].items) <==>
                  Gains(PassesOn(t, kind), old(ContentsOf(partialPerms)), p))
  {
    var dict := new PartialPermsDict(partialPerms);
    ghost var passing, m1 := PassesOn(t, kind), ContentsOf(partialPerms);
    var keys := partialPerms.Keys;
    while keys != {}
      invariant keys <= partialPerms.Keys && Unshared(dict.lists) && SharesLists(partialPerms, dict.lists)
      invariant forall p :: p in dict.lists && p !in partialPerms ==> fresh(dict.lists[p])
      invariant ExpandingTo(passing, m1, ContentsOf(dict.lists), keys)
    {
      var partialPerm :| partialPerm in keys;
      PassOnImplied(dict, t, kind, partialPerm, m1, keys);
      keys := keys - {partialPerm};
    }
    newPerms := dict.lists;
    ghost var m2 := ContentsOf(newPerms);
    ListsChangeIff(passing, m1, m2);
    assert forall p :: p in partialPerms ==> m2[p] == partialPerms[p].items && m1[p] == old(partialPerms[p].items);
  }

  /** In the inner loop: the filters of partialPerm have yet to go to the permissions of `rest`. */
  ghost predicate PassingOn(passing: Passing, m1: PartialPerms, m2: PartialPerms, keys: set<Perm>, partialPerm: Perm,
                            rest: set<Perm>) {
    && ExpandingTo(passing, m1, m2, keys)
    && forall p, f :: Listed(m1, partialPerm, f) && (partialPerm, p) in passing && p !in rest ==> Listed(m2, p, f)
  }

  lemma PassingOnNext(passing: Passing, m1: PartialPerms, m2: PartialPerms, m3: PartialPerms, keys: set<Perm>,
                      partialPerm: Perm, rest: set<Perm>, impliedPerm: Perm)
    requires Transitive(passing) && PassingOn(passing, m1, m2, keys, partialPerm, rest)
    requires (partialPerm, impliedPerm) in passing && Added(m2, m3, partialPerm, impliedPerm)
    requires AllDistinct(m2) ==> AllDistinct(m3)
    requires ExtendsLists(m2, m3)
    ensures PassingOn(passing, m1, m3, keys, partialPerm, rest - {impliedPerm})
  {
    ExpandingAdds(passing, m1, m2, m3, keys, partialPerm, impliedPerm);
    ExtendsListsTransitive(m1, m2, m3);
  }

  lemma PassedOn(passing: Passing, m1: PartialPerms, m2: PartialPerms, keys: set<Perm>, partialPerm: Perm)
    requires PassingOn(passing, m1, m2, keys, partialPerm, {})
    ensures ExpandingTo(passing, m1, m2, keys - {partialPerm})
  {
  }

  /** The body of the outer loop. */
  method PassOnImplied(dict: PartialPermsDict, t: Tables, kind: AssetType, partialPerm: Perm,
                       ghost m1: PartialPerms, ghost keys: set<Perm>)
    requires Unshared(dict.lists) && partialPerm in dict.lists
    requires ExpandingTo(PassesOn(t, kind), m1, ContentsOf(dict.lists), keys)
    modifies dict, dict.lists.Values
    ensures Unshared(dict.lists) && SharesLists(old(dict.lists), dict.lists)
    ensures forall p :: p in dict.lists && p !in old(dict.lists) ==> fresh(dict.lists[p])
    ensures ExpandingTo(PassesOn(t, kind), m1, ContentsOf(dict.lists), keys - {partialPerm})
  {
    PassesOnTransitive(t, kind);
    var found := ImpliedPerms(t.implied, partialPerm, false, Some(t.Assignable(kind)));
    var impliedPerms := set q | q in found && IsSubmissionsPerm(q);
    PassOn(dict, partialPerm, impliedPerms, PassesOn(t, kind), m1, keys);
  }

  /** The inner loop: the filters of one key go to each permission it implies. */
  method PassOn(dict: PartialPermsDict, partialPerm: Perm, impliedPerms: set<Perm>,
                ghost passing: Passing, ghost m1: PartialPerms, ghost keys: set<Perm>)
    requires Unshared(dict.lists) && partialPerm in dict.lists
    requires Transitive(passing) && forall q :: q in impliedPerms <==> (partialPerm, q) in passing
    requires ExpandingTo(passing, m1, ContentsOf(dict.lists), keys)
    modifies dict, dict.lists.Values
    ensures Unshared(dict.lists) && SharesLists(old(dict.lists), dict.lists)
    ensures forall p :: p in dict.lists && p !in old(dict.lists) ==> fresh(dict.lists[p])
    ensures ExpandingTo(passing, m1, ContentsOf(dict.lists), keys - {partialPerm})
  {
    var rest := impliedPerms;
    while rest != {}
      invariant rest <= impliedPerms && Unshared(dict.lists) && SharesLists(old(dict.lists), dict.lists)
      invariant forall p :: p in dict.lists && p !in old(dict.lists) ==> fresh(dict.lists[p])
      invariant PassingOn(passing, m1, ContentsOf(dict.lists), keys, partialPerm, rest)
    {
      var impliedPerm :| impliedPerm in rest;
      ghost var before := ContentsOf(dict.lists);
      dict.AddImpliedPermission(partialPerm, impliedPerm);
      PassingOnNext(passing, m1, before, ContentsOf(dict.lists), keys, partialPerm, rest, impliedPerm);
      rest := rest - {impliedPerm};
    }
    PassedOn(passing, m1, ContentsOf(dict.lists), keys, partialPerm);
  }

  /** The same for a dictionary that nobody else holds. */
  method UpdateToIncludeImplied(t: Tables, kind: AssetType, partialPerms: PartialPerms) returns (newPerms: PartialPerms)
    ensures IsExpansion(PassesOn(t, kind), partialPerms, newPerms)
    ensures AllDistinct(partialPerms) ==> AllDistinct(newPerms)
    ensures IsExpanded(PassesOn(t, kind), partialPerms) ==> newPerms == partialPerms
  {
    var lists: ListDict := map[];
    var keys := partialPerms.Keys;
    while keys != {}
      invariant keys <= partialPerms.Keys && lists.Keys == partialPerms.Keys - keys && Unshared(lists)
      invariant forall p :: p in lists ==> fresh(lists[p]) && lists[p].items == partialPerms[p]
    {
      var p :| p in keys;
      var l := new FilterList(partialPerms[p]);
      lists := lists[p := l];
      keys := keys - {p};
    }
    assert ContentsOf(lists) == partialPerms;
    var newLists := UpdateSharedLists(t, kind, lists);
    newPerms := ContentsOf(newLists);
  }
}
