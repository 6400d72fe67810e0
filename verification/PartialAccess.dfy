/** Which submissions a user with row-level permissions may act on: the all-or-nothing check of
    validate_access_with_partial_perms, and the callers that read an empty result as full access. */
module PartialAccess {
  import opened Wrappers
  import opened Sequences
  import opened PermissionTables
  import opened PartialPermissions

  type Id = int

  /** A Mongo query: its condition on `_id` and its other conditions, each given by the submissions
      that meet it, and whether it holds the identifier of the form. */
  datatype Query = Query(ids: Option<set<Id>>, others: Option<set<Id>>, ofForm: bool)

  const EMPTY_QUERY := Query(None, None, false)

  predicate Accepts(q: Query, s: Id) {
    && (q.ids.Some? ==> s in q.ids.value)
    && (q.others.Some? ==> s in q.others.value)
  }

  /** The query after a search, which changes it in place: given ids replace its own `_id` condition. */
  function Searched(q: Query, ids: seq<Id>): Query {
    Query(if ids != [] then Some(SetOf(ids)) else q.ids, q.others, true)
  }

  predicate Increasing(s: seq<Id>) {
    forall i, j :: 0 <= i < j < |s| ==> s[i] < s[j]
  }

  /** The false condition used when the user has partial permissions, but not the asked one. */
  const NO_SUBMISSION := Filter("{_id: -1}")

  datatype AccessError = PermissionDenied | NoSubmissions

  /** The submissions of a form and the row-level permissions of one user on them. */
  datatype Form = Form(
    stored: seq<Id>,
    hasPartialPerm: bool,
    partialPerms: Option<PartialPerms>,
    matches: (Filter, Id) -> bool
  ) {
    predicate Valid() {
      Increasing(stored) && forall s :: s in stored ==> !matches(NO_SUBMISSION, s)
    }

    /** get_filters_for_partial_perm */
    function FiltersFor(perm: Perm): Option<seq<Filter>> {
      if partialPerms.None? || partialPerms.value == map[] then None
      else if perm in partialPerms.value then Some(partialPerms.value[perm])
      else Some([NO_SUBMISSION])
    }

    /** The search lets the submission through the filters; no filters narrow nothing. */
    predicate Allowed(perm: Perm, s: Id) {
      match FiltersFor(perm)
      case None => true
      case Some(filters) => filters == [] || exists f :: f in filters && matches(f, s)
    }

    /** The ids among `ids` that a search finds, in the order of the collection. */
    function Found(ids: seq<Id>, perm: Perm, q: Query): (r: seq<Id>)
      ensures forall s :: s in r <==> s in ids && Allowed(perm, s) && Accepts(q, s)
    {
      if ids == [] then []
      else
        var rest := Found(ids[1..], perm, q);
        if Allowed(perm, ids[0]) && Accepts(q, ids[0]) then [ids[0]] + rest else rest
    }

    /** get_submissions with fields ['_id'] */
    function GetSubmissions(perm: Perm, ids: seq<Id>, q: Query): seq<Id> {
      Found(stored, perm, Searched(q, ids))
    }

    /** Everything the user may see under perm that the ids and the query select. */
    function Selected(perm: Perm, ids: seq<Id>, q: Query): set<Id> {
      set s | s in stored && Allowed(perm, s) && Accepts(Searched(q, ids), s)
    }

    /** The selected submissions that may also be viewed. */
    function SelectedAndSeen(perm: Perm, ids: seq<Id>, q: Query): set<Id> {
      set s | s in Selected(perm, ids, q) && Allowed(ViewSubmissions, s)
    }

    /** Each given id is a submission of the form, allowed under perm and matched by the query. */
    predicate AllGranted(perm: Perm, ids: seq<Id>, q: Query) {
      forall s :: s in ids ==> s in Selected(perm, ids, q)
    }

    /** When the check lets a partial user through. */
    predicate Passes(perm: Perm, ids: seq<Id>, q: Query) {
      if ids == [] then Selected(perm, ids, q) != {} else AllGranted(perm, ids, q)
    }

    /** Who may act on a submission may see it. */
    predicate ViewFollows(perm: Perm) {
      forall s :: s in stored && Allowed(perm, s) ==> Allowed(ViewSubmissions, s)
    }
  }

  /** What the check selects: stored submissions, among the given ids if there are any, else those of the query, that
      meet the other conditions of the query, and that a filter of the user for perm matches.
      No row-level permissions at all, and an empty list of filters, let everything through;
      having some, but none for perm, lets nothing through. */
  lemma SelectedIff(form: Form, perm: Perm, ids: seq<Id>, q: Query, s: Id)
    requires form.Valid()
    ensures s in form.Selected(perm, ids, q) <==>
            && s in form.stored
            && (if ids != [] then s in ids else q.ids.Some? ==> s in q.ids.value)
            && (q.others.Some? ==> s in q.others.value)
            && (form.partialPerms.Some? && form.partialPerms.value != map[] ==>
                  && perm in form.partialPerms.value
                  && (var filters := form.partialPerms.value[perm];
                      filters == [] || exists i :: 0 <= i < |filters| && form.matches(filters[i], s)))
  {
    if form.partialPerms.Some? && perm in form.partialPerms.value {
      var filters := form.partialPerms.value[perm];
      if f :| f in filters && form.matches(f, s) {
        var i :| 0 <= i < |filters| && filters[i] == f;
      }
    }
  }

  lemma IncreasingIsDistinct(a: seq<Id>)
    requires Increasing(a)
    ensures multiset(a) == multiset(SetOf(a))
    decreases a
  {
    if a != [] {
      var init, last := a[..|a| - 1], a[|a| - 1];
      IncreasingIsDistinct(init);
      assert a == init + [last];
      assert SetOf(a) == SetOf(init) + {last} && last !in SetOf(init);
    }
  }

  lemma SameMembers(a: seq<Id>, ids: seq<Id>)
    requires Increasing(a)
    ensures multiset(a) == multiset(SetOf(ids)) <==> SetOf(a) == SetOf(ids)
  {
    IncreasingIsDistinct(a);
    if multiset(a) == multiset(SetOf(ids)) {
      forall s ensures s in SetOf(a) <==> s in SetOf(ids) {
        assert s in multiset(a) <==> s in multiset(SetOf(ids));
      }
    }
  }

  lemma {:induction false} FoundIncreases(form: Form, ids: seq<Id>, perm: Perm, q: Query)
    requires Increasing(ids)
    ensures Increasing(form.Found(ids, perm, q))
    decreases ids
  {
    if ids != [] {
      var rest := form.Found(ids[1..], perm, q);
      FoundIncreases(form, ids[1..], perm, q);
      forall i | 0 <= i < |rest| ensures ids[0] < rest[i] {
        assert rest[i] in rest;
        var j :| 0 <= j < |ids[1..]| && ids[1..][j] == rest[i];
        assert ids[j + 1] == rest[i];
      }
    }
  }

  lemma FoundIsSelected(form: Form, perm: Perm, ids: seq<Id>, q: Query)
    ensures SetOf(form.GetSubmissions(perm, ids, q)) == form.Selected(perm, ids, q)
    ensures ids != [] ==> form.Selected(perm, ids, q) <= SetOf(ids)
    ensures form.Valid() ==> Increasing(form.GetSubmissions(perm, ids, q))
  {
    assert forall s :: s in SetOf(form.GetSubmissions(perm, ids, q)) <==> s in form.Selected(perm, ids, q);
    if form.Valid() {
      FoundIncreases(form, form.stored, perm, Searched(q, ids));
    }
  }

  /** The comparison of the two sorted lists, when ids are given. */
  lemma SameMembersMeansGranted(form: Form, perm: Perm, ids: seq<Id>, q: Query)
    requires form.Valid() && ids != []
    ensures multiset(form.GetSubmissions(perm, ids, q)) == multiset(SetOf(ids)) <==> form.AllGranted(perm, ids, q)
    ensures form.AllGranted(perm, ids, q) ==> form.Selected(perm, ids, q) == SetOf(ids) != {}
  {
    var found, selected := form.GetSubmissions(perm, ids, q), form.Selected(perm, ids, q);
    FoundIsSelected(form, perm, ids, q);
    SameMembers(found, ids);
    assert ids[0] in SetOf(ids);
    if SetOf(found) == SetOf(ids) {
      forall s | s in ids ensures s in selected {
        assert s in SetOf(ids);
      }
    }
    if form.AllGranted(perm, ids, q) {
      forall s | s in SetOf(ids) ensures s in selected {
      }
    }
  }

  /** Without ids the check finds something exactly when the list is not empty. */
  lemma EmptySelection(form: Form, perm: Perm, ids: seq<Id>, q: Query)
    ensures form.GetSubmissions(perm, ids, q) == [] <==> form.Selected(perm, ids, q) == {}
  {
    FoundIsSelected(form, perm, ids, q);
    var found := form.GetSubmissions(perm, ids, q);
    if found != [] {
      assert found[0] in SetOf(found);
    }
  }

  class Deployment {
    const form: Form

    /** The default value of the `query` parameter: one dictionary, shared by all
        the calls that omit it and changed by each of their searches. */
    var defaultQuery: Query

    constructor (form: Form)
      requires form.Valid()
      ensures Valid() && this.form == form && defaultQuery == EMPTY_QUERY
    {
      this.form := form;
      defaultQuery := EMPTY_QUERY;
    }

    predicate Valid()
      reads this
    {
      form.Valid() && defaultQuery.others.None?
    }

    /** validate_access_with_partial_perms; no value means that no check was made. */
    method ValidateAccessWithPartialPerms(perm: Perm, submissionIds: seq<Id>, query: Option<Query>)
      returns (r: Result<Option<seq<Id>>, AccessError>)
      requires Valid()
      modifies this
      ensures Valid()
      ensures !form.hasPartialPerm ==> r == Ok(None) && defaultQuery == old(defaultQuery)
      ensures form.hasPartialPerm ==>
                var q := if query.Some? then query.value else old(defaultQuery);
                && (r.Ok? <==> form.Passes(perm, submissionIds, q))
                && (r.Err? ==> r.error == PermissionDenied)
                && (r.Ok? ==>
                      && r.value.Some? && r.value.value != [] && Increasing(r.value.value)
                      && SetOf(r.value.value) == form.Selected(perm, submissionIds, q)
                      && (submissionIds != [] ==> SetOf(r.value.value) == SetOf(submissionIds)))
      ensures query.Some? ==> defaultQuery == old(defaultQuery)
    {
      if !form.hasPartialPerm {
        return Ok(None);
      }
      var q := if query.Some? then query.value else defaultQuery;
      var allowedSubmissionIds: seq<Id> := [];
      FoundIsSelected(form, perm, submissionIds, q);
      EmptySelection(form, perm, submissionIds, q);
      if submissionIds == [] {
        allowedSubmissionIds := form.GetSubmissions(perm, [], EMPTY_QUERY);
        assert forall s :: s in form.Selected(perm, submissionIds, q) ==> s in allowedSubmissionIds;
        if allowedSubmissionIds == [] {
          return Err(PermissionDenied);
        }
        if q == EMPTY_QUERY {
          return Ok(Some(allowedSubmissionIds));
        }
      } else {
        SameMembersMeansGranted(form, perm, submissionIds, q);
      }
      var requestedSubmissionIds := form.GetSubmissions(perm, submissionIds, q);
      if query.None? {
        defaultQuery := Searched(q, submissionIds);
      }
      if requestedSubmissionIds == [] {
        return Err(PermissionDenied);
      }
      if (allowedSubmissionIds != [] && forall s | s in requestedSubmissionIds :: s in allowedSubmissionIds)
         || multiset(requestedSubmissionIds) == multiset(SetOf(submissionIds))
      {
        return Ok(Some(requestedSubmissionIds));
      }
      return Err(PermissionDenied);
    }

    /** What delete_submissions and set_validation_statuses send on: the ids and the query left in `data`. */
    method RequestData(perm: Perm, submissionIds: seq<Id>, query: Query)
      returns (r: Result<(seq<Id>, Option<Query>), AccessError>)
      requires Valid()
      modifies this
      ensures Valid()
      ensures form.hasPartialPerm ==>
                && (r.Ok? <==> form.Passes(perm, submissionIds, query))
                && (r.Ok? ==>
                      && r.value.0 != [] && r.value.1.None?
                      && SetOf(r.value.0) == form.Selected(perm, submissionIds, query))
      ensures !form.hasPartialPerm ==> r == Ok((submissionIds, Some(query)))
    {
      var checked := ValidateAccessWithPartialPerms(perm, submissionIds, Some(query));
      if checked.Err? {
        return Err(checked.error);
      }
      if checked.value.Some? && checked.value.value != [] {
        return Ok((checked.value.value, None));
      }
      return Ok((submissionIds, Some(query)));
    }

    /** The submissions that bulk_update_submissions goes on to change. */
    method BulkUpdateTargets(submissionIds: seq<Id>, query: Query) returns (r: Result<seq<Id>, AccessError>)
      requires Valid()
      modifies this
      ensures Valid()
      ensures r.Ok? ==> r.value != [] && Increasing(r.value)
      ensures form.hasPartialPerm ==>
                var reached := form.SelectedAndSeen(ChangeSubmissions, submissionIds, query);
                && (r.Ok? <==> form.Passes(ChangeSubmissions, submissionIds, query) && reached != {})
                && (r.Ok? ==> SetOf(r.value) == reached)
                && (r.Err? ==> r.error == if form.Passes(ChangeSubmissions, submissionIds, query) then NoSubmissions
                                          else PermissionDenied)
      ensures form.hasPartialPerm && form.ViewFollows(ChangeSubmissions) ==>
                && (r.Ok? <==> form.Passes(ChangeSubmissions, submissionIds, query))
                && (r.Ok? ==> SetOf(r.value) == form.Selected(ChangeSubmissions, submissionIds, query))
      ensures !form.hasPartialPerm ==>
                var selected := form.Selected(ViewSubmissions, submissionIds, query);
                && (r.Ok? <==> selected != {})
                && (r.Ok? ==> SetOf(r.value) == selected)
                && (r.Err? ==> r.error == NoSubmissions)
    {
      var checked := ValidateAccessWithPartialPerms(ChangeSubmissions, submissionIds, Some(query));
      if checked.Err? {
        return Err(checked.error);
      }
      var ids, q := submissionIds, query;
      if checked.value.Some? && checked.value.value != [] {
        ids, q := checked.value.value, EMPTY_QUERY;
      }
      var submissions := form.GetSubmissions(ViewSubmissions, ids, q);
      FoundIsSelected(form, ViewSubmissions, ids, q);
      if form.hasPartialPerm {
        RetrievedAfterCheck(form, submissionIds, query, ids);
      }
      if submissions == [] {
        return Err(NoSubmissions);
      }
      assert submissions[0] in SetOf(submissions);
      return Ok(submissions);
    }
  }

  /** The second search of a bulk update, over the ids that the check returned, finds those that may be viewed. */
  lemma RetrievedAfterCheck(form: Form, submissionIds: seq<Id>, query: Query, ids: seq<Id>)
    requires ids != [] && SetOf(ids) == form.Selected(ChangeSubmissions, submissionIds, query)
    ensures form.Selected(ViewSubmissions, ids, EMPTY_QUERY) ==
            form.SelectedAndSeen(ChangeSubmissions, submissionIds, query)
    ensures form.ViewFollows(ChangeSubmissions) ==>
              form.Selected(ViewSubmissions, ids, EMPTY_QUERY) == SetOf(ids) &&
              ids[0] in form.Selected(ViewSubmissions, ids, EMPTY_QUERY)
  {
    assert ids[0] in SetOf(ids);
  }

  /** Stored filters were expanded, so the check and the later search agree: whoever may act under perm may
      see, as perm implies the right to view. The exception is an empty list of filters, which narrows nothing:
      then they agree exactly when every submission may be seen. */
  lemma ExpandedFiltersLetViewFollowIff(form: Form, t: Tables, kind: AssetType, given: PartialPerms, perm: Perm)
    requires form.Valid() && form.partialPerms.Some?
    requires IsExpansion(PassesOn(t, kind), given, form.partialPerms.value)
    requires (perm, ViewSubmissions) in PassesOn(t, kind)
    ensures var m := form.partialPerms.value;
            form.ViewFollows(perm) <==>
            (perm in m && m[perm] == [] ==> forall s :: s in form.stored ==> form.Allowed(ViewSubmissions, s))
  {
    var passing, m := PassesOn(t, kind), form.partialPerms.value;
    PassesOnTransitive(t, kind);
    ExpansionIsExpanded(passing, given, m);
    if perm in m && m[perm] == [] {
      assert form.FiltersFor(perm) == Some([]);
    } else {
      forall s | s in form.stored && form.Allowed(perm, s) ensures form.Allowed(ViewSubmissions, s) {
        if perm in m {
          var f :| f in m[perm] && form.matches(f, s);
          assert Listed(m, perm, f);
          assert Listed(m, ViewSubmissions, f);
        }
      }
    }
  }

  /** On a real survey each right to act on submissions passes its filters on to the right to view. */
  lemma SurveyFiltersReachView(perm: Perm)
    requires perm in {ChangeSubmissions, DeleteSubmissions, ValidateSubmissions}
    ensures (perm, ViewSubmissions) in PassesOn(ASSET_TABLES, Survey)
  {
    AssetImplies(perm, ViewSubmissions);
  }
}
