/** The front end's own walk over a survey: getSurveyFlatPaths and getFlatQuestionsList. */
module FlatPaths {
  import opened Wrappers
  import opened SurveyPaths

  /** A field that JavaScript's `||` does not skip: there, not null, not empty. */
  predicate Truthy(f: Field) {
    f.Some? && f.value.Some? && f.value.value != ""
  }

  function GetRowName(r: Row): Name {
    if Truthy(r.name) then r.name.value.value
    else if Truthy(r.autoname) then r.autoname.value.value
    else r.kuid
  }

  type Output = map<Name, string>

  /** The row is put into the output. */
  predicate Listed(r: Row, includeGroups: bool, includeMeta: bool) {
    match r.rowType
    case Begin(_) => includeGroups
    case Question => true
    case ScoreRow => true
    case RankLevel => true
    case Meta => includeMeta
    case End(_) => false
    case OtherType => false
  }

  datatype Walked = Walked(output: Output, openedGroups: seq<Name>)

  /** What one row does to the output and to the open groups. */
  function FlatNextRow(w: Walked, r: Row, includeGroups: bool, includeMeta: bool): Walked {
    var rowName := GetRowName(r);
    if r.rowType.Begin? then
      var groups := w.openedGroups + [rowName];
      Walked(if includeGroups then w.output[rowName := Join("/", groups)] else w.output, groups)
    else if r.rowType.End? then
      w.(openedGroups := if w.openedGroups == [] then [] else w.openedGroups[..|w.openedGroups| - 1])
    else if Listed(r, includeGroups, includeMeta) then
      w.(output := w.output[rowName := Join("/", w.openedGroups + [rowName])])
    else w
  }

  function FlatWalk(w: Walked, rows: seq<Row>, includeGroups: bool, includeMeta: bool): Walked
    decreases rows
  {
    if rows == [] then w
    else FlatWalk(FlatNextRow(w, rows[0], includeGroups, includeMeta), rows[1..], includeGroups, includeMeta)
  }

  lemma {:induction false} FlatWalkConcat(w: Walked, a: seq<Row>, b: seq<Row>, includeGroups: bool, includeMeta: bool)
    ensures FlatWalk(w, a + b, includeGroups, includeMeta) ==
            FlatWalk(FlatWalk(w, a, includeGroups, includeMeta), b, includeGroups, includeMeta)
    decreases a
  {
    if a == [] {
      assert a + b == b;
    } else {
      assert (a + b)[1..] == a[1..] + b;
      FlatWalkConcat(FlatNextRow(w, a[0], includeGroups, includeMeta), a[1..], b, includeGroups, includeMeta);
    }
  }

  lemma {:induction false} JoinOneMore(parts: seq<Name>, last: Name)
    ensures Join("/", parts + [last]) == (if parts == [] then "" else Join("/", parts) + "/") + last
    decreases parts
  {
    if |parts| <= 1 {
      assert parts + [last] == if parts == [] then [last] else [parts[0], last];
    } else {
      JoinOneMore(parts[1..], last);
      assert (parts + [last])[1..] == parts[1..] + [last];
      assert Join("/", parts) == parts[0] + "/" + Join("/", parts[1..]);
      assert parts[0] + "/" + (Join("/", parts[1..]) + "/" + last) ==
             parts[0] + "/" + Join("/", parts[1..]) + "/" + last;
    }
  }

  /** getSurveyFlatPaths. */
  method GetSurveyFlatPaths(survey: seq<Row>, includeGroups: bool, includeMeta: bool) returns (output: Output)
    ensures output == FlatWalk(Walked(map[], []), survey, includeGroups, includeMeta).output
  {
    output := map[];
    var openedGroups: seq<Name> := [];
    for i := 0 to |survey|
      invariant Walked(output, openedGroups) == FlatWalk(Walked(map[], []), survey[..i], includeGroups, includeMeta)
    {
      var row := survey[i];
      FlatWalkConcat(Walked(map[], []), survey[..i], [row], includeGroups, includeMeta);
      assert survey[..i + 1] == survey[..i] + [row];
      var rowName := GetRowName(row);
      if row.rowType.Begin? {
        openedGroups := openedGroups + [rowName];
        if includeGroups {
          output := output[rowName := Join("/", openedGroups)];
        }
      } else if row.rowType.End? {
        if openedGroups != [] {
          openedGroups := openedGroups[..|openedGroups| - 1];
        }
      } else if row.rowType in {Question, ScoreRow, RankLevel} || (includeMeta && row.rowType == Meta) {
        var groupsPath := "";
        if |openedGroups| >= 1 {
          groupsPath := Join("/", openedGroups) + "/";
        }
        JoinOneMore(openedGroups, rowName);
        output := output[rowName := groupsPath + rowName];
      }
    }
    assert survey[..|survey|] == survey;
  }

  /** The name under which a row is listed: the first one of its own, its automatic one and its
      identifier that is not missing, null or empty; the identifier counts in any case.
      Questions, scores and rank levels are listed, meta questions and groups if asked for, other rows never. */
  lemma OneRowIsListed(r: Row, includeGroups: bool, includeMeta: bool)
    ensures var output := FlatWalk(Walked(map[], []), [r], includeGroups, includeMeta).output;
            if || r.rowType == Question || r.rowType == ScoreRow || r.rowType == RankLevel
               || (r.rowType == Meta && includeMeta) || (r.rowType.Begin? && includeGroups)
            then
              && (forall x :: r.name == Some(Some(x)) && x != "" ==> output == map[x := x])
              && (forall x :: (r.name == None || r.name == Some(None) || r.name == Some(Some("")))
                              && r.autoname == Some(Some(x)) && x != "" ==>
                                output == map[x := x])
              && ((r.name == None || r.name == Some(None) || r.name == Some(Some("")))
                  && (r.autoname == None || r.autoname == Some(None) || r.autoname == Some(Some(""))) ==>
                    output == map[r.kuid := r.kuid])
            else output == map[]
  {
    assert [r][1..] == [];
    assert FlatWalk(Walked(map[], []), [r], includeGroups, includeMeta) ==
           FlatNextRow(Walked(map[], []), r, includeGroups, includeMeta);
    forall x: Name ensures Join("/", [] + [x]) == x {
      assert [] + [x] == [x];
    }
  }

  // ---- Agreement with the paths stored by insert_full_paths_in_place ----

  /** Both sides read the same, non-empty name from the row. */
  predicate SameName(r: Row) {
    GetName(r) == Some(GetRowName(r))
  }

  /** Only group, repeat and score rows begin and end groups, and both sides read the same names. */
  predicate Shared(rows: seq<Row>) {
    forall i :: 0 <= i < |rows| ==>
                  && (rows[i].rowType.Begin? ==> IsBeginner(rows[i]))
                  && (rows[i].rowType.End? ==> IsEnder(rows[i]))
                  && (Listed(rows[i], true, true) ==> SameName(rows[i]))
  }

  function WithStoredPath(output: Output, r: Row, includeGroups: bool, includeMeta: bool): Output {
    if Listed(r, includeGroups, includeMeta) && r.xpath.Some? then output[GetRowName(r) := r.xpath.value] else output
  }

  /** The output gives each listed row its stored path; when a name comes twice the later row wins. */
  function AddStoredPaths(output: Output, rows: seq<Row>, includeGroups: bool, includeMeta: bool): Output
    decreases rows
  {
    if rows == [] then output
    else
      var r := rows[0];
      AddStoredPaths(WithStoredPath(output, r, includeGroups, includeMeta), rows[1..], includeGroups, includeMeta)
  }

  lemma {:induction false} AddStoredPathsConcat(output: Output, a: seq<Row>, b: seq<Row>, includeGroups: bool,
                                                includeMeta: bool)
    ensures AddStoredPaths(output, a + b, includeGroups, includeMeta) ==
            AddStoredPaths(AddStoredPaths(output, a, includeGroups, includeMeta), b, includeGroups, includeMeta)
    decreases a
  {
    if a == [] {
      assert a + b == b;
    } else {
      assert (a + b)[1..] == a[1..] + b;
      var r := a[0];
      AddStoredPathsConcat(WithStoredPath(output, r, includeGroups, includeMeta), a[1..], b,
                           includeGroups, includeMeta);
    }
  }

  /** One row, with the same open groups on both sides. */
  lemma RowsAgree(p: (seq<Row>, seq<Name>), w: Walked, r: Row, includeGroups: bool, includeMeta: bool)
    requires Shared([r]) && p.1 == w.openedGroups && NextRow(p, r).Some?
    requires w.output == AddStoredPaths(map[], p.0, includeGroups, includeMeta)
    ensures var p2 := NextRow(p, r).value;
            var w2 := FlatNextRow(w, r, includeGroups, includeMeta);
            p2.1 == w2.openedGroups && w2.output == AddStoredPaths(map[], p2.0, includeGroups, includeMeta)
  {
    var p2 := NextRow(p, r).value;
    var r2 := p2.0[|p2.0| - 1];
    assert [r][0] == r;
    AddStoredPathsConcat(map[], p.0, [r2], includeGroups, includeMeta);
    assert p2.0 == p.0 + [r2];
    assert AddStoredPaths(w.output, [r2], includeGroups, includeMeta) ==
           WithStoredPath(w.output, r2, includeGroups, includeMeta);
  }

  /** Where the back end's loop pops no empty stack, the front end's walk
      keeps the same open groups and lists the stored paths. */
  lemma {:induction false} WalksAgree(p: (seq<Row>, seq<Name>), w: Walked, rows: seq<Row>, includeGroups: bool,
                                      includeMeta: bool)
    requires Shared(rows) && p.1 == w.openedGroups && Walk(p, rows).Some?
    requires w.output == AddStoredPaths(map[], p.0, includeGroups, includeMeta)
    ensures FlatWalk(w, rows, includeGroups, includeMeta).output ==
            AddStoredPaths(map[], Walk(p, rows).value.0, includeGroups, includeMeta)
    decreases rows
  {
    if rows == [] {
    } else {
      assert Shared([rows[0]]) && Shared(rows[1..]) by {
        assert [rows[0]][0] == rows[0];
        assert forall i :: 0 <= i < |rows[1..]| ==> rows[1..][i] == rows[i + 1];
      }
      RowsAgree(p, w, rows[0], includeGroups, includeMeta);
      WalksAgree(NextRow(p, rows[0]).value, FlatNextRow(w, rows[0], includeGroups, includeMeta), rows[1..],
                 includeGroups, includeMeta);
    }
  }

  /** Listed rows have different names. */
  predicate UniqueNames(rows: seq<Row>, includeGroups: bool, includeMeta: bool) {
    forall i, j :: 0 <= i < j < |rows| && Listed(rows[i], includeGroups, includeMeta) &&
                   Listed(rows[j], includeGroups, includeMeta) ==>
                     GetRowName(rows[i]) != GetRowName(rows[j])
  }

  lemma {:induction false} StoredPathsAreKept(output: Output, rows: seq<Row>, name: Name, includeGroups: bool,
                                              includeMeta: bool)
    requires forall i :: 0 <= i < |rows| && Listed(rows[i], includeGroups, includeMeta) ==> GetRowName(rows[i]) != name
    ensures name in AddStoredPaths(output, rows, includeGroups, includeMeta) <==> name in output
    ensures name in output ==> AddStoredPaths(output, rows, includeGroups, includeMeta)[name] == output[name]
    decreases rows
  {
    if rows != [] {
      var r := rows[0];
      assert forall i :: 0 <= i < |rows[1..]| ==> rows[1..][i] == rows[i + 1];
      StoredPathsAreKept(WithStoredPath(output, r, includeGroups, includeMeta), rows[1..], name,
                         includeGroups, includeMeta);
    }
  }

  lemma {:induction false} StoredPathIsListed(output: Output, rows: seq<Row>, k: nat, includeGroups: bool,
                                              includeMeta: bool)
    requires UniqueNames(rows, includeGroups, includeMeta) && k < |rows|
    requires Listed(rows[k], includeGroups, includeMeta) && rows[k].xpath.Some?
    ensures GetRowName(rows[k]) in AddStoredPaths(output, rows, includeGroups, includeMeta)
    ensures AddStoredPaths(output, rows, includeGroups, includeMeta)[GetRowName(rows[k])] == rows[k].xpath.value
    decreases rows
  {
    var r := rows[0];
    var output2 := WithStoredPath(output, r, includeGroups, includeMeta);
    assert forall i :: 0 <= i < |rows[1..]| ==> rows[1..][i] == rows[i + 1];
    if k == 0 {
      StoredPathsAreKept(output2, rows[1..], GetRowName(r), includeGroups, includeMeta);
    } else {
      StoredPathIsListed(output2, rows[1..], k - 1, includeGroups, includeMeta);
    }
  }

  /** A stored row is the row of the survey, up to its paths; every named row has a path. */
  predicate Stores(r: Row, s: Row) {
    && s.rowType == r.rowType && s.name == r.name && s.autoname == r.autoname && s.kuid == r.kuid
    && (GetName(r).Some? && !IsEnder(r) ==> s.xpath.Some?)
  }

  lemma {:induction false} RowsAreStored(p: (seq<Row>, seq<Name>), rows: seq<Row>, k: nat)
    requires Walk(p, rows).Some?
    ensures var stored := Walk(p, rows).value.0;
            |stored| == |p.0| + |rows| && stored[..|p.0|] == p.0 && (k < |rows| ==> Stores(rows[k], stored[|p.0| + k]))
    decreases rows
  {
    if rows != [] {
      var p2 := NextRow(p, rows[0]).value;
      var stored := Walk(p, rows).value.0;
      RowsAreStored(p2, rows[1..], if k == 0 then 0 else k - 1);
      assert stored[..|p.0|] == stored[..|p2.0|][..|p.0|];
      assert stored[|p.0|] == stored[..|p2.0|][|p.0|] == p2.0[|p.0|];
    }
  }

  lemma StoredNamesAreUnique(survey: seq<Row>, stored: seq<Row>, includeGroups: bool, includeMeta: bool)
    requires Walk(([], []), survey).Some? && stored == Walk(([], []), survey).value.0
    requires UniqueNames(survey, includeGroups, includeMeta)
    ensures |stored| == |survey| && UniqueNames(stored, includeGroups, includeMeta)
  {
    RowsAreStored(([], []), survey, |survey|);
    forall i | 0 <= i < |survey|
      ensures GetRowName(stored[i]) == GetRowName(survey[i]) && stored[i].rowType == survey[i].rowType
    {
      RowsAreStored(([], []), survey, i);
    }
  }

  /** The two implementations agree: once the back end has stored the paths of a survey, the
      front end computes, for every row it lists, the stored `$xpath`. */
  lemma PathsAgree(survey: seq<Row>, includeGroups: bool, includeMeta: bool, k: nat)
    requires Shared(survey) && Walk(([], []), survey).Some?
    requires UniqueNames(survey, includeGroups, includeMeta)
    requires k < |survey| && Listed(survey[k], includeGroups, includeMeta)
    ensures var stored := Walk(([], []), survey).value.0;
            var output := FlatWalk(Walked(map[], []), survey, includeGroups, includeMeta).output;
            && |stored| == |survey| && stored[k].xpath.Some?
            && GetRowName(survey[k]) in output && output[GetRowName(survey[k])] == stored[k].xpath.value
  {
    var stored := Walk(([], []), survey).value.0;
    StoredNamesAreUnique(survey, stored, includeGroups, includeMeta);
    RowsAreStored(([], []), survey, k);
    WalksAgree(([], []), Walked(map[], []), survey, includeGroups, includeMeta);
    StoredPathIsListed(map[], stored, k, includeGroups, includeMeta);
  }
}
