/** getFlatQuestionsList: each question with its path, its open groups and whether one of them
    is a repeat. */
module FlatQuestions {
  import opened Wrappers
  import opened SurveyPaths
  import opened FlatPaths

  const BEGIN_GROUP := Begin(GroupRows)
  const BEGIN_REPEAT := Begin(RepeatRows)
  const END_GROUP := End(GroupRows)
  const END_REPEAT := End(RepeatRows)

  datatype FlatQuestion = FlatQuestion(
    rowType: RowType,
    name: Name,
    isRequired: bool,
    displayName: string,
    path: string,
    parents: seq<string>,
    parentRows: seq<Row>,
    hasRepeatParent: bool
  )

  function DisplayNames(rows: seq<Row>): seq<string> {
    seq(|rows|, i requires 0 <= i < |rows| => rows[i].display)
  }

  /** A row that the list holds; score and rank rows are not questions here. */
  predicate IsFlatQuestion(r: Row, includeMeta: bool) {
    r.rowType == Question || (includeMeta && r.rowType == Meta)
  }

  function NextOpen(before: seq<Row>, r: Row): seq<Row> {
    if r.rowType == BEGIN_GROUP || r.rowType == BEGIN_REPEAT then before + [r]
    else if (r.rowType == END_GROUP || r.rowType == END_REPEAT) && before != [] then before[..|before| - 1]
    else before
  }

  /** The groups and repeats still open after the rows. */
  function OpenRows(rows: seq<Row>): seq<Row> {
    if rows == [] then [] else NextOpen(OpenRows(rows[..|rows| - 1]), rows[|rows| - 1])
  }

  function NextCount(before: int, r: Row): int {
    before + if r.rowType == BEGIN_REPEAT then 1 else if r.rowType == END_REPEAT then -1 else 0
  }

  /** The counter of the source: begin_repeat rows less end_repeat rows. */
  function RepeatCount(rows: seq<Row>): int {
    if rows == [] then 0 else NextCount(RepeatCount(rows[..|rows| - 1]), rows[|rows| - 1])
  }

  /** The paths that the list looks up, with meta questions whatever `includeMeta` says. */
  function FlatPathsOf(survey: seq<Row>): Output {
    FlatWalk(Walked(map[], []), survey, false, true).output
  }

  /** The positions of the listed questions. */
  function QuestionsAt(survey: seq<Row>, includeMeta: bool): (s: seq<nat>)
    ensures forall i :: 0 <= i < |s| ==> s[i] < |survey|
    ensures forall i, j :: 0 <= i < j < |s| ==> s[i] < s[j]
    ensures forall k :: 0 <= k < |survey| ==>
                          (k in s <==> survey[k].rowType == Question || (includeMeta && survey[k].rowType == Meta))
  {
    if survey == [] then []
    else
      var k := |survey| - 1;
      QuestionsAt(survey[..k], includeMeta) + if IsFlatQuestion(survey[k], includeMeta) then [k] else []
  }

  /** What the list says of the question at position k. */
  predicate Describes(q: FlatQuestion, survey: seq<Row>, k: nat) {
    && k < |survey| && q.rowType == survey[k].rowType && q.name == GetRowName(survey[k])
    && q.isRequired == survey[k].required && q.displayName == survey[k].display
    && q.name in FlatPathsOf(survey) && q.path == FlatPathsOf(survey)[q.name]
    && q.parentRows == OpenRows(survey[..k + 1]) && |q.parents| == |q.parentRows|
    && (forall i :: 0 <= i < |q.parents| ==> q.parents[i] == q.parentRows[i].display)
    && (q.hasRepeatParent <==> RepeatCount(survey[..k + 1]) >= 1)
  }

  predicate DescribesAll(output: seq<FlatQuestion>, survey: seq<Row>, positions: seq<nat>) {
    |output| == |positions| && forall i :: 0 <= i < |output| ==> Describes(output[i], survey, positions[i])
  }

  /** One row further. */
  lemma StepAt(survey: seq<Row>, k: nat, includeMeta: bool)
    requires k < |survey|
    ensures OpenRows(survey[..k + 1]) == NextOpen(OpenRows(survey[..k]), survey[k])
    ensures RepeatCount(survey[..k + 1]) == NextCount(RepeatCount(survey[..k]), survey[k])
    ensures QuestionsAt(survey[..k + 1], includeMeta) ==
            QuestionsAt(survey[..k], includeMeta) + if IsFlatQuestion(survey[k], includeMeta) then [k] else []
  {
    assert survey[..k + 1][..k] == survey[..k] && survey[..k + 1][k] == survey[k];
  }

  lemma {:induction false} ListedIsInOutput(w: Walked, rows: seq<Row>, name: Name)
    requires name in w.output ||
             exists k :: 0 <= k < |rows| && Listed(rows[k], false, true) && GetRowName(rows[k]) == name
    ensures name in FlatWalk(w, rows, false, true).output
    decreases rows
  {
    if rows != [] {
      assert forall i :: 0 <= i < |rows[1..]| ==> rows[1..][i] == rows[i + 1];
      if name !in w.output && !(Listed(rows[0], false, true) && GetRowName(rows[0]) == name) {
        var k :| 0 <= k < |rows| && Listed(rows[k], false, true) && GetRowName(rows[k]) == name;
        assert rows[1..][k - 1] == rows[k];
      }
      ListedIsInOutput(FlatNextRow(w, rows[0], false, true), rows[1..], name);
    }
  }

  /** The first part of the loop body: the open groups and the counter follow the row. */
  method PushAndCount(openedGroups: seq<Row>, openedRepeatGroupsCount: int, row: Row)
    returns (groups: seq<Row>, count: int)
    ensures groups == NextOpen(openedGroups, row) && count == NextCount(openedRepeatGroupsCount, row)
  {
    groups, count := openedGroups, openedRepeatGroupsCount;
    if row.rowType == BEGIN_GROUP || row.rowType == BEGIN_REPEAT {
      groups := groups + [row];
    }
    if row.rowType == END_GROUP || row.rowType == END_REPEAT {
      if groups != [] {
        groups := groups[..|groups| - 1];
      }
    }
    if row.rowType == BEGIN_REPEAT {
      count := count + 1;
    } else if row.rowType == END_REPEAT {
      count := count - 1;
    }
  }

  /** The last part of the loop body: the row is pushed if it is a question. */
  method PushQuestion(output: seq<FlatQuestion>, survey: seq<Row>, k: nat, includeMeta: bool, flatPaths: Output,
                      openedGroups: seq<Row>, openedRepeatGroupsCount: int)
    returns (output2: seq<FlatQuestion>)
    requires k < |survey| && flatPaths == FlatPathsOf(survey)
    requires openedGroups == OpenRows(survey[..k + 1]) && openedRepeatGroupsCount == RepeatCount(survey[..k + 1])
    requires DescribesAll(output, survey, QuestionsAt(survey[..k], includeMeta))
    ensures DescribesAll(output2, survey, QuestionsAt(survey[..k + 1], includeMeta))
  {
    StepAt(survey, k, includeMeta);
    var row := survey[k];
    output2 := output;
    if row.rowType == Question || (includeMeta && row.rowType == Meta) {
      var rowName := GetRowName(row);
      ListedIsInOutput(Walked(map[], []), survey, rowName);
      output2 := output + [FlatQuestion(row.rowType, rowName, row.required, row.display, flatPaths[rowName],
                                        DisplayNames(openedGroups), openedGroups, openedRepeatGroupsCount >= 1)];
    }
  }

  /** getFlatQuestionsList: every question once, in order; the path that it looks up is there. */
  method GetFlatQuestionsList(survey: seq<Row>, includeMeta: bool) returns (output: seq<FlatQuestion>)
    ensures DescribesAll(output, survey, QuestionsAt(survey, includeMeta))
  {
    var flatPaths := GetSurveyFlatPaths(survey, false, true);
    output := [];
    var openedGroups: seq<Row> := [];
    var openedRepeatGroupsCount := 0;
    for k := 0 to |survey|
      invariant openedGroups == OpenRows(survey[..k]) && openedRepeatGroupsCount == RepeatCount(survey[..k])
      invariant DescribesAll(output, survey, QuestionsAt(survey[..k], includeMeta))
    {
      var row := survey[k];
      StepAt(survey, k, includeMeta);
      openedGroups, openedRepeatGroupsCount := PushAndCount(openedGroups, openedRepeatGroupsCount, row);
      output := PushQuestion(output, survey, k, includeMeta, flatPaths, openedGroups, openedRepeatGroupsCount);
    }
    assert survey[..|survey|] == survey;
  }

  lemma FirstRow(survey: seq<Row>)
    requires |survey| >= 1
    ensures var kind := survey[0].rowType;
            && OpenRows(survey[..1]) == (if kind == BEGIN_GROUP || kind == BEGIN_REPEAT then [survey[0]] else [])
            && RepeatCount(survey[..1]) == NextCount(0, survey[0])
  {
    assert survey[..0] == [];
    StepAt(survey, 0, false);
    assert [] + [survey[0]] == [survey[0]];
  }

  lemma QuestionKeeps(survey: seq<Row>, k: nat)
    requires k < |survey| && survey[k].rowType == Question
    ensures OpenRows(survey[..k + 1]) == OpenRows(survey[..k])
    ensures RepeatCount(survey[..k + 1]) == RepeatCount(survey[..k])
  {
    StepAt(survey, k, false);
  }

  lemma RowInOneGroup(survey: seq<Row>)
    requires |survey| >= 2 && survey[0].rowType.Begin? && survey[1].rowType == Question
    ensures var kind := survey[0].rowType.kind;
            && OpenRows(survey[..2]) == (if kind == RepeatRows || kind == GroupRows then [survey[0]] else [])
            && (RepeatCount(survey[..2]) >= 1 <==> kind == RepeatRows)
  {
    FirstRow(survey);
    QuestionKeeps(survey, 1);
  }

  lemma ClosedAtOnce(survey: seq<Row>)
    requires |survey| >= 2 && survey[0].rowType in {BEGIN_GROUP, BEGIN_REPEAT}
    requires survey[1].rowType in {END_GROUP, END_REPEAT}
    ensures OpenRows(survey[..2]) == []
    ensures RepeatCount(survey[..2]) == NextCount(NextCount(0, survey[0]), survey[1])
  {
    FirstRow(survey);
    StepAt(survey, 1, false);
    assert [survey[0]][..0] == [];
  }

  lemma RowAfterOneGroup(survey: seq<Row>)
    requires |survey| >= 3 && survey[2].rowType == Question
    requires || (survey[0].rowType == Begin(GroupRows) && survey[1].rowType == End(GroupRows))
             || (survey[0].rowType == Begin(RepeatRows) && survey[1].rowType == End(RepeatRows))
    ensures OpenRows(survey[..3]) == [] && RepeatCount(survey[..3]) == 0
  {
    ClosedAtOnce(survey);
    QuestionKeeps(survey, 2);
  }

  /** A question after a row that begins a group, or a repeat, has it as its parent, and is flagged for
      a repeat only; rows of other kinds are no parents. */
  lemma QuestionInOneGroup(q: FlatQuestion, survey: seq<Row>)
    requires |survey| == 2 && survey[0].rowType.Begin? && survey[1].rowType == Question && Describes(q, survey, 1)
    ensures var kind := survey[0].rowType.kind;
            && (q.hasRepeatParent <==> kind == RepeatRows)
            && q.parentRows == if kind == RepeatRows || kind == GroupRows then [survey[0]] else []
  {
    RowInOneGroup(survey);
  }

  /** And once such a row has ended, a question has no parent and is not flagged. */
  lemma QuestionAfterOneGroup(q: FlatQuestion, survey: seq<Row>)
    requires |survey| == 3 && survey[2].rowType == Question && Describes(q, survey, 2)
    requires || (survey[0].rowType == Begin(GroupRows) && survey[1].rowType == End(GroupRows))
             || (survey[0].rowType == Begin(RepeatRows) && survey[1].rowType == End(RepeatRows))
    ensures !q.hasRepeatParent && q.parentRows == []
  {
    RowAfterOneGroup(survey);
  }

  // ---- When the counter tells the truth ----

  predicate HasRepeat(groups: seq<Row>) {
    exists i :: 0 <= i < |groups| && groups[i].rowType == BEGIN_REPEAT
  }

  /** Each end_group and end_repeat closes a group of its own kind. */
  predicate EndsMatch(rows: seq<Row>) {
    forall k :: 0 <= k < |rows| && rows[k].rowType in {END_GROUP, END_REPEAT} ==>
                  var open := OpenRows(rows[..k]);
                  open != [] && open[|open| - 1].rowType.Begin? && open[|open| - 1].rowType.kind == rows[k].rowType.kind
  }

  function Repeats(groups: seq<Row>): nat {
    if groups == [] then 0
    else Repeats(groups[..|groups| - 1]) + if groups[|groups| - 1].rowType == BEGIN_REPEAT then 1 else 0
  }

  lemma {:induction false} SomeRepeatIsCounted(groups: seq<Row>)
    ensures Repeats(groups) >= 1 <==> HasRepeat(groups)
  {
    if groups != [] {
      var n := |groups| - 1;
      SomeRepeatIsCounted(groups[..n]);
      if HasRepeat(groups[..n]) {
        var i :| 0 <= i < n && groups[..n][i].rowType == BEGIN_REPEAT;
        assert groups[i].rowType == BEGIN_REPEAT;
      } else {
        assert forall i :: 0 <= i < n ==> groups[..n][i] == groups[i];
      }
    }
  }

  lemma RepeatsFollow(before: seq<Row>, r: Row)
    ensures Repeats(before + [r]) == Repeats(before) + if r.rowType == BEGIN_REPEAT then 1 else 0
  {
    assert (before + [r])[..|before|] == before;
  }

  /** What mismatched ends add to the counter: one for each repeat that any end row closes,
      less one for each end_repeat row. */
  function Mismatch(rows: seq<Row>): int {
    if rows == [] then 0 else Mismatch(rows[..|rows| - 1]) + MismatchOf(OpenRows(rows[..|rows| - 1]), rows[|rows| - 1])
  }

  predicate ClosesRepeat(before: seq<Row>, r: Row) {
    r.rowType in {END_GROUP, END_REPEAT} && before != [] && before[|before| - 1].rowType == BEGIN_REPEAT
  }

  function MismatchOf(before: seq<Row>, r: Row): int {
    (if ClosesRepeat(before, r) then 1 else 0) - (if r.rowType == END_REPEAT then 1 else 0)
  }

  lemma RepeatsNext(before: seq<Row>, r: Row)
    ensures Repeats(NextOpen(before, r)) ==
            Repeats(before) + (if r.rowType == BEGIN_REPEAT then 1 else 0) - (if ClosesRepeat(before, r) then 1 else 0)
  {
    RepeatsFollow(before, r);
  }

  /** The counter of any survey: its open repeats, and what mismatched ends add. */
  lemma {:induction false} CounterLaw(rows: seq<Row>)
    ensures RepeatCount(rows) == Repeats(OpenRows(rows)) + Mismatch(rows)
  {
    if rows != [] {
      var n := |rows| - 1;
      CounterLaw(rows[..n]);
      RepeatsNext(OpenRows(rows[..n]), rows[n]);
    }
  }

  /** A question is marked rightly exactly when the mismatches do not outweigh the open repeats,
      or, without any open repeat, add nothing. */
  lemma FlagIsRightIff(q: FlatQuestion, survey: seq<Row>, k: nat)
    requires Describes(q, survey, k)
    ensures (q.hasRepeatParent <==> HasRepeat(q.parentRows)) <==>
            var open, mismatch := Repeats(OpenRows(survey[..k + 1])), Mismatch(survey[..k + 1]);
            if open > 0 then open + mismatch > 0 else mismatch <= 0
  {
    CounterLaw(survey[..k + 1]);
    SomeRepeatIsCounted(OpenRows(survey[..k + 1]));
  }

  lemma {:induction false} MatchedEndsAddNothing(rows: seq<Row>)
    requires EndsMatch(rows)
    ensures Mismatch(rows) == 0
  {
    if rows != [] {
      var n := |rows| - 1;
      EndsMatchBefore(rows, n);
      MatchedEndsAddNothing(rows[..n]);
    }
  }

  lemma EndsMatchBefore(rows: seq<Row>, n: nat)
    requires EndsMatch(rows) && n <= |rows|
    ensures EndsMatch(rows[..n])
  {
    assert forall k :: 0 <= k < n ==> rows[..n][k] == rows[k] && rows[..n][..k] == rows[..k];
  }

  /** Where each end row matches the kind of its begin row, a question is marked as repeated
      exactly when a repeat is among its open groups. */
  lemma RepeatParentIsReal(q: FlatQuestion, survey: seq<Row>, k: nat)
    requires Describes(q, survey, k) && EndsMatch(survey[..k + 1])
    ensures q.hasRepeatParent <==> HasRepeat(q.parentRows)
  {
    MatchedEndsAddNothing(survey[..k + 1]);
    FlagIsRightIff(q, survey, k);
  }

  lemma RowInRepeat(survey: seq<Row>)
    requires |survey| >= 4 && survey[2].rowType == BEGIN_REPEAT && survey[3].rowType == Question
    requires OpenRows(survey[..2]) == []
    ensures OpenRows(survey[..4]) == [survey[2]] && RepeatCount(survey[..4]) == RepeatCount(survey[..2]) + 1
  {
    StepAt(survey, 2, false);
    QuestionKeeps(survey, 3);
    assert [] + [survey[2]] == [survey[2]];
  }

  /** A group closed by end_repeat takes one from the counter, so a question in the next repeat is not marked. */
  lemma MismatchedEndHidesRepeat(q: FlatQuestion, survey: seq<Row>)
    requires |survey| == 4 && survey[0].rowType == BEGIN_GROUP && survey[1].rowType == END_REPEAT
    requires survey[2].rowType == BEGIN_REPEAT && survey[3].rowType == Question
    requires Describes(q, survey, 3)
    ensures HasRepeat(q.parentRows) && !q.hasRepeatParent
  {
    ClosedAtOnce(survey);
    RowInRepeat(survey);
    assert q.parentRows[0].rowType == BEGIN_REPEAT;
  }

  // ---- The path of a question and its parents ----

  /** Groups and repeats are the only rows that begin or end groups. */
  predicate OnlyGroupsAndRepeats(rows: seq<Row>) {
    forall k :: 0 <= k < |rows| ==>
                  && (rows[k].rowType.Begin? ==> rows[k].rowType in {BEGIN_GROUP, BEGIN_REPEAT})
                  && (rows[k].rowType.End? ==> rows[k].rowType in {END_GROUP, END_REPEAT})
  }

  function NamesOf(rows: seq<Row>): seq<Name> {
    seq(|rows|, i requires 0 <= i < |rows| => GetRowName(rows[i]))
  }

  lemma NamesFollow(groups: seq<Row>, r: Row)
    ensures NamesOf(groups + [r]) == NamesOf(groups) + [GetRowName(r)]
    ensures groups != [] ==> NamesOf(groups[..|groups| - 1]) == NamesOf(groups)[..|groups| - 1]
    ensures NamesOf(groups) == [] <==> groups == []
  {
  }

  lemma {:induction false} OpenGroupsAreOpenRows(rows: seq<Row>)
    requires OnlyGroupsAndRepeats(rows)
    ensures FlatWalk(Walked(map[], []), rows, false, true).openedGroups == NamesOf(OpenRows(rows))
  {
    if rows != [] {
      var n := |rows| - 1;
      OpenGroupsAreOpenRows(rows[..n]);
      assert rows == rows[..n] + [rows[n]];
      FlatWalkConcat(Walked(map[], []), rows[..n], [rows[n]], false, true);
      var w := FlatWalk(Walked(map[], []), rows[..n], false, true);
      assert FlatWalk(w, [rows[n]], false, true) == FlatNextRow(w, rows[n], false, true);
      NamesFollow(OpenRows(rows[..n]), rows[n]);
    }
  }

  /** Rows that do not list the name leave its path as it is. */
  lemma {:induction false} PathIsKept(w: Walked, rows: seq<Row>, name: Name)
    requires name in w.output &&
             forall k :: 0 <= k < |rows| && Listed(rows[k], false, true) ==> GetRowName(rows[k]) != name
    ensures name in FlatWalk(w, rows, false, true).output &&
            FlatWalk(w, rows, false, true).output[name] == w.output[name]
    decreases rows
  {
    if rows != [] {
      assert forall i :: 0 <= i < |rows[1..]| ==> rows[1..][i] == rows[i + 1];
      PathIsKept(FlatNextRow(w, rows[0], false, true), rows[1..], name);
    }
  }

  /** With unique names and only groups and repeats, the path looked up for a question is made of
      the names of the very groups listed as its parents, followed by its own name. */
  lemma PathFollowsParents(q: FlatQuestion, survey: seq<Row>, k: nat)
    requires Describes(q, survey, k) && IsFlatQuestion(survey[k], true)
    requires OnlyGroupsAndRepeats(survey) && UniqueNames(survey, false, true)
    ensures q.path == Join("/", NamesOf(q.parentRows) + [q.name])
  {
    var before, rest := survey[..k + 1], survey[k + 1..];
    var start, w := Walked(map[], []), FlatWalk(Walked(map[], []), survey[..k], false, true);
    assert survey == before + rest && before == survey[..k] + [survey[k]];
    FlatWalkConcat(start, before, rest, false, true);
    FlatWalkConcat(start, survey[..k], [survey[k]], false, true);
    assert FlatWalk(w, [survey[k]], false, true) == FlatNextRow(w, survey[k], false, true);
    OpenGroupsAreOpenRows(survey[..k]);
    assert before[..k] == survey[..k] && OpenRows(before) == OpenRows(survey[..k]);
    assert forall i :: 0 <= i < |rest| ==> rest[i] == survey[k + 1 + i];
    PathIsKept(FlatNextRow(w, survey[k], false, true), rest, q.name);
  }
}
