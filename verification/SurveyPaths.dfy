/** The path of each survey row through its enclosing groups: computed in place with a stack by
    insert_full_paths_in_place, and again by getSurveyFlatPaths in the front end. */
module SurveyPaths {
  import opened Wrappers
  import opened Sequences

  datatype GroupKind = GroupRows | RepeatRows | ScoreRows | RankRows | KobomatrixRows

  datatype RowType = Begin(kind: GroupKind) | End(kind: GroupKind) | Question | ScoreRow | RankLevel | Meta | OtherType

  type Name = string

  /** A key of a row: absent, or there with a value that may be null. */
  type Field = Option<Option<Name>>

  /** A survey row; `display` is its name for display in the chosen language. */
  datatype Row = Row(
    rowType: RowType,
    name: Field,
    autoname: Field,
    kuid: Name,
    required: bool,
    display: string,
    qpath: Option<string>,
    xpath: Option<string>
  )

  const DELIMITER := "-"

  /** BEGINNERS and ENDERS: only score, group and repeat. */
  predicate InHierarchy(kind: GroupKind) {
    kind in {ScoreRows, GroupRows, RepeatRows}
  }

  predicate IsBeginner(r: Row) {
    r.rowType.Begin? && InHierarchy(r.rowType.kind)
  }

  predicate IsEnder(r: Row) {
    r.rowType.End? && InHierarchy(r.rowType.kind)
  }

  function GetName(r: Row): Option<Name> {
    if r.name.Some? then r.name.value
    else if r.autoname.Some? then r.autoname.value
    else None
  }

  function Join(separator: string, parts: seq<string>): string {
    if parts == [] then ""
    else if |parts| == 1 then parts[0]
    else parts[0] + separator + Join(separator, parts[1..])
  }

  function ConcatPaths(name: Name, parentNames: seq<Name>): string {
    Join(DELIMITER, parentNames + [name])
  }

  function ConcatXpath(name: Name, parentNames: seq<Name>): string {
    Join("/", parentNames + [name])
  }

  /** A row with the paths it has inside groups of these names. */
  function WithPaths(r: Row, name: Name, parentNames: seq<Name>): Row {
    r.(qpath := Some(ConcatPaths(name, parentNames)), xpath := Some(ConcatXpath(name, parentNames)))
  }

  /** Rows written so far and the open groups; None when the loop popped an empty stack. */
  type Progress = Option<(seq<Row>, seq<Name>)>

  function NextRow(p: (seq<Row>, seq<Name>), r: Row): Progress {
    var (rows, hierarchy) := p;
    if IsEnder(r) then
      if hierarchy == [] then None else Some((rows + [r], hierarchy[..|hierarchy| - 1]))
    else
      match GetName(r)
      case None => Some((rows + [r], hierarchy))
      case Some(name) =>
        Some((rows + [WithPaths(r, name, hierarchy)], if IsBeginner(r) then hierarchy + [name] else hierarchy))
  }

  function Walk(p: (seq<Row>, seq<Name>), rows: seq<Row>): Progress
    decreases rows
  {
    if rows == [] then Some(p)
    else
      match NextRow(p, rows[0])
      case None => None
      case Some(p2) => Walk(p2, rows[1..])
  }

  lemma {:induction false} WalkConcat(p: (seq<Row>, seq<Name>), a: seq<Row>, b: seq<Row>)
    ensures Walk(p, a + b) == match Walk(p, a) case None => None case Some(p2) => Walk(p2, b)
    decreases a
  {
    if a == [] {
      assert a + b == b;
    } else {
      assert (a + b)[1..] == a[1..] + b;
      match NextRow(p, a[0]) {
        case None =>
        case Some(p2) => WalkConcat(p2, a[1..], b);
      }
    }
  }

  /** Row i of the rows; if the walk stops there, it stops for good. */
  lemma WalkOneMore(p: (seq<Row>, seq<Name>), rows: seq<Row>, i: nat)
    requires i < |rows| && Walk(p, rows[..i]).Some?
    ensures Walk(p, rows[..i + 1]) == NextRow(Walk(p, rows[..i]).value, rows[i])
    ensures Walk(p, rows[..i + 1]).None? ==> Walk(p, rows).None?
  {
    var p2 := Walk(p, rows[..i]).value;
    WalkConcat(p, rows[..i], [rows[i]]);
    assert rows[..i + 1] == rows[..i] + [rows[i]];
    assert Walk(p2, [rows[i]]) == NextRow(p2, rows[i]) by {
      assert [rows[i]][1..] == [];
    }
    WalkConcat(p, rows[..i + 1], rows[i + 1..]);
    assert rows == rows[..i + 1] + rows[i + 1..];
  }

  /** The loop met row i, which ends a group, with no group open: the rows
      before it are written, those from it on are as they were. */
  predicate StoppedAt(before: seq<Row>, after: seq<Row>, i: nat) {
    && i < |before| == |after| && IsEnder(before[i])
    && Walk(([], []), before[..i]) == Some((after[..i], []))
    && forall j :: i <= j < |before| ==> after[j] == before[j]
  }

  class Survey {
    var rows: seq<Row>

    constructor (rows: seq<Row>)
      ensures this.rows == rows
    {
      this.rows := rows;
    }

    /** insert_full_paths_in_place; it raises when it pops an empty stack. */
    method InsertFullPathsInPlace() returns (raised: bool)
      modifies this
      ensures raised <==> Walk(([], []), old(rows)).None?
      ensures !raised ==> rows == Walk(([], []), old(rows)).value.0
      ensures raised ==> exists i :: StoppedAt(old(rows), rows, i)
    {
      var hierarchy: seq<Name> := [];
      for i := 0 to |rows|
        invariant |rows| == |old(rows)| && forall j :: i <= j < |rows| ==> rows[j] == old(rows)[j]
        invariant Walk(([], []), old(rows)[..i]) == Some((rows[..i], hierarchy))
      {
        var row := rows[i];
        WalkOneMore(([], []), old(rows), i);
        if IsEnder(row) {
          if hierarchy == [] {
            assert StoppedAt(old(rows), rows, i);
            return true;
          }
          hierarchy := hierarchy[..|hierarchy| - 1];
        } else {
          var rowname := GetName(row);
          if rowname.Some? {
            rows := rows[i := WithPaths(row, rowname.value, hierarchy)];
            if IsBeginner(row) {
              hierarchy := hierarchy + [rowname.value];
            }
          }
        }
        assert rows[..i + 1] == rows[..i] + [rows[i]];
      }
      assert old(rows)[..|rows|] == old(rows) && rows[..|rows|] == rows;
      raised := false;
    }
  }

  /** The name that the paths are made of: the one of the row, even if that is null; else the
      automatic one; a row that has neither, or a null one, is left as it is. */
  lemma NameOfOneRow(r: Row)
    requires !r.rowType.Begin? && !r.rowType.End?
    ensures forall x :: r.name == Some(Some(x)) ==>
                          Walk(([], []), [r]) == Some(([r.(qpath := Some(x), xpath := Some(x))], []))
    ensures r.name == Some(None) ==> Walk(([], []), [r]) == Some(([r], []))
    ensures forall x :: r.name == None && r.autoname == Some(Some(x)) ==>
                          Walk(([], []), [r]) == Some(([r.(qpath := Some(x), xpath := Some(x))], []))
    ensures r.name == None && (r.autoname == None || r.autoname == Some(None)) ==>
            Walk(([], []), [r]) == Some(([r], []))
  {
    WalkOfOne(r);
    assert [] + [r] == [r];
    if GetName(r).Some? {
      var x := GetName(r).value;
      assert [] + [x] == [x];
      assert [] + [WithPaths(r, x, [])] == [r.(qpath := Some(x), xpath := Some(x))];
    }
  }

  lemma WalkOfOne(r: Row)
    ensures Walk(([], []), [r]) == NextRow(([], []), r)
  {
    assert [r][1..] == [];
  }

  /** Groups, repeats and scores are part of the paths of what they hold, rank and matrix rows are not;
      the same goes for what an end row closes. */
  lemma QuestionInAndAfterGroup(p: (seq<Row>, seq<Name>), g: Row, r: Row, e: Row, x: Name, y: Name)
    requires g.rowType.Begin? && e.rowType == End(g.rowType.kind) && !r.rowType.Begin? && !r.rowType.End?
    requires g.name == Some(Some(x)) && r.name == Some(Some(y)) && p.1 == []
    ensures var nested := g.rowType.kind == GroupRows || g.rowType.kind == RepeatRows || g.rowType.kind == ScoreRows;
            var inside := NextRow(NextRow(p, g).value, r);
            && NextRow(p, g).Some? && inside.Some?
            && inside.value.0[|p.0|..] ==
               [g.(qpath := Some(x), xpath := Some(x)),
                r.(qpath := Some(if nested then x + "-" + y else y), xpath := Some(if nested then x + "/" + y else y))]
            && (e.name == None && e.autoname == None ==>
                  NextRow(inside.value, e) == Some((inside.value.0 + [e], [])))
  {
    assert [] + [x] == [x] && [] + [y] == [y] && [x] + [y] == [x, y] && [x, y][1..] == [y];
    assert Join("/", [x, y]) == x + "/" + y && Join("-", [x, y]) == x + "-" + y;
  }

  /** The walk writes paths and nothing else. */
  lemma {:induction false} WalkWritesPathsOnly(p: (seq<Row>, seq<Name>), rows: seq<Row>)
    requires Walk(p, rows).Some?
    ensures var written := Walk(p, rows).value.0;
            && |written| == |p.0| + |rows| && written[..|p.0|] == p.0
            && forall i :: 0 <= i < |rows| ==>
                             var w := written[|p.0| + i];
                             w.(qpath := None, xpath := None) == rows[i].(qpath := None, xpath := None)
    decreases rows
  {
    if rows != [] {
      var p2 := NextRow(p, rows[0]).value;
      WalkWritesPathsOnly(p2, rows[1..]);
      var written := Walk(p, rows).value.0;
      forall i | 0 <= i < |rows|
        ensures written[|p.0| + i].(qpath := None, xpath := None) == rows[i].(qpath := None, xpath := None)
      {
        if i == 0 {
          assert written[..|p2.0|][|p.0|] == p2.0[|p.0|];
        } else {
          assert rows[1..][i - 1] == rows[i] && written[|p2.0| + (i - 1)] == written[|p.0| + i];
        }
      }
      assert written[..|p.0|] == written[..|p2.0|][..|p.0|];
    }
  }

  // ---- Well-nested surveys ----

  /** A survey as a tree: single rows, and groups with their first and last row. */
  datatype Item = Leaf(row: Row) | Group(first: Row, items: seq<Item>, last: Row)

  function Flatten(items: seq<Item>): seq<Row> {
    if items == [] then [] else FlattenItem(items[0]) + Flatten(items[1..])
  }

  function FlattenItem(item: Item): seq<Row> {
    match item
    case Leaf(row) => [row]
    case Group(first, items, last) => [first] + Flatten(items) + [last]
  }

  /** Groups begin and end with hierarchy rows and are named; other rows are neither. */
  predicate WellNested(items: seq<Item>) {
    forall i :: 0 <= i < |items| ==> WellNestedItem(items[i])
  }

  predicate WellNestedItem(item: Item) {
    match item
    case Leaf(row) => !IsBeginner(row) && !IsEnder(row)
    case Group(first, items, last) => IsBeginner(first) && IsEnder(last) && GetName(first).Some? && WellNested(items)
  }

  /** The intended paths, by the structure of the tree: a row inside groups is given
      their names followed by its own; a row without a name is given none. */
  function Located(items: seq<Item>, parentNames: seq<Name>): seq<Item> {
    if items == [] then [] else [LocatedItem(items[0], parentNames)] + Located(items[1..], parentNames)
  }

  function LocatedRow(r: Row, parentNames: seq<Name>): Row {
    match GetName(r)
    case None => r
    case Some(name) => WithPaths(r, name, parentNames)
  }

  function LocatedItem(item: Item, parentNames: seq<Name>): Item {
    match item
    case Leaf(row) => Leaf(LocatedRow(row, parentNames))
    case Group(first, items, last) =>
      var name := if GetName(first).Some? then GetName(first).value else "";
      Group(LocatedRow(first, parentNames), Located(items, parentNames + [name]), last)
  }

  lemma {:induction false} WalkFollowsTree(rows: seq<Row>, hierarchy: seq<Name>, items: seq<Item>)
    requires WellNested(items)
    ensures Walk((rows, hierarchy), Flatten(items)) == Some((rows + Flatten(Located(items, hierarchy)), hierarchy))
    decreases items
  {
    if items == [] {
      assert rows + [] == rows;
    } else {
      var located := FlattenItem(LocatedItem(items[0], hierarchy));
      WalkFollowsItem(rows, hierarchy, items[0]);
      WalkFollowsTree(rows + located, hierarchy, items[1..]);
      WalkConcat((rows, hierarchy), FlattenItem(items[0]), Flatten(items[1..]));
      assert rows + located + Flatten(Located(items[1..], hierarchy)) ==
             rows + (located + Flatten(Located(items[1..], hierarchy)));
    }
  }

  lemma {:induction false} WalkFollowsItem(rows: seq<Row>, hierarchy: seq<Name>, item: Item)
    requires WellNestedItem(item)
    ensures Walk((rows, hierarchy), FlattenItem(item)) ==
            Some((rows + FlattenItem(LocatedItem(item, hierarchy)), hierarchy))
    decreases item
  {
    match item {
      case Leaf(row) =>
        assert Walk((rows, hierarchy), [row]) == NextRow((rows, hierarchy), row);
      case Group(first, items, last) =>
        var name := GetName(first).value;
        var inner := Flatten(Located(items, hierarchy + [name]));
        var p1 := (rows + [WithPaths(first, name, hierarchy)], hierarchy + [name]);
        WalkConcat((rows, hierarchy), [first] + Flatten(items), [last]);
        WalkConcat((rows, hierarchy), [first], Flatten(items));
        assert Walk((rows, hierarchy), [first]) == Some(p1);
        WalkFollowsTree(p1.0, p1.1, items);
        var p2 := (p1.0 + inner, p1.1);
        assert Walk(p2, [last]) == NextRow(p2, last);
        assert p1.1[..|p1.1| - 1] == hierarchy;
        assert rows + ([WithPaths(first, name, hierarchy)] + inner + [last]) == p2.0 + [last];
    }
  }

  /** On a well-nested survey the loop never pops an empty stack, ends with it empty, and gives
      each row the path that the tree gives it. */
  lemma WalkIsByTree(items: seq<Item>)
    requires WellNested(items)
    ensures Walk(([], []), Flatten(items)) == Some((Flatten(Located(items, [])), []))
  {
    WalkFollowsTree([], [], items);
    assert [] + Flatten(Located(items, [])) == Flatten(Located(items, []));
  }

  // ---- Distinct paths ----

  predicate SlashFree(name: Name) {
    '/' !in name
  }

  function ItemName(item: Item): Option<Name> {
    GetName(if item.Leaf? then item.row else item.first)
  }

  /** Named siblings have different names, free of slashes, at every level. */
  predicate WellNamed(items: seq<Item>) {
    && (forall i, j :: 0 <= i < j < |items| && ItemName(items[i]).Some? ==> ItemName(items[i]) != ItemName(items[j]))
    && forall i :: 0 <= i < |items| ==>
                     && (ItemName(items[i]).Some? ==> SlashFree(ItemName(items[i]).value))
                     && (items[i].Group? ==> WellNamed(items[i].items))
  }

  /** The names leading to each named row, in the order of the rows. */
  function NamePaths(items: seq<Item>, parentNames: seq<Name>): seq<seq<Name>> {
    if items == [] then [] else NamePathsOf(items[0], parentNames) + NamePaths(items[1..], parentNames)
  }

  function NamePathsOf(item: Item, parentNames: seq<Name>): seq<seq<Name>> {
    match item
    case Leaf(row) => if GetName(row).Some? then [parentNames + [GetName(row).value]] else []
    case Group(first, items, _) =>
      if GetName(first).None? then []
      else
        var path := parentNames + [GetName(first).value];
        [path] + NamePaths(items, path)
  }

  /** The `$qpath`s or the `$xpath`s of the named rows; rows that end a group have none of their own. */
  function Paths(rows: seq<Row>, q: bool): seq<Option<string>> {
    if rows == [] then []
    else
      (if GetName(rows[0]).Some? && !IsEnder(rows[0]) then [if q then rows[0].qpath else rows[0].xpath] else [])
      + Paths(rows[1..], q)
  }

  function Joined(paths: seq<seq<Name>>, q: bool): seq<Option<string>> {
    seq(|paths|, i requires 0 <= i < |paths| => Some(Join(if q then "-" else "/", paths[i])))
  }

  lemma {:induction false} PathsConcat(a: seq<Row>, b: seq<Row>, q: bool)
    ensures Paths(a + b, q) == Paths(a, q) + Paths(b, q)
    decreases a
  {
    if a == [] {
      assert a + b == b;
    } else {
      assert (a + b)[1..] == a[1..] + b;
      PathsConcat(a[1..], b, q);
    }
  }

  lemma LocatedConcat(items: seq<Item>, parentNames: seq<Name>)
    requires items != []
    ensures Flatten(Located(items, parentNames)) ==
            FlattenItem(LocatedItem(items[0], parentNames)) + Flatten(Located(items[1..], parentNames))
  {
    var rest := Located(items[1..], parentNames);
    assert ([LocatedItem(items[0], parentNames)] + rest)[1..] == rest;
  }

  lemma PathsOfGroup(first: Row, inner: seq<Row>, last: Row, q: bool)
    requires GetName(first).Some? && !IsEnder(first) && IsEnder(last)
    ensures Paths([first] + inner + [last], q) == [if q then first.qpath else first.xpath] + Paths(inner, q)
  {
    PathsConcat([first] + inner, [last], q);
    PathsConcat([first], inner, q);
    assert Paths([last], q) == [] && Paths([first], q) == [if q then first.qpath else first.xpath];
  }

  lemma JoinedConcat(a: seq<seq<Name>>, b: seq<seq<Name>>, q: bool)
    ensures Joined(a + b, q) == Joined(a, q) + Joined(b, q)
  {
  }

  lemma {:induction false} PathsAreJoined(items: seq<Item>, parentNames: seq<Name>, q: bool)
    requires WellNested(items)
    ensures Paths(Flatten(Located(items, parentNames)), q) == Joined(NamePaths(items, parentNames), q)
    decreases items
  {
    if items == [] {
    } else {
      PathsAreJoinedOf(items[0], parentNames, q);
      PathsAreJoined(items[1..], parentNames, q);
      LocatedConcat(items, parentNames);
      PathsConcat(FlattenItem(LocatedItem(items[0], parentNames)), Flatten(Located(items[1..], parentNames)), q);
      JoinedConcat(NamePathsOf(items[0], parentNames), NamePaths(items[1..], parentNames), q);
    }
  }

  lemma {:induction false} PathsAreJoinedOf(item: Item, parentNames: seq<Name>, q: bool)
    requires WellNestedItem(item)
    ensures Paths(FlattenItem(LocatedItem(item, parentNames)), q) == Joined(NamePathsOf(item, parentNames), q)
    decreases item
  {
    match item {
      case Leaf(row) =>
      case Group(first, items, last) =>
        var path := parentNames + [GetName(first).value];
        PathsAreJoined(items, path, q);
        PathsOfGroup(LocatedRow(first, parentNames), Flatten(Located(items, path)), last, q);
        JoinedConcat([path], NamePaths(items, path), q);
        assert Joined([path], q) == [Some(Join(if q then "-" else "/", path))];
    }
  }

  /** So the walk gives each named row its place in the tree, quick path and path alike: the names of the
      groups around it and its own, joined. */
  lemma WrittenPathsAreJoined(items: seq<Item>, q: bool)
    requires WellNested(items)
    ensures Walk(([], []), Flatten(items)).Some?
    ensures Paths(Walk(([], []), Flatten(items)).value.0, q) == Joined(NamePaths(items, []), q)
  {
    WalkIsByTree(items);
    PathsAreJoined(items, [], q);
  }

  /** Every path below an item starts with the names above it and its own. */
  lemma {:induction false} PathsStartWith(items: seq<Item>, parentNames: seq<Name>, p: seq<Name>)
    requires p in NamePaths(items, parentNames)
    ensures exists i :: 0 <= i < |items| && ItemName(items[i]).Some? && parentNames + [ItemName(items[i]).value] <= p
    decreases items
  {
    if p in NamePathsOf(items[0], parentNames) {
      PathsStartWithItem(items[0], parentNames, p);
    } else {
      PathsStartWith(items[1..], parentNames, p);
      var i :| 0 <= i < |items[1..]| && ItemName(items[1..][i]).Some? &&
               parentNames + [ItemName(items[1..][i]).value] <= p;
      assert items[i + 1] == items[1..][i];
    }
  }

  lemma {:induction false} PathsStartWithItem(item: Item, parentNames: seq<Name>, p: seq<Name>)
    requires p in NamePathsOf(item, parentNames)
    ensures ItemName(item).Some? && parentNames + [ItemName(item).value] <= p
    decreases item
  {
    match item {
      case Leaf(row) =>
      case Group(first, items, last) =>
        var path := parentNames + [GetName(first).value];
        if p != path {
          PathsStartWith(items, path, p);
        }
    }
  }

  lemma DistinctConcat<T>(a: seq<T>, b: seq<T>)
    requires Distinct(a) && Distinct(b) && forall x :: x in a ==> x !in b
    ensures Distinct(a + b)
  {
    forall i, j | 0 <= i < j < |a + b| ensures (a + b)[i] != (a + b)[j] {
      if i < |a| <= j {
        assert a[i] in a && b[j - |a|] in b;
      }
    }
  }

  lemma {:induction false} PathsAreDistinct(items: seq<Item>, parentNames: seq<Name>)
    requires WellNamed(items)
    ensures Distinct(NamePaths(items, parentNames))
    decreases items
  {
    if items == [] {
    } else {
      var here, there := NamePathsOf(items[0], parentNames), NamePaths(items[1..], parentNames);
      assert WellNamed(items[1..]) by {
        assert forall i :: 0 <= i < |items[1..]| ==> items[1..][i] == items[i + 1];
      }
      PathsAreDistinct(items[1..], parentNames);
      PathsAreDistinctOf(items[0], parentNames);
      forall p | p in there ensures p !in here {
        PathsStartWith(items[1..], parentNames, p);
        var i :| 0 <= i < |items[1..]| && ItemName(items[1..][i]).Some? &&
                 parentNames + [ItemName(items[1..][i]).value] <= p;
        assert ItemName(items[0]) != ItemName(items[i + 1]) == Some(p[|parentNames|]);
        if p in here {
          PathsStartWithItem(items[0], parentNames, p);
        }
      }
      DistinctConcat(here, there);
    }
  }

  lemma {:induction false} PathsAreDistinctOf(item: Item, parentNames: seq<Name>)
    requires item.Group? ==> WellNamed(item.items)
    ensures Distinct(NamePathsOf(item, parentNames))
    decreases item
  {
    match item {
      case Leaf(row) =>
      case Group(first, items, last) =>
        if GetName(first).Some? {
          var path := parentNames + [GetName(first).value];
          PathsAreDistinct(items, path);
          forall p | p in NamePaths(items, path) ensures p != path {
            PathsStartWith(items, path, p);
          }
          DistinctConcat([path], NamePaths(items, path));
        }
    }
  }

  predicate AllSlashFree(names: seq<Name>) {
    forall i :: 0 <= i < |names| ==> SlashFree(names[i])
  }

  /** Slash-free names can be read back from a joined path. */
  lemma {:induction false} JoinIsInjective(a: seq<Name>, b: seq<Name>)
    requires a != [] && b != [] && AllSlashFree(a) && AllSlashFree(b) && Join("/", a) == Join("/", b)
    ensures a == b
    decreases a
  {
    var s := Join("/", a);
    assert |a| > 1 ==> s == a[0] + "/" + Join("/", a[1..]);
    assert |b| > 1 ==> s == b[0] + "/" + Join("/", b[1..]);
    if |a| > 1 {
      assert s[|a[0]|] == '/';
    }
    if |b| > 1 {
      assert s[|b[0]|] == '/';
    }
    if |a| > 1 && |b| > 1 {
      assert |a[0]| == |b[0]| by {
        assert forall k :: 0 <= k < |a[0]| ==> s[k] == a[0][k] && a[0][k] != '/';
        assert forall k :: 0 <= k < |b[0]| ==> s[k] == b[0][k] && b[0][k] != '/';
      }
      assert a[0] == s[..|a[0]|] == b[0];
      assert Join("/", a[1..]) == s[|a[0]| + 1..] == Join("/", b[1..]);
      JoinIsInjective(a[1..], b[1..]);
      assert a == [a[0]] + a[1..] && b == [b[0]] + b[1..];
    }
  }

  lemma {:induction false} PathsAreSlashFree(items: seq<Item>, parentNames: seq<Name>, p: seq<Name>)
    requires WellNamed(items) && AllSlashFree(parentNames) && p in NamePaths(items, parentNames)
    ensures p != [] && AllSlashFree(p)
    decreases items
  {
    if p in NamePathsOf(items[0], parentNames) {
      match items[0] {
        case Leaf(row) =>
        case Group(first, inner, last) =>
          var path := parentNames + [GetName(first).value];
          if p != path {
            PathsAreSlashFree(inner, path, p);
          }
      }
    } else {
      assert forall i :: 0 <= i < |items[1..]| ==> items[1..][i] == items[i + 1];
      PathsAreSlashFree(items[1..], parentNames, p);
    }
  }

  /** In a well-nested survey whose named siblings have different names free of slashes,
      no two named rows of the whole survey are given the same `$xpath`. */
  lemma XpathsAreDistinct(items: seq<Item>)
    requires WellNested(items) && WellNamed(items)
    ensures Walk(([], []), Flatten(items)).Some?
    ensures Distinct(Paths(Walk(([], []), Flatten(items)).value.0, false))
  {
    WalkIsByTree(items);
    PathsAreJoined(items, [], false);
    PathsAreDistinct(items, []);
    var paths := NamePaths(items, []);
    forall i, j | 0 <= i < j < |paths| ensures Join("/", paths[i]) != Join("/", paths[j]) {
      PathsAreSlashFree(items, [], paths[i]);
      PathsAreSlashFree(items, [], paths[j]);
      if Join("/", paths[i]) == Join("/", paths[j]) {
        JoinIsInjective(paths[i], paths[j]);
      }
    }
  }
}
