/** The list of languages of a form, and the translated columns whose every cell is a list parallel to it. */
module Translations {
  import opened Wrappers
  import opened Sequences

  /** A language; the unnamed one is None. */
  type Lang = Option<string>

  datatype Column = Column(name: string)

  /** One translation of a cell; it may be missing. */
  type Text = Option<string>

  type Cell = seq<Text>
  type Row = map<Column, Cell>

  /** ValueError, the KeyError of a row that lacks a translated column,
      and the IndexError of a form without languages. */
  datatype TranslationError = BadTranslation | MissingColumn | NothingThere

  /** pop(k), then insert(0, …). */
  function MovedToFront<T>(s: seq<T>, k: nat): seq<T>
    requires k < |s|
  {
    [s[k]] + s[..k] + s[k + 1..]
  }

  method PopAndInsert<T>(l: seq<T>, k: nat) returns (r: seq<T>)
    requires k < |l|
    ensures r == MovedToFront(l, k)
  {
    var val := l[k];
    r := l[..k] + l[k + 1..];
    r := [val] + r;
  }

  function IndexOf<T(==)>(s: seq<T>, x: T): (k: nat)
    requires x in s
    ensures k < |s| && s[k] == x && x !in s[..k]
  {
    if s[0] == x then 0 else 1 + IndexOf(s[1..], x)
  }

  /** `'{}'.format(value)`: a missing text becomes the word None. */
  function Formatted(x: Text): Text {
    if x == None then Some("None") else x
  }

  function MovedRow(row: Row, columns: seq<Column>, k: nat): Row
    requires forall c :: c in columns && c in row ==> k < |row[c]|
  {
    map c | c in row :: if c in columns then MovedToFront(row[c], k) else row[c]
  }

  function PrependedRow(row: Row, columns: seq<Column>): Row
    requires forall c :: c in columns && c in row ==> row[c] != []
  {
    map c | c in row :: if c in columns then [Formatted(row[c][0])] + row[c] else row[c]
  }

  function ShortenedRow(row: Row, columns: seq<Column>): Row
    requires forall c :: c in columns && c in row ==> row[c] != []
  {
    map c | c in row :: if c in columns then row[c][..|row[c]| - 1] else row[c]
  }

  /** One column further. */
  lemma MovedRowNext(row: Row, columns: seq<Column>, col: Column, k: nat)
    requires col !in columns && forall c :: c in columns + [col] && c in row ==> k < |row[c]|
    ensures forall c :: c in columns && c in row ==> k < |row[c]|
    ensures var r := MovedRow(row, columns, k);
            && (col in r <==> col in row) && (col in row ==> r[col] == row[col])
            && MovedRow(row, columns + [col], k) == if col in row then r[col := MovedToFront(row[col], k)] else r
  {
    assert forall c :: c in columns + [col] <==> c in columns || c == col;
  }

  lemma PrependedRowNext(row: Row, columns: seq<Column>, col: Column)
    requires col !in columns && forall c :: c in columns + [col] && c in row ==> row[c] != []
    ensures forall c :: c in columns && c in row ==> row[c] != []
    ensures var r := PrependedRow(row, columns);
            && (col in r <==> col in row)
            && (col in row ==>
                  r[col] == row[col] &&
                  PrependedRow(row, columns + [col]) == r[col := [Formatted(row[col][0])] + row[col]])
  {
    assert forall c :: c in columns + [col] <==> c in columns || c == col;
  }

  lemma ShortenedRowNext(row: Row, columns: seq<Column>, col: Column)
    requires col !in columns && forall c :: c in columns + [col] && c in row ==> row[c] != []
    ensures forall c :: c in columns && c in row ==> row[c] != []
    ensures var r := ShortenedRow(row, columns);
            && (col in r <==> col in row)
            && (col in row ==>
                  r[col] == row[col] &&
                  ShortenedRow(row, columns + [col]) == r[col := row[col][..|row[col]| - 1]])
  {
    assert forall c :: c in columns + [col] <==> c in columns || c == col;
  }

  /** Every translated cell of the later row is that of the earlier one after a copy of its
      first text, which, if it is missing, becomes a word; the other cells are as they were. */
  predicate CopiesFirst(row1: Row, row2: Row, columns: seq<Column>) {
    && row2.Keys == row1.Keys
    && forall c :: c in row1 ==>
                     if c in columns
                     then |row1[c]| > 0 &&
                          row2[c] == (if row1[c][0].Some? then [row1[c][0]] else [Some("None")]) + row1[c]
                     else row2[c] == row1[c]
  }

  lemma PrependedCopiesFirst(row: Row, columns: seq<Column>)
    requires forall c :: c in columns && c in row ==> row[c] != []
    ensures CopiesFirst(row, PrependedRow(row, columns), columns)
  {}

  predicate RowAligned(row: Row, columns: seq<Column>, n: nat) {
    forall c :: c in columns && c in row ==> |row[c]| == n
  }

  predicate RowComplete(row: Row, columns: seq<Column>) {
    forall c :: c in columns ==> c in row
  }

  /** The loop over the translated columns of one row, moving a text to the front. */
  method MoveTexts(was: Row, columns: seq<Column>, k: nat) returns (row: Row)
    requires Distinct(columns) && forall c :: c in columns && c in was ==> k < |was[c]|
    ensures row == MovedRow(was, columns, k)
  {
    row := was;
    assert MovedRow(was, columns[..0], k) == was;
    for j := 0 to |columns|
      invariant row == MovedRow(was, columns[..j], k)
    {
      var col := columns[j];
      assert col !in columns[..j] && columns[..j + 1] == columns[..j] + [col];
      MovedRowNext(was, columns[..j], col, k);
      if col in row {
        var cell := PopAndInsert(row[col], k);
        row := row[col := cell];
      }
    }
    assert columns[..|columns|] == columns;
  }

  predicate HasTexts(row: Row, columns: seq<Column>) {
    forall c :: c in columns && c in row ==> row[c] != []
  }

  /** A row with a text more in front of the given columns, or one less at their end. */
  function ChangedRow(row: Row, columns: seq<Column>, shorten: bool): Row
    requires HasTexts(row, columns)
  {
    if shorten then ShortenedRow(row, columns) else PrependedRow(row, columns)
  }

  /** The loop over the columns met one that the row lacks: the columns before it are changed. */
  predicate StoppedAtColumn(was: Row, row: Row, columns: seq<Column>, shorten: bool, k: nat) {
    && k < |columns| && columns[k] !in was && RowComplete(was, columns[..k])
    && HasTexts(was, columns[..k]) && row == ChangedRow(was, columns[..k], shorten)
  }

  predicate StoppedInRow(was: Row, row: Row, columns: seq<Column>, shorten: bool) {
    exists k :: 0 <= k < |columns| && StoppedAtColumn(was, row, columns, shorten, k)
  }

  /** The loop over the rows stopped in row i: the rows before it are changed, those after it are as they were. */
  predicate StoppedAtRow(before: seq<Row>, after: seq<Row>, columns: seq<Column>, shorten: bool, i: nat) {
    && i < |before| == |after| && StoppedInRow(before[i], after[i], columns, shorten)
    && (forall j :: 0 <= j < i ==> RowComplete(before[j], columns) && HasTexts(before[j], columns) &&
                                   after[j] == ChangedRow(before[j], columns, shorten))
    && forall j :: i < j < |before| ==> after[j] == before[j]
  }

  predicate Stopped(before: seq<Row>, after: seq<Row>, columns: seq<Column>, shorten: bool) {
    exists i :: 0 <= i < |before| && StoppedAtRow(before, after, columns, shorten, i)
  }

  /** The loop over the translated columns of one row, repeating the first text in front. */
  method PrependTexts(was: Row, columns: seq<Column>) returns (row: Row, raised: Option<TranslationError>)
    requires Distinct(columns) && forall c :: c in columns && c in was ==> was[c] != []
    ensures raised == (if RowComplete(was, columns) then None else Some(MissingColumn))
    ensures raised.None? ==> row == PrependedRow(was, columns)
    ensures raised.Some? ==> StoppedInRow(was, row, columns, false)
  {
    row := was;
    assert PrependedRow(was, columns[..0]) == was;
    for j := 0 to |columns|
      invariant RowComplete(was, columns[..j]) && row == PrependedRow(was, columns[..j])
    {
      var col := columns[j];
      assert col !in columns[..j] && columns[..j + 1] == columns[..j] + [col];
      PrependedRowNext(was, columns[..j], col);
      if col !in row {
        assert StoppedAtColumn(was, row, columns, false, j);
        return row, Some(MissingColumn);
      }
      row := row[col := [Formatted(row[col][0])] + row[col]];
    }
    assert columns[..|columns|] == columns;
    raised := None;
  }

  /** The loop over the translated columns of one row, dropping the last text. */
  method ShortenTexts(was: Row, columns: seq<Column>) returns (row: Row, raised: Option<TranslationError>)
    requires Distinct(columns) && forall c :: c in columns && c in was ==> was[c] != []
    ensures raised == (if RowComplete(was, columns) then None else Some(MissingColumn))
    ensures raised.None? ==> row == ShortenedRow(was, columns)
    ensures raised.Some? ==> StoppedInRow(was, row, columns, true)
  {
    row := was;
    assert ShortenedRow(was, columns[..0]) == was;
    for j := 0 to |columns|
      invariant RowComplete(was, columns[..j]) && row == ShortenedRow(was, columns[..j])
    {
      var col := columns[j];
      assert col !in columns[..j] && columns[..j + 1] == columns[..j] + [col];
      ShortenedRowNext(was, columns[..j], col);
      if col !in row {
        assert StoppedAtColumn(was, row, columns, true, j);
        return row, Some(MissingColumn);
      }
      row := row[col := row[col][..|row[col]| - 1]];
    }
    assert columns[..|columns|] == columns;
    raised := None;
  }

  lemma AllInMore(names: seq<Lang>, i: nat, ts: seq<Lang>)
    requires i < |names|
    ensures AllIn(names, i, ts) <==> names[i] in ts && AllIn(names, i + 1, ts)
  {
  }

  /** A form in one unnamed language. */
  predicate IsUnnamed(ts: seq<Lang>) {
    ts == [None]
  }

  /** The names from position i on are there. */
  predicate AllIn(names: seq<Lang>, i: nat, ts: seq<Lang>) {
    forall j :: i <= j < |names| ==> names[j] in ts
  }

  /** The content of a form: its languages, the columns that are translated,
      and the rows of the survey followed by those of the choices. */
  class Content {
    var translations: seq<Lang>
    const translated: seq<Column>
    var rows: seq<Row>

    constructor (translations: seq<Lang>, translated: seq<Column>, rows: seq<Row>)
      ensures this.translations == translations && this.translated == translated && this.rows == rows
    {
      this.translations, this.translated, this.rows := translations, translated, rows;
    }

    /** Every translated cell has one text for each language. */
    predicate Aligned()
      reads this
    {
      Distinct(translated) && forall i :: 0 <= i < |rows| ==> RowAligned(rows[i], translated, |translations|)
    }

    predicate NoCells()
      reads this`rows
    {
      rows == [] || translated == []
    }

    predicate Complete()
      reads this
    {
      forall i :: 0 <= i < |rows| ==> RowComplete(rows[i], translated)
    }

    /** Moves the texts of one row; a row without the column is passed over. */
    method MoveInRow(i: nat, k: nat)
      requires i < |rows| && Distinct(translated) && forall c :: c in translated && c in rows[i] ==> k < |rows[i][c]|
      modifies this`rows
      ensures rows == old(rows)[i := MovedRow(old(rows)[i], translated, k)]
    {
      var row := MoveTexts(rows[i], translated, k);
      rows := rows[i := row];
    }

    /** Gives one row a text for a new first language; it raises on a column the row lacks. */
    method PrependInRow(i: nat) returns (raised: Option<TranslationError>)
      requires i < |rows| && Distinct(translated) && forall c :: c in translated && c in rows[i] ==> rows[i][c] != []
      modifies this`rows
      ensures raised == (if RowComplete(old(rows)[i], translated) then None else Some(MissingColumn))
      ensures raised.None? ==> rows == old(rows)[i := PrependedRow(old(rows)[i], translated)]
      ensures raised.Some? ==>
                |rows| == |old(rows)| && rows == old(rows)[i := rows[i]] &&
                StoppedInRow(old(rows)[i], rows[i], translated, false)
    {
      var row;
      row, raised := PrependTexts(rows[i], translated);
      rows := rows[i := row];
    }

    method ShortenRow(i: nat) returns (raised: Option<TranslationError>)
      requires i < |rows| && Distinct(translated) && forall c :: c in translated && c in rows[i] ==> rows[i][c] != []
      modifies this`rows
      ensures raised == (if RowComplete(old(rows)[i], translated) then None else Some(MissingColumn))
      ensures raised.None? ==> rows == old(rows)[i := ShortenedRow(old(rows)[i], translated)]
      ensures raised.Some? ==>
                |rows| == |old(rows)| && rows == old(rows)[i := rows[i]] &&
                StoppedInRow(old(rows)[i], rows[i], translated, true)
    {
      var row;
      row, raised := ShortenTexts(rows[i], translated);
      rows := rows[i := row];
    }

    /** _prioritize_translation for a language that is there: moves it and its texts to the front. */
    method PrioritizeTranslation(name: Lang) returns (raised: Option<TranslationError>)
      requires Aligned()
      modifies this`rows, this`translations
      ensures Aligned()
      ensures raised == (if name in old(translations) || IsUnnamed(old(translations)) then None
                         else Some(BadTranslation))
      ensures if name in old(translations)
              then Moved(old(translations), old(rows), translated, translations, rows, IndexOf(old(translations), name))
              else translations == old(translations) && rows == old(rows)
    {
      if name !in translations {
        return if |translations| == 1 && translations[0] == None then None else Some(BadTranslation);
      }
      var tindex := IndexOf(translations, name);
      if tindex > 0 {
        ghost var before := rows;
        for i := 0 to |rows|
          invariant translations == old(translations) && |rows| == |before|
          invariant forall j :: i <= j < |rows| ==> rows[j] == before[j]
          invariant forall j :: 0 <= j < i ==> RowAligned(before[j], translated, |translations|) &&
                                               rows[j] == MovedRow(before[j], translated, tindex)
        {
          MoveInRow(i, tindex);
        }
        translations := PopAndInsert(translations, tindex);
      } else {
        MovingFirst(translations, rows, translated);
      }
      return None;
    }

    /** _prepend_translation: a new first language, with a copy of the text that was first. */
    method PrependTranslation(name: Lang) returns (raised: Option<TranslationError>)
      requires Aligned()
      modifies this`rows, this`translations
      ensures raised == (if name in old(translations) then Some(BadTranslation)
                         else if old(NoCells()) then None
                         else if old(translations) == [] then
                           Some(if translated[0] in old(rows)[0] then NothingThere else MissingColumn)
                         else if old(Complete()) then None else Some(MissingColumn))
      ensures raised.None? ==>
              Aligned() && Complete() && translations == [name] + old(translations) && |rows| == |old(rows)|
      ensures raised.None? ==> forall i :: 0 <= i < |rows| ==>
                                 && (forall c :: c in translated && c in old(rows)[i] ==> old(rows)[i][c] != [])
                                 && rows[i] == PrependedRow(old(rows)[i], translated)
      ensures raised.None? ==> forall i :: 0 <= i < |rows| ==> CopiesFirst(old(rows)[i], rows[i], translated)
      ensures raised.Some? ==> translations == old(translations)
      ensures raised.Some? ==>
                if raised.value == MissingColumn && old(translations) != [] then
                  Stopped(old(rows), rows, translated, false)
                else rows == old(rows)
    {
      if name in translations {
        return Some(BadTranslation);
      }
      if rows == [] || translated == [] {
        translations := [name] + translations;
        return None;
      }
      if translations == [] {
        // there is no text to copy into the first cell
        return Some(if translated[0] in rows[0] then NothingThere else MissingColumn);
      }
      ghost var before := rows;
      for i := 0 to |rows|
        invariant translations == old(translations) && |rows| == |before|
        invariant forall j :: i <= j < |rows| ==> rows[j] == before[j]
        invariant forall j :: 0 <= j < i ==>
                                RowComplete(before[j], translated) &&
                                RowAligned(before[j], translated, |translations|) &&
                                             rows[j] == PrependedRow(before[j], translated)
      {
        raised := PrependInRow(i);
        if raised.Some? {
          assert StoppedAtRow(before, rows, translated, false, i);
          return;
        }
      }
      forall i | 0 <= i < |rows| ensures CopiesFirst(before[i], rows[i], translated) {
        PrependedCopiesFirst(before[i], translated);
      }
      translations := [name] + translations;
      return None;
    }

    /** _remove_last_translation. */
    method RemoveLastTranslation() returns (raised: Option<TranslationError>)
      requires Aligned()
      modifies this`rows, this`translations
      ensures raised == if old(translations) == [] then Some(NothingThere)
                        else if old(Complete()) then None else Some(MissingColumn)
      ensures old(translations) != [] ==> translations == old(translations)[..|old(translations)| - 1]
      ensures raised.None? ==> Aligned() && |rows| == |old(rows)|
      ensures raised.None? ==> forall i :: 0 <= i < |rows| ==> rows[i] == ShortenedRow(old(rows)[i], translated)
      ensures raised == Some(MissingColumn) ==> Stopped(old(rows), rows, translated, true)
      ensures raised == Some(NothingThere) ==> rows == old(rows) && translations == old(translations)
    {
      if translations == [] {
        return Some(NothingThere);
      }
      ghost var n := |translations|;
      translations := translations[..|translations| - 1];
      ghost var before := rows;
      for i := 0 to |rows|
        invariant translations == old(translations)[..n - 1] && |rows| == |before|
        invariant forall j :: i <= j < |rows| ==> rows[j] == before[j]
        invariant forall j :: 0 <= j < i ==>
                                RowComplete(before[j], translated) && RowAligned(before[j], translated, n) &&
                                             rows[j] == ShortenedRow(before[j], translated)
      {
        assert RowAligned(before[i], translated, n);
        raised := ShortenRow(i);
        if raised.Some? {
          assert StoppedAtRow(before, rows, translated, true, i);
          return;
        }
      }
      return None;
    }

    /** _rename_translation. */
    method RenameTranslation(from: Lang, to: Lang) returns (raised: Option<TranslationError>)
      requires Aligned()
      modifies this`translations
      ensures Aligned()
      ensures raised == if to !in old(translations) && from in old(translations) then None else Some(BadTranslation)
      ensures translations == if raised.None? then old(translations)[IndexOf(old(translations), from) := to]
                              else old(translations)
      ensures Distinct(old(translations)) ==> Distinct(translations)
    {
      if to in translations || from !in translations {
        return Some(BadTranslation);
      }
      translations := translations[IndexOf(translations, from) := to];
      return None;
    }

    /** _make_default_translation_first, given the default language of the settings, if there is one. */
    method MakeDefaultTranslationFirst(defaultLanguage: Option<Lang>) returns (raised: Option<TranslationError>)
      requires Aligned()
      modifies this`rows, this`translations
      ensures Aligned()
      ensures raised == (if defaultLanguage.None? || defaultLanguage.value in old(translations) ||
                            IsUnnamed(old(translations))
                         then None else Some(BadTranslation))
      ensures raised.None? && defaultLanguage.Some? && !IsUnnamed(old(translations)) ==>
                translations != [] && translations[0] == defaultLanguage.value
      ensures defaultLanguage.None? || defaultLanguage.value !in old(translations) ==>
                translations == old(translations) && rows == old(rows)
      ensures KeepsTexts(old(translations), old(rows), translated, translations, rows)
    {
      KeepsTextsReflexive(translations, rows, translated);
      if defaultLanguage.None? {
        return None;
      }
      raised := PrioritizeTranslation(defaultLanguage.value);
      if defaultLanguage.value in old(translations) {
        MovedKeepsTexts(old(translations), old(rows), translated, translations, rows,
                        IndexOf(old(translations), defaultLanguage.value));
      }
    }

    /** _reorder_translations: prioritize the given languages, last one first. */
    method ReorderTranslations(names: seq<Lang>) returns (raised: Option<TranslationError>)
      requires Aligned()
      modifies this`rows, this`translations
      ensures Aligned()
      ensures KeepsTexts(old(translations), old(rows), translated, translations, rows)
      ensures raised == if IsUnnamed(old(translations)) || AllIn(names, 0, old(translations)) then None
                        else Some(BadTranslation)
      ensures raised.None? && !IsUnnamed(old(translations)) && Distinct(names) ==> names <= translations
      ensures raised.None? && !IsUnnamed(old(translations)) && Distinct(names) && |names| == |old(translations)| ==>
              translations == names
    {
      KeepsTextsReflexive(translations, rows, translated);
      ghost var ts, rs := translations, rows;
      var i := |names|;
      while i > 0
        invariant 0 <= i <= |names| && Aligned()
        invariant KeepsTexts(ts, rs, translated, translations, rows)
        invariant IsUnnamed(ts) || AllIn(names, i, ts)
        invariant !IsUnnamed(ts) && Distinct(names) ==> names[i..] <= translations
      {
        i := i - 1;
        raised := PrioritizeNext(names, i, ts, rs);
        if raised.Some? {
          return;
        }
        AllInMore(names, i, ts);
      }
      KeepsTextsLanguages(ts, rs, translated, translations, rows);
      raised := None;
    }

    /** One round of that loop. */
    method PrioritizeNext(names: seq<Lang>, i: nat, ghost ts: seq<Lang>, ghost rs: seq<Row>)
      returns (raised: Option<TranslationError>)
      requires Aligned() && i < |names| && KeepsTexts(ts, rs, translated, translations, rows)
      modifies this`rows, this`translations
      ensures Aligned() && KeepsTexts(ts, rs, translated, translations, rows)
      ensures raised == if names[i] in ts || IsUnnamed(ts) then None else Some(BadTranslation)
      ensures raised.None? && !IsUnnamed(ts) && Distinct(names) && names[i + 1..] <= old(translations) ==>
              names[i..] <= translations
    {
      ghost var ts1, rs1 := translations, rows;
      KeepsTextsLanguages(ts, rs, translated, ts1, rs1);
      raised := PrioritizeTranslation(names[i]);
      if names[i] in ts1 {
        ghost var k := IndexOf(ts1, names[i]);
        MovedKeepsTexts(ts1, rs1, translated, translations, rows, k);
        KeepsTextsTransitive(ts, rs, translated, ts1, rs1, translations, rows);
        if Distinct(names) && names[i + 1..] <= ts1 {
          MovingExtendsPrefix(ts1, names, i);
        }
      } else if IsUnnamed(ts1) {
        OnlyUnnamed(ts, rs, translated, ts1, rs1);
      }
    }
  }

  lemma OnlyUnnamed(ts1: seq<Lang>, rows1: seq<Row>, columns: seq<Column>, ts2: seq<Lang>, rows2: seq<Row>)
    requires KeepsTexts(ts1, rows1, columns, ts2, rows2) && IsUnnamed(ts2)
    ensures IsUnnamed(ts1)
  {
    KeepsTextsLanguages(ts1, rows1, columns, ts2, rows2);
    assert ts1[0] in ts2;
  }

  /** The state after the language at k, and every translated cell, had their k-th element moved to the front. */
  ghost predicate Moved(ts1: seq<Lang>, rows1: seq<Row>, columns: seq<Column>, ts2: seq<Lang>, rows2: seq<Row>,
                        k: nat) {
    && k < |ts1| && ts2 == MovedToFront(ts1, k) && |rows2| == |rows1|
    && forall i :: 0 <= i < |rows1| ==>
                     RowAligned(rows1[i], columns, |ts1|) && rows2[i] == MovedRow(rows1[i], columns, k)
  }

  lemma MovingFirst(ts: seq<Lang>, rows: seq<Row>, columns: seq<Column>)
    requires ts != [] && forall i :: 0 <= i < |rows| ==> RowAligned(rows[i], columns, |ts|)
    ensures Moved(ts, rows, columns, ts, rows, 0)
  {
    assert ts == MovedToFront(ts, 0);
    forall i | 0 <= i < |rows| ensures rows[i] == MovedRow(rows[i], columns, 0) {
      forall c | c in rows[i] && c in columns ensures MovedToFront(rows[i][c], 0) == rows[i][c] {
      }
    }
  }

  /** Two orders of the same n positions: each undoes the other. */
  predicate Inverse(order: seq<nat>, back: seq<nat>, n: nat) {
    && |order| == |back| == n
    && forall i :: 0 <= i < n ==> order[i] < n && back[i] < n && back[order[i]] == i && order[back[i]] == i
  }

  function Reordered<T>(s: seq<T>, order: seq<nat>): seq<T>
    requires forall i :: 0 <= i < |order| ==> order[i] < |s|
  {
    seq(|order|, i requires 0 <= i < |order| => s[order[i]])
  }

  predicate RowReordered(row1: Row, row2: Row, columns: seq<Column>, order: seq<nat>) {
    && row1.Keys == row2.Keys
    && forall c :: c in row1 ==>
                     if c in columns
                     then |row1[c]| == |row2[c]| == |order| &&
                          forall i :: 0 <= i < |order| ==> order[i] < |order| && row2[c][i] == row1[c][order[i]]
                     else row2[c] == row1[c]
  }

  ghost predicate ReorderedBy(ts1: seq<Lang>, rows1: seq<Row>, columns: seq<Column>, ts2: seq<Lang>, rows2: seq<Row>,
                              order: seq<nat>, back: seq<nat>) {
    && Inverse(order, back, |ts1|)
    && |ts2| == |ts1| && (forall i :: 0 <= i < |ts1| ==> ts2[i] == ts1[order[i]])
    && |rows2| == |rows1| && forall i :: 0 <= i < |rows1| ==> RowReordered(rows1[i], rows2[i], columns, order)
  }

  /** One permutation carries the languages, and every translated cell of every row, from the first
      state to the second; columns that are not translated are as they were. */
  ghost predicate KeepsTexts(ts1: seq<Lang>, rows1: seq<Row>, columns: seq<Column>, ts2: seq<Lang>, rows2: seq<Row>) {
    exists order, back :: ReorderedBy(ts1, rows1, columns, ts2, rows2, order, back)
  }

  function UpTo(n: nat): seq<nat> {
    seq(n, i => i)
  }

  lemma KeepsTextsReflexive(ts: seq<Lang>, rows: seq<Row>, columns: seq<Column>)
    requires forall i :: 0 <= i < |rows| ==> RowAligned(rows[i], columns, |ts|)
    ensures KeepsTexts(ts, rows, columns, ts, rows)
  {
    assert ReorderedBy(ts, rows, columns, ts, rows, UpTo(|ts|), UpTo(|ts|));
  }

  function FrontOrder(n: nat, k: nat): seq<nat> {
    seq(n, i => if i == 0 then k else if 0 < i <= k then i - 1 else i)
  }

  function FrontBack(n: nat, k: nat): seq<nat> {
    seq(n, i => if i == k then 0 else if 0 <= i < k then i + 1 else i)
  }

  lemma MovedByOrder<T>(s: seq<T>, k: nat)
    requires k < |s|
    ensures |MovedToFront(s, k)| == |s|
    ensures forall i :: 0 <= i < |s| ==>
                          FrontOrder(|s|, k)[i] < |s| && MovedToFront(s, k)[i] == s[FrontOrder(|s|, k)[i]]
  {}

  lemma MovedRowIsReordered(row: Row, columns: seq<Column>, n: nat, k: nat)
    requires k < n && RowAligned(row, columns, n)
    ensures RowReordered(row, MovedRow(row, columns, k), columns, FrontOrder(n, k))
  {
    forall c | c in row && c in columns
      ensures |MovedToFront(row[c], k)| == n
      ensures forall i :: 0 <= i < n ==>
                            FrontOrder(n, k)[i] < n && MovedToFront(row[c], k)[i] == row[c][FrontOrder(n, k)[i]]
    {
      MovedByOrder(row[c], k);
    }
  }

  lemma MovedKeepsTexts(ts1: seq<Lang>, rows1: seq<Row>, columns: seq<Column>, ts2: seq<Lang>, rows2: seq<Row>, k: nat)
    requires Moved(ts1, rows1, columns, ts2, rows2, k)
    ensures KeepsTexts(ts1, rows1, columns, ts2, rows2)
  {
    var n := |ts1|;
    MovedByOrder(ts1, k);
    forall i | 0 <= i < |rows1| ensures RowReordered(rows1[i], rows2[i], columns, FrontOrder(n, k)) {
      MovedRowIsReordered(rows1[i], columns, n, k);
    }
    assert Inverse(FrontOrder(n, k), FrontBack(n, k), n);
    assert ReorderedBy(ts1, rows1, columns, ts2, rows2, FrontOrder(n, k), FrontBack(n, k));
  }

  lemma KeepsTextsTransitive(ts1: seq<Lang>, rows1: seq<Row>, columns: seq<Column>, ts2: seq<Lang>, rows2: seq<Row>,
                             ts3: seq<Lang>, rows3: seq<Row>)
    requires KeepsTexts(ts1, rows1, columns, ts2, rows2) && KeepsTexts(ts2, rows2, columns, ts3, rows3)
    ensures KeepsTexts(ts1, rows1, columns, ts3, rows3)
  {
    var o1, b1 :| ReorderedBy(ts1, rows1, columns, ts2, rows2, o1, b1);
    var o2, b2 :| ReorderedBy(ts2, rows2, columns, ts3, rows3, o2, b2);
    var order, back := Reordered(o1, o2), Reordered(b2, b1);
    forall i | 0 <= i < |rows1| ensures RowReordered(rows1[i], rows3[i], columns, order) {
      assert RowReordered(rows1[i], rows2[i], columns, o1) && RowReordered(rows2[i], rows3[i], columns, o2);
    }
    assert ReorderedBy(ts1, rows1, columns, ts3, rows3, order, back);
  }

  lemma KeepsTextsLanguages(ts1: seq<Lang>, rows1: seq<Row>, columns: seq<Column>, ts2: seq<Lang>, rows2: seq<Row>)
    requires KeepsTexts(ts1, rows1, columns, ts2, rows2)
    ensures |ts1| == |ts2| && forall x :: x in ts1 <==> x in ts2
  {
    var order, back :| ReorderedBy(ts1, rows1, columns, ts2, rows2, order, back);
    forall x | x in ts1 ensures x in ts2 {
      var i :| 0 <= i < |ts1| && ts1[i] == x;
      assert ts2[back[i]] == x;
    }
  }

  /** With distinct languages, the text of every row, column and language is the same in both states. */
  lemma TextIsKept(ts1: seq<Lang>, rows1: seq<Row>, columns: seq<Column>, ts2: seq<Lang>, rows2: seq<Row>,
                   i: nat, c: Column, x: Lang)
    requires KeepsTexts(ts1, rows1, columns, ts2, rows2) && Distinct(ts1)
    requires i < |rows1| && c in columns && c in rows1[i] && x in ts1
    ensures |rows1| == |rows2| && c in rows2[i] && x in ts2 && |rows1[i][c]| == |ts1| == |rows2[i][c]| == |ts2|
    ensures rows2[i][c][IndexOf(ts2, x)] == rows1[i][c][IndexOf(ts1, x)]
  {
    KeepsTextsLanguages(ts1, rows1, columns, ts2, rows2);
    var order, back :| ReorderedBy(ts1, rows1, columns, ts2, rows2, order, back);
    assert RowReordered(rows1[i], rows2[i], columns, order);
    assert ts1[order[IndexOf(ts2, x)]] == x;
  }

  lemma MovingExtendsPrefix(ts: seq<Lang>, names: seq<Lang>, i: nat)
    requires i < |names| && Distinct(names) && names[i + 1..] <= ts && names[i] in ts
    ensures names[i..] <= MovedToFront(ts, IndexOf(ts, names[i]))
  {
    var k, rest := IndexOf(ts, names[i]), names[i + 1..];
    assert forall j :: 0 <= j < |rest| ==> rest[j] == names[i + 1 + j];
    assert forall j :: 0 <= j < |rest| ==> ts[j] == rest[j];
    assert k >= |rest|;
    assert ts[..k][..|rest|] == ts[..|rest|] == rest;
    assert names[i..] == [names[i]] + rest;
  }

  lemma CellIsUndone(cell: Cell, prepended: Cell, reordered: Cell, order: seq<nat>)
    requires |prepended| == |cell| + 1 && prepended[1..] == cell && |reordered| == |order| == |cell| + 1
    requires forall j :: 0 <= j < |cell| ==> order[j] == j + 1
    requires forall j :: 0 <= j < |order| ==> order[j] < |order| && reordered[j] == prepended[order[j]]
    ensures reordered[..|cell|] == cell
  {
    assert forall j :: 0 <= j < |cell| ==> reordered[j] == prepended[1..][j];
  }

  /** One row of the round trip; the order of the languages is the old one, one further. */
  lemma RowIsUndone(row: Row, reordered: Row, columns: seq<Column>, n: nat, order: seq<nat>)
    requires |order| == n + 1 && (forall j :: 0 <= j < n ==> order[j] == j + 1)
    requires n > 0 && RowAligned(row, columns, n) && RowAligned(reordered, columns, n + 1)
    requires (forall j :: 0 <= j <= n ==> order[j] <= n) &&
             RowReordered(PrependedRow(row, columns), reordered, columns, order)
    ensures ShortenedRow(reordered, columns) == row
  {
    var shortened, prepended := ShortenedRow(reordered, columns), PrependedRow(row, columns);
    forall c | c in row && c in columns ensures shortened[c] == row[c] {
      CellIsUndone(row[c], prepended[c], reordered[c], order);
    }
    assert shortened.Keys == row.Keys;
  }

  /** Prepending a language, moving it to the end, and removing the last language
      gives every row back exactly, whatever the rows hold. */
  lemma PrependIsUndone(name: Lang, ts: seq<Lang>, columns: seq<Column>, rows: seq<Row>, prepended: seq<Row>,
                        reordered: seq<Row>, shortened: seq<Row>)
    requires ts != [] && Distinct([name] + ts) && |prepended| == |rows| && |reordered| == |shortened|
    requires forall i :: 0 <= i < |rows| ==>
                           RowAligned(rows[i], columns, |ts|) && prepended[i] == PrependedRow(rows[i], columns)
    requires KeepsTexts([name] + ts, prepended, columns, ts + [name], reordered)
    requires forall i :: 0 <= i < |reordered| ==> RowAligned(reordered[i], columns, |ts| + 1) &&
                                                  shortened[i] == ShortenedRow(reordered[i], columns)
    ensures shortened == rows
  {
    var ts1, ts2 := [name] + ts, ts + [name];
    var order, back :| ReorderedBy(ts1, prepended, columns, ts2, reordered, order, back);
    forall j | 0 <= j < |ts| ensures order[j] == j + 1 {
      assert ts1[order[j]] == ts2[j] == ts1[j + 1];
    }
    forall i | 0 <= i < |rows| ensures shortened[i] == rows[i] {
      assert RowReordered(prepended[i], reordered[i], columns, order);
      RowIsUndone(rows[i], reordered[i], columns, |ts|, order);
    }
  }
}
