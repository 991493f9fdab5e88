/** parseImportCSV: which column of a statement feeds which field of an import row. */
module ImportColumns {
  import opened Common
  import opened Text

  datatype ImportRow = ImportRow(date: string, description: string, amount: string, debit: string, credit: string,
                                 kind: string)

  /** What one read of the CSV reader yields before the end of the file. */
  datatype Line = Record(fields: seq<string>) | Malformed

  datatype CsvError = EmptyFile | Unparsable | NoDateColumn | NoAmountColumn

  const DATE: seq<string> := ["date", "transaction date", "posted date"]
  const DESCRIPTION: seq<string> := ["description", "merchant", "payee", "note"]
  const AMOUNT: seq<string> := ["amount"]
  const DEBIT: seq<string> := ["debit"]
  const CREDIT: seq<string> := ["credit"]
  const TYPE: seq<string> := ["type"]

  /** The alias lists in the order of ImportRow's fields. */
  const ALIASES: seq<seq<string>> := [DATE, DESCRIPTION, AMOUNT, DEBIT, CREDIT, TYPE]

  function NormalizeHeader(name: string, lib: Library): string {
    ToLower(TrimSpace(name), lib)
  }

  function Names(header: seq<string>, lib: Library): (r: seq<string>)
    ensures |r| == |header|
  {
    seq(|header|, i requires 0 <= i < |header| => NormalizeHeader(header[i], lib))
  }

  /** Blanks around a name do not matter, nor does the case of its letters. */
  lemma SpellingsOfName(pre: string, core: string, post: string, other: string, lib: Library)
    requires Blank(pre) && Blank(post) && Edged(core) && |other| == |core|
    requires forall i :: 0 <= i < |core| ==> lib.lower(core[i]) == lib.lower(other[i])
    ensures NormalizeHeader(pre + core + post, lib) == ToLower(other, lib)
  {
    TrimFinds(pre, core, post);
  }

  /** The map after the first n columns: a later column of the same name replaces an earlier one. */
  function ColumnIndex(names: seq<string>, n: nat): map<string, nat>
    requires n <= |names|
  {
    if n == 0 then map[] else ColumnIndex(names, n - 1)[names[n - 1] := n - 1]
  }

  function FindColumn(index: map<string, nat>, aliases: seq<string>): int {
    if aliases == [] then -1
    else if aliases[0] in index then index[aliases[0]]
    else FindColumn(index, aliases[1..])
  }

  /** A column the record lacks reads as empty. */
  function Field(record: seq<string>, idx: int): string {
    if idx < 0 || idx >= |record| then "" else record[idx]
  }

  function Column(names: seq<string>, aliases: seq<string>): int {
    FindColumn(ColumnIndex(names, |names|), aliases)
  }

  function RowOf(names: seq<string>, record: seq<string>): ImportRow {
    ImportRow(
      Field(record, Column(names, DATE)),
      Field(record, Column(names, DESCRIPTION)),
      Field(record, Column(names, AMOUNT)),
      Field(record, Column(names, DEBIT)),
      Field(record, Column(names, CREDIT)),
      Field(record, Column(names, TYPE)))
  }

  predicate Readable(lines: seq<Line>) {
    forall i :: 0 <= i < |lines| ==> lines[i].Record?
  }

  function RowsOf(names: seq<string>, lines: seq<Line>): (r: seq<ImportRow>)
    requires Readable(lines)
    ensures |r| == |lines|
  {
    seq(|lines|, i requires 0 <= i < |lines| => RowOf(names, lines[i].fields))
  }

  /** The complaint about a header, if any. */
  function HeaderError(names: seq<string>): Option<CsvError> {
    if Column(names, DATE) < 0 then Some(NoDateColumn)
    else if Column(names, AMOUNT) < 0 && Column(names, DEBIT) < 0 && Column(names, CREDIT) < 0 then Some(NoAmountColumn)
    else None
  }

  /** A file whose header was read. */
  function Parsed(header: seq<string>, lines: seq<Line>, lib: Library): Result<seq<ImportRow>, CsvError> {
    var names := Names(header, lib);
    if HeaderError(names).Some? then Err(HeaderError(names).value)
    else if Readable(lines) then Ok(RowsOf(names, lines))
    else Err(Unparsable)
  }

  method IndexColumns(header: seq<string>, lib: Library) returns (index: map<string, nat>)
    ensures index == ColumnIndex(Names(header, lib), |header|)
  {
    index := map[];
    for i := 0 to |header|
      invariant index == ColumnIndex(Names(header, lib), i)
    {
      index := index[NormalizeHeader(header[i], lib) := i];
    }
  }

  /** The record loop, given the column of each field. */
  method ReadRows(lines: seq<Line>, dateIdx: int, descIdx: int, amountIdx: int, debitIdx: int, creditIdx: int,
                  typeIdx: int, ghost names: seq<string>)
    returns (r: Result<seq<ImportRow>, CsvError>)
    requires dateIdx == Column(names, DATE) && descIdx == Column(names, DESCRIPTION)
        && amountIdx == Column(names, AMOUNT)
    requires debitIdx == Column(names, DEBIT) && creditIdx == Column(names, CREDIT) && typeIdx == Column(names, TYPE)
    ensures r == if Readable(lines) then Ok(RowsOf(names, lines)) else Err(Unparsable)
  {
    hide Column, Field;
    var rows: seq<ImportRow> := [];
    for i := 0 to |lines|
      invariant Readable(lines[..i])
      invariant rows == RowsOf(names, lines[..i])
    {
      if lines[i].Malformed? {
        return Err(Unparsable);
      }
      var record := lines[i].fields;
      rows := rows + [ImportRow(Field(record, dateIdx), Field(record, descIdx), Field(record, amountIdx),
                                Field(record, debitIdx), Field(record, creditIdx), Field(record, typeIdx))];
    }
    assert lines[..|lines|] == lines;
    r := Ok(rows);
  }

  method ParseImportCsv(file: seq<Line>, lib: Library) returns (r: Result<seq<ImportRow>, CsvError>)
    ensures r == if file == [] then Err(EmptyFile)
                 else if file[0].Malformed? then Err(Unparsable)
                 else Parsed(file[0].fields, file[1..], lib)
  {
    if file == [] {
      return Err(EmptyFile);
    }
    if file[0].Malformed? {
      return Err(Unparsable);
    }
    var index := IndexColumns(file[0].fields, lib);
    ghost var names := Names(file[0].fields, lib);
    hide Names, FindColumn, ColumnIndex;
    var dateIdx := FindColumn(index, DATE);
    if dateIdx < 0 {
      return Err(NoDateColumn);
    }
    var amountIdx := FindColumn(index, AMOUNT);
    var debitIdx := FindColumn(index, DEBIT);
    var creditIdx := FindColumn(index, CREDIT);
    if amountIdx < 0 && debitIdx < 0 && creditIdx < 0 {
      return Err(NoAmountColumn);
    }
    var descIdx := FindColumn(index, DESCRIPTION);
    var typeIdx := FindColumn(index, TYPE);
    r := ReadRows(file[1..], dateIdx, descIdx, amountIdx, debitIdx, creditIdx, typeIdx, names);
  }

  // ---------- What the column search finds ----------

  /** The first alias of the list that heads a column. */
  function Heading(names: seq<string>, aliases: seq<string>): Option<string> {
    if aliases == [] then None
    else if aliases[0] in names then Some(aliases[0])
    else Heading(names, aliases[1..])
  }

  ghost predicate LastAt(names: seq<string>, name: string, k: int) {
    0 <= k < |names| && names[k] == name && forall j :: k < j < |names| ==> names[j] != name
  }

  lemma {:induction false} ColumnIndexMeans(names: seq<string>, n: nat)
    requires n <= |names|
    ensures forall a :: a in ColumnIndex(names, n) <==> a in names[..n]
    ensures forall a :: a in names[..n] ==> LastAt(names[..n], a, ColumnIndex(names, n)[a])
  {
    if n > 0 {
      ColumnIndexMeans(names, n - 1);
      assert names[..n] == names[..n - 1] + [names[n - 1]];
    }
  }

  /** The search answers the last column under the first alias present, or -1. */
  lemma {:induction false} ColumnIsLastOfFirst(names: seq<string>, aliases: seq<string>)
    ensures match Heading(names, aliases)
            case None => Column(names, aliases) == -1
            case Some(a) => LastAt(names, a, Column(names, aliases))
  {
    if aliases != [] {
      ColumnIndexMeans(names, |names|);
      assert names[..|names|] == names;
      ColumnIsLastOfFirst(names, aliases[1..]);
    }
  }

  /** The cell under the last column of this name; empty when there is none, or the record ends before it. */
  ghost predicate ReadsFrom(names: seq<string>, record: seq<string>, name: string, cell: string) {
    && (name !in names ==> cell == "")
    && (forall k :: LastAt(names, name, k) ==> cell == if k < |record| then record[k] else "")
  }

  lemma OneNameReads(names: seq<string>, record: seq<string>, aliases: seq<string>)
    requires |aliases| == 1
    ensures ReadsFrom(names, record, aliases[0], Field(record, Column(names, aliases)))
    ensures Column(names, aliases) < 0 <==> aliases[0] !in names
  {
    hide Column;
    ColumnIsLastOfFirst(names, aliases);
    assert aliases[1..] == [];
    assert Heading(names, aliases) == if aliases[0] in names then Some(aliases[0]) else None;
    if aliases[0] in names {
      var k := Column(names, aliases);
      forall j | LastAt(names, aliases[0], j)
        ensures j == k
      {
      }
    }
  }

  /** Amount, debit, credit and type are each read under their own name and no other. */
  lemma FieldsReadTheirNames(names: seq<string>, record: seq<string>)
    ensures ReadsFrom(names, record, "amount", RowOf(names, record).amount)
    ensures ReadsFrom(names, record, "debit", RowOf(names, record).debit)
    ensures ReadsFrom(names, record, "credit", RowOf(names, record).credit)
    ensures ReadsFrom(names, record, "type", RowOf(names, record).kind)
  {
    OneNameReads(names, record, AMOUNT);
    OneNameReads(names, record, DEBIT);
    OneNameReads(names, record, CREDIT);
    OneNameReads(names, record, TYPE);
    hide Column, Field, ReadsFrom;
  }

  lemma FirstNameReads(names: seq<string>, record: seq<string>, aliases: seq<string>)
    ensures match Heading(names, aliases)
            case None => Field(record, Column(names, aliases)) == ""
            case Some(a) => ReadsFrom(names, record, a, Field(record, Column(names, aliases)))
  {
    hide Column;
    ColumnIsLastOfFirst(names, aliases);
    if Heading(names, aliases).Some? {
      HeadingIsName(names, aliases);
      var k := Column(names, aliases);
      forall j | LastAt(names, Heading(names, aliases).value, j)
        ensures j == k
      {
      }
    }
  }

  lemma {:induction false} HeadingIsName(names: seq<string>, aliases: seq<string>)
    ensures Heading(names, aliases).Some? ==> Heading(names, aliases).value in names
  {
    if aliases != [] {
      HeadingIsName(names, aliases[1..]);
    }
  }

  lemma HeadingStep(names: seq<string>, alias: string, rest: seq<string>)
    ensures Heading(names, [alias] + rest) == if alias in names then Some(alias) else Heading(names, rest)
  {
    assert ([alias] + rest)[1..] == rest;
  }

  /** The name the date is read under, and the description's. */
  lemma FirstNames(names: seq<string>)
    ensures Heading(names, DATE)
         == if "date" in names then Some("date")
            else if "transaction date" in names then Some("transaction date")
            else if "posted date" in names then Some("posted date") else None
    ensures Heading(names, DESCRIPTION)
         == if "description" in names then Some("description")
            else if "merchant" in names then Some("merchant")
            else if "payee" in names then Some("payee")
            else if "note" in names then Some("note") else None
  {
    assert Heading(names, []) == None;
    hide Heading;
    HeadingStep(names, "posted date", []);
    HeadingStep(names, "transaction date", ["posted date"]);
    HeadingStep(names, "date", ["transaction date", "posted date"]);
    HeadingStep(names, "note", []);
    HeadingStep(names, "payee", ["note"]);
    HeadingStep(names, "merchant", ["payee", "note"]);
    HeadingStep(names, "description", ["merchant", "payee", "note"]);
    assert DATE == ["date"] + ["transaction date", "posted date"];
    assert ["transaction date", "posted date"] == ["transaction date"] + ["posted date"];
    assert DESCRIPTION == ["description"] + ["merchant", "payee", "note"];
    assert ["merchant", "payee", "note"] == ["merchant"] + ["payee", "note"];
    assert ["payee", "note"] == ["payee"] + ["note"];
  }

  /** The date and the description are read under the first of their names that the header has. */
  lemma FieldsReadFirstNames(names: seq<string>, record: seq<string>)
    ensures var row := RowOf(names, record);
            var date := if "date" in names then "date"
                        else if "transaction date" in names then "transaction date" else "posted date";
            var description := if "description" in names then "description"
                               else if "merchant" in names then "merchant"
                               else if "payee" in names then "payee" else "note";
            && ReadsFrom(names, record, date, row.date)
            && ReadsFrom(names, record, description, row.description)
  {
    FirstNames(names);
    FirstNameReads(names, record, DATE);
    FirstNameReads(names, record, DESCRIPTION);
    hide Column, Field, Heading;
  }

  /** A header without a date column is refused for that, and else one without any amount column for this. */
  lemma HeaderComplaints(names: seq<string>)
    ensures HeaderError(names) == Some(NoDateColumn)
       <==> "date" !in names && "transaction date" !in names && "posted date" !in names
    ensures HeaderError(names) == Some(NoAmountColumn)
       <==> HeaderError(names) != Some(NoDateColumn)
            && "amount" !in names && "debit" !in names && "credit" !in names
    ensures HeaderError(names).Some? ==> HeaderError(names).value in {NoDateColumn, NoAmountColumn}
  {
    OneNameReads(names, [], AMOUNT);
    OneNameReads(names, [], DEBIT);
    OneNameReads(names, [], CREDIT);
    FirstNames(names);
    ColumnIsLastOfFirst(names, DATE);
    hide Column, Heading;
  }

  // ---------- Moving columns ----------

  /** p and q are inverse permutations of the columns. */
  ghost predicate Bijection(p: seq<nat>, q: seq<nat>, n: nat) {
    && |p| == n && |q| == n
    && (forall i :: 0 <= i < n ==> p[i] < n && q[p[i]] == i)
    && (forall j :: 0 <= j < n ==> q[j] < n && p[q[j]] == j)
  }

  /** The row of cells with column i taken from column p[i]; missing cells are empty. */
  function Moved(cells: seq<string>, p: seq<nat>): (r: seq<string>)
    ensures |r| == |p|
  {
    seq(|p|, i requires 0 <= i < |p| => Field(cells, p[i]))
  }

  function MovedLines(lines: seq<Line>, p: seq<nat>): (r: seq<Line>)
    ensures |r| == |lines|
  {
    seq(|lines|, i requires 0 <= i < |lines| =>
      match lines[i]
      case Record(fields) => Record(Moved(fields, p))
      case Malformed => Malformed)
  }

  /** However the columns are moved, header and records together, the outcome stays the same. */
  ghost predicate LayoutIndependent(header: seq<string>, lib: Library) {
    forall p, q, lines :: Bijection(p, q, |header|) ==>
      Parsed(Moved(header, p), MovedLines(lines, p), lib) == Parsed(header, lines, lib)
  }

  /** No name that a field is read from heads two columns. */
  ghost predicate OneColumnEach(names: seq<string>) {
    forall f, i, j :: 0 <= f < |ALIASES| && 0 <= i < j < |names| && names[i] == names[j] ==>
      Heading(names, ALIASES[f]) != Some(names[i])
  }

  lemma {:induction false} HeadingOfMembers(a: seq<string>, b: seq<string>, aliases: seq<string>)
    requires forall x :: x in a <==> x in b
    ensures Heading(a, aliases) == Heading(b, aliases)
  {
    if aliases != [] {
      HeadingOfMembers(a, b, aliases[1..]);
    }
  }

  lemma MovedMembers(names: seq<string>, p: seq<nat>, q: seq<nat>)
    requires Bijection(p, q, |names|)
    ensures forall x :: x in Moved(names, p) <==> x in names
  {
    var m := Moved(names, p);
    forall x | x in names
      ensures x in m
    {
      var j :| 0 <= j < |names| && names[j] == x;
      assert m[q[j]] == x;
    }
  }

  /** The column found after the move is the one found before, in its new place. */
  lemma MovedColumn(names: seq<string>, f: nat, p: seq<nat>, q: seq<nat>)
    requires f < |ALIASES| && OneColumnEach(names) && Bijection(p, q, |names|)
    ensures var k, m := Column(names, ALIASES[f]), Column(Moved(names, p), ALIASES[f]);
            if k < 0 then m < 0 else 0 <= m < |p| && p[m] == k
  {
    MovedMembers(names, p, q);
    HeadingOfMembers(Moved(names, p), names, ALIASES[f]);
    ColumnIsLastOfFirst(names, ALIASES[f]);
    ColumnIsLastOfFirst(Moved(names, p), ALIASES[f]);
  }

  lemma MovedField(names: seq<string>, record: seq<string>, f: nat, p: seq<nat>, q: seq<nat>)
    requires f < |ALIASES| && OneColumnEach(names) && Bijection(p, q, |names|)
    ensures Field(Moved(record, p), Column(Moved(names, p), ALIASES[f])) == Field(record, Column(names, ALIASES[f]))
    ensures Column(Moved(names, p), ALIASES[f]) < 0 <==> Column(names, ALIASES[f]) < 0
  {
    hide Column, Moved;
    MovedColumn(names, f, p, q);
    var m := Column(Moved(names, p), ALIASES[f]);
    if m >= 0 {
      MovedCell(record, p, m);
    }
  }

  lemma MovedCell(record: seq<string>, p: seq<nat>, m: int)
    requires 0 <= m < |p|
    ensures Field(Moved(record, p), m) == Field(record, p[m])
  {
  }

  lemma MovedRow(names: seq<string>, record: seq<string>, p: seq<nat>, q: seq<nat>)
    requires OneColumnEach(names) && Bijection(p, q, |names|)
    ensures RowOf(Moved(names, p), Moved(record, p)) == RowOf(names, record)
    ensures HeaderError(Moved(names, p)) == HeaderError(names)
  {
    hide Column, Moved, Field, OneColumnEach;
    MovedField(names, record, 0, p, q);
    MovedField(names, record, 1, p, q);
    MovedField(names, record, 2, p, q);
    MovedField(names, record, 3, p, q);
    MovedField(names, record, 4, p, q);
    MovedField(names, record, 5, p, q);
  }

  lemma MovedNames(header: seq<string>, p: seq<nat>, lib: Library)
    requires forall i :: 0 <= i < |p| ==> p[i] < |header|
    ensures Names(Moved(header, p), lib) == Moved(Names(header, lib), p)
  {
  }

  lemma MovedFile(header: seq<string>, lines: seq<Line>, p: seq<nat>, q: seq<nat>, lib: Library)
    requires OneColumnEach(Names(header, lib)) && Bijection(p, q, |header|)
    ensures Parsed(Moved(header, p), MovedLines(lines, p), lib) == Parsed(header, lines, lib)
  {
    hide RowOf, HeaderError, Moved, Names;
    var names := Names(header, lib);
    MovedNames(header, p, lib);
    MovedRow(names, [], p, q);
    var moved := MovedLines(lines, p);
    assert Readable(moved) == Readable(lines) by {
      assert forall i :: 0 <= i < |lines| ==> moved[i].Record? == lines[i].Record?;
    }
    if Readable(lines) {
      forall i | 0 <= i < |lines|
        ensures RowOf(Moved(names, p), moved[i].fields) == RowOf(names, lines[i].fields)
      {
        MovedRow(names, lines[i].fields, p, q);
      }
      assert RowsOf(Moved(names, p), moved) == RowsOf(names, lines);
    }
  }

  // ---------- Two columns under one name ----------

  /** The identity with i and k exchanged. */
  function Exchange(n: nat, i: nat, k: nat): (p: seq<nat>)
    ensures |p| == n
  {
    seq(n, t requires 0 <= t < n => if t == i then k else if t == k then i else t)
  }

  lemma ExchangeIsBijection(n: nat, i: nat, k: nat)
    requires i < n && k < n
    ensures Bijection(Exchange(n, i, k), Exchange(n, i, k), n)
  {
  }

  /** Some value of the field comes from the last of two equally named columns: exchanging them shows. */
  lemma ExchangeShows(header: seq<string>, lib: Library, f: nat, i: nat, j: nat)
    requires f < |ALIASES| && i < j < |header| && HeaderError(Names(header, lib)).None?
    requires var names := Names(header, lib); names[i] == names[j] && Heading(names, ALIASES[f]) == Some(names[i])
    ensures !LayoutIndependent(header, lib)
  {
    hide HeaderError, Heading, Names, LayoutIndependent;
    var names := Names(header, lib);
    ColumnIsLastOfFirst(names, ALIASES[f]);
    var k := Column(names, ALIASES[f]);
    var n := |header|;
    var p := Exchange(n, i, k);
    assert i < k < n;
    ExchangeIsBijection(n, i, k);
    MovedNames(header, p, lib);
    assert Moved(names, p) == names;
    var record := seq(n, t => if t == k then "x" else "");
    DifferentRows(names, record, Moved(record, p), f);
    ShowDependence(header, lib, [Record(record)], p);
  }

  lemma DifferentRows(names: seq<string>, a: seq<string>, b: seq<string>, f: nat)
    requires f < |ALIASES| && Field(a, Column(names, ALIASES[f])) != Field(b, Column(names, ALIASES[f]))
    ensures RowOf(names, a) != RowOf(names, b)
  {
    hide Column, Field;
  }

  lemma ShowDependence(header: seq<string>, lib: Library, lines: seq<Line>, p: seq<nat>)
    requires |lines| == 1 && lines[0].Record? && Bijection(p, p, |header|)
    requires var names := Names(header, lib);
             && HeaderError(names).None? && Names(Moved(header, p), lib) == names
             && RowOf(names, Moved(lines[0].fields, p)) != RowOf(names, lines[0].fields)
    ensures !LayoutIndependent(header, lib)
  {
    hide HeaderError, Names, RowOf, Moved;
    var moved := MovedLines(lines, p);
    assert Readable(moved) && Readable(lines);
    assert RowsOf(Names(header, lib), moved)[0] != RowsOf(Names(header, lib), lines)[0];
    assert Parsed(Moved(header, p), moved, lib) != Parsed(header, lines, lib);
  }

  /**
   The importer does not care in which order an accepted header's columns come exactly when no
   name it reads a field from is used twice.
   */
  lemma LayoutIndependentIff(header: seq<string>, lib: Library)
    requires HeaderError(Names(header, lib)).None?
    ensures LayoutIndependent(header, lib) <==> OneColumnEach(Names(header, lib))
  {
    hide HeaderError, Names, Parsed, Heading;
    var names := Names(header, lib);
    if OneColumnEach(names) {
      forall p: seq<nat>, q: seq<nat>, lines: seq<Line> | Bijection(p, q, |header|)
        ensures Parsed(Moved(header, p), MovedLines(lines, p), lib) == Parsed(header, lines, lib)
      {
        MovedFile(header, lines, p, q, lib);
      }
    } else {
      var f: nat, i: nat, j: nat :| f < |ALIASES| && i < j < |names| && names[i] == names[j]
                                 && Heading(names, ALIASES[f]) == Some(names[i]);
      ExchangeShows(header, lib, f, i, j);
    }
  }

  /** Distinct normalised names are enough. */
  lemma DistinctNamesSuffice(header: seq<string>, lines: seq<Line>, p: seq<nat>, q: seq<nat>, lib: Library)
    requires Distinct(Names(header, lib)) && Bijection(p, q, |header|)
    ensures Parsed(Moved(header, p), MovedLines(lines, p), lib) == Parsed(header, lines, lib)
  {
    hide Parsed, Names, Heading;
    MovedFile(header, lines, p, q, lib);
  }

  // ---------- Ragged records ----------

  /** A record cut short reads exactly as if its missing cells were empty. */
  lemma ShortIsPadded(header: seq<string>, lines: seq<Line>, padded: seq<Line>, lib: Library)
    requires |padded| == |lines|
    requires forall i :: 0 <= i < |lines| ==>
      match lines[i]
      case Malformed => padded[i].Malformed?
      case Record(cells) =>
        && padded[i].Record? && |cells| <= |padded[i].fields| && padded[i].fields[..|cells|] == cells
        && (forall t :: |cells| <= t < |padded[i].fields| ==> padded[i].fields[t] == "")
    ensures Parsed(header, padded, lib) == Parsed(header, lines, lib)
  {
    hide HeaderError, Names;
    var names := Names(header, lib);
    assert Readable(padded) == Readable(lines) by {
      assert forall i :: 0 <= i < |lines| ==> padded[i].Record? == lines[i].Record?;
    }
    if Readable(lines) {
      forall i | 0 <= i < |lines|
        ensures RowOf(names, padded[i].fields) == RowOf(names, lines[i].fields)
      {
        PaddedRow(names, lines[i].fields, padded[i].fields);
      }
      hide RowOf;
      assert RowsOf(names, padded) == RowsOf(names, lines);
    }
  }

  lemma PaddedRow(names: seq<string>, cells: seq<string>, padded: seq<string>)
    requires |cells| <= |padded| && padded[..|cells|] == cells
    requires forall t :: |cells| <= t < |padded| ==> padded[t] == ""
    ensures RowOf(names, padded) == RowOf(names, cells)
  {
    hide Column;
    assert forall k :: Field(padded, k) == Field(cells, k);
  }
}
