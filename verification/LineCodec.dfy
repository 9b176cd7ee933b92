/**
 The lines of an invoice travel as five strings, one per column, with the fields separated by '|'. Parsing splits the
 columns and transposes them into rows; generating plucks the columns out of the rows and joins them.
 */
module LineCodec {
  import opened Joined

  type Row = map<string, string>

  // ----- parseStringSplitValue -----

  function SplitAll(sep: char, data: seq<string>): (r: seq<seq<string>>)
    ensures |r| == |data|
    ensures forall i | 0 <= i < |data| :: r[i] == Split(data[i], sep)
  {
    if data == [] then [] else SplitAll(sep, data[..|data| - 1]) + [Split(data[|data| - 1], sep)]
  }

  function Longest(cols: seq<seq<string>>): (n: nat)
    ensures forall i | 0 <= i < |cols| :: |cols[i]| <= n
    ensures cols != [] ==> exists i :: 0 <= i < |cols| && |cols[i]| == n
    ensures cols == [] ==> n == 0
  {
    if cols == [] then 0
    else
      var last := cols[|cols| - 1];
      var n := Longest(cols[..|cols| - 1]);
      if n < |last| || |cols| == 1 then |last| else n
  }

  /** The `j`-th fields of the columns that have one: shorter columns are skipped, not padded. */
  function Across(cols: seq<seq<string>>, j: nat): seq<string> {
    if cols == [] then []
    else
      var last := cols[|cols| - 1];
      Across(cols[..|cols| - 1], j) + if j < |last| then [last[j]] else []
  }

  function Transpose(cols: seq<seq<string>>): (rows: seq<seq<string>>)
    ensures |rows| == Longest(cols)
    ensures forall j | 0 <= j < |rows| :: rows[j] == Across(cols, j)
  {
    seq(Longest(cols), j requires 0 <= j => Across(cols, j))
  }

  /** Pairs up keys and values as far as both go. */
  function ZipObj(keys: seq<string>, vals: seq<string>): Row {
    if keys == [] || vals == [] then map[] else map[keys[0] := vals[0]] + ZipObj(keys[1..], vals[1..])
  }

  function ZipAll(keys: seq<string>, rows: seq<seq<string>>): (r: seq<Row>)
    ensures |r| == |rows|
    ensures forall j | 0 <= j < |rows| :: r[j] == ZipObj(keys, rows[j])
  {
    if rows == [] then [] else ZipAll(keys, rows[..|rows| - 1]) + [ZipObj(keys, rows[|rows| - 1])]
  }

  /** The first string names the keys, the others are the columns. */
  function ParseStringSplitValue(sep: char, data: seq<string>): seq<Row>
    requires data != []
  {
    var raw := SplitAll(sep, data);
    ZipAll(raw[0], Transpose(raw[1..]))
  }

  // ----- the way back -----

  /** A missing field joins as the empty string. */
  function Field(row: Row, key: string): string {
    if key in row then row[key] else ""
  }

  function Pluck(key: string, rows: seq<Row>): (r: seq<string>)
    ensures |r| == |rows|
    ensures forall j | 0 <= j < |rows| :: r[j] == Field(rows[j], key)
  {
    if rows == [] then [] else Pluck(key, rows[..|rows| - 1]) + [Field(rows[|rows| - 1], key)]
  }

  /** One column for each key. */
  function JoinColumns(keys: seq<string>, sep: char, rows: seq<Row>): (columns: seq<string>)
    ensures |columns| == |keys|
    ensures forall i | 0 <= i < |keys| :: columns[i] == Join(Pluck(keys[i], rows), sep)
  {
    if keys == [] then []
    else JoinColumns(keys[..|keys| - 1], sep, rows) + [Join(Pluck(keys[|keys| - 1], rows), sep)]
  }

  ghost predicate Distinct(keys: seq<string>) {
    forall i, j | 0 <= i < j < |keys| :: keys[i] != keys[j]
  }

  ghost predicate GoodKeys(keys: seq<string>, sep: char) {
    keys != [] && Distinct(keys) && Free(keys, sep)
  }

  function ParseColumns(keys: seq<string>, sep: char, columns: seq<string>): seq<Row> {
    ParseStringSplitValue(sep, [Join(keys, sep)] + columns)
  }

  // ----- facts about the parts -----

  lemma {:induction false} ZipObjAt(keys: seq<string>, vals: seq<string>, i: nat)
    requires Distinct(keys) && i < |keys| && i < |vals|
    ensures keys[i] in ZipObj(keys, vals) && ZipObj(keys, vals)[keys[i]] == vals[i]
  {
    if i > 0 {
      ZipObjAt(keys[1..], vals[1..], i - 1);
    } else {
      ZipObjOnly(keys[1..], vals[1..], keys[0]);
    }
  }

  lemma {:induction false} ZipObjOnly(keys: seq<string>, vals: seq<string>, k: string)
    requires k !in keys
    ensures k !in ZipObj(keys, vals)
  {
    if keys != [] && vals != [] {
      ZipObjOnly(keys[1..], vals[1..], k);
    }
  }

  lemma {:induction false} AcrossEven(cols: seq<seq<string>>, n: nat, j: nat)
    requires j < n && forall i | 0 <= i < |cols| :: |cols[i]| == n
    ensures |Across(cols, j)| == |cols|
    ensures forall i | 0 <= i < |cols| :: Across(cols, j)[i] == cols[i][j]
  {
    if cols == [] {
    } else {
      AcrossEven(cols[..|cols| - 1], n, j);
    }
  }

  /** Every field that reaches a row comes from a column, so it has no separator. */
  lemma {:induction false} AcrossFree(cols: seq<seq<string>>, j: nat, sep: char)
    requires forall i | 0 <= i < |cols| :: Free(cols[i], sep)
    ensures Free(Across(cols, j), sep)
  {
    if cols == [] {
    } else {
      AcrossFree(cols[..|cols| - 1], j, sep);
    }
  }

  lemma {:induction false} ZipObjFree(keys: seq<string>, vals: seq<string>, k: string, sep: char)
    requires Free(vals, sep)
    ensures sep !in Field(ZipObj(keys, vals), k)
  {
    if keys != [] && vals != [] {
      ZipObjFree(keys[1..], vals[1..], k, sep);
      assert sep !in vals[0];
    }
  }

  /** What parsing comes to: row `j` is cut across the split columns. */
  lemma ParseIs(keys: seq<string>, sep: char, columns: seq<string>)
    requires GoodKeys(keys, sep)
    ensures ParseColumns(keys, sep, columns) == ZipAll(keys, Transpose(SplitAll(sep, columns)))
  {
    SplitJoin(keys, sep);
    assert SplitAll(sep, [Join(keys, sep)] + columns)[1..] == SplitAll(sep, columns);
  }

  lemma ParsedRow(keys: seq<string>, sep: char, columns: seq<string>, j: nat)
    requires GoodKeys(keys, sep) && j < Longest(SplitAll(sep, columns))
    ensures |ParseColumns(keys, sep, columns)| == Longest(SplitAll(sep, columns))
    ensures ParseColumns(keys, sep, columns)[j] == ZipObj(keys, Across(SplitAll(sep, columns), j))
  {
    ParseIs(keys, sep, columns);
  }

  ghost predicate EvenColumns(columns: seq<string>, sep: char, n: nat) {
    forall i | 0 <= i < |columns| :: |Split(columns[i], sep)| == n
  }

  // ----- the round trips -----

  /** A row with exactly these fields, none of them with a separator. */
  ghost predicate GoodRow(row: Row, keys: seq<string>, sep: char) {
    && (forall k :: k in row <==> k in keys)
    && (forall k | k in row :: sep !in row[k])
  }

  ghost predicate GoodRows(rows: seq<Row>, keys: seq<string>, sep: char) {
    forall j | 0 <= j < |rows| :: GoodRow(rows[j], keys, sep)
  }

  lemma PluckFree(key: string, rows: seq<Row>, keys: seq<string>, sep: char)
    requires GoodRows(rows, keys, sep)
    ensures Free(Pluck(key, rows), sep)
  {
    forall j | 0 <= j < |rows|
      ensures sep !in Pluck(key, rows)[j]
    {
      assert GoodRow(rows[j], keys, sep);
    }
  }

  lemma GeneratedColumn(keys: seq<string>, sep: char, rows: seq<Row>, i: nat)
    requires rows != [] && GoodRows(rows, keys, sep) && i < |keys|
    ensures SplitAll(sep, JoinColumns(keys, sep, rows))[i] == Pluck(keys[i], rows)
  {
    PluckFree(keys[i], rows, keys, sep);
    SplitJoin(Pluck(keys[i], rows), sep);
  }

  lemma ZipGoodRow(row: Row, keys: seq<string>, vals: seq<string>, sep: char)
    requires Distinct(keys) && GoodRow(row, keys, sep)
    requires |vals| == |keys| && forall i | 0 <= i < |keys| :: vals[i] == Field(row, keys[i])
    ensures ZipObj(keys, vals) == row
  {
    var z := ZipObj(keys, vals);
    forall k
      ensures (k in z <==> k in row) && (k in row ==> z[k] == row[k])
    {
      if k in keys {
        var i :| 0 <= i < |keys| && keys[i] == k;
        ZipObjAt(keys, vals, i);
      } else {
        ZipObjOnly(keys, vals, k);
      }
    }
  }

  lemma SplitGenerated(keys: seq<string>, sep: char, rows: seq<Row>)
    requires keys != [] && rows != [] && GoodRows(rows, keys, sep)
    ensures var cols := SplitAll(sep, JoinColumns(keys, sep, rows));
            Longest(cols) == |rows| && forall i | 0 <= i < |keys| :: cols[i] == Pluck(keys[i], rows)
  {
    var cols := SplitAll(sep, JoinColumns(keys, sep, rows));
    forall i | 0 <= i < |keys|
      ensures cols[i] == Pluck(keys[i], rows)
    {
      GeneratedColumn(keys, sep, rows, i);
    }
    assert |cols[0]| == |rows|;
  }

  /** Cutting across plucked columns gives the fields of one row. */
  lemma PluckedAcross(cols: seq<seq<string>>, keys: seq<string>, rows: seq<Row>, j: nat)
    requires |cols| == |keys| && j < |rows|
    requires forall i | 0 <= i < |keys| :: cols[i] == Pluck(keys[i], rows)
    ensures |Across(cols, j)| == |keys|
    ensures forall i | 0 <= i < |keys| :: Across(cols, j)[i] == Field(rows[j], keys[i])
  {
    forall i | 0 <= i < |cols|
      ensures |cols[i]| == |rows| && cols[i][j] == Field(rows[j], keys[i])
    {
      assert cols[i] == Pluck(keys[i], rows);
    }
    AcrossEven(cols, |rows|, j);
  }

  lemma GeneratedRow(keys: seq<string>, sep: char, rows: seq<Row>, j: nat)
    requires GoodKeys(keys, sep) && GoodRows(rows, keys, sep) && j < |rows|
    ensures |ParseColumns(keys, sep, JoinColumns(keys, sep, rows))| == |rows|
    ensures ParseColumns(keys, sep, JoinColumns(keys, sep, rows))[j] == rows[j]
  {
    var columns := JoinColumns(keys, sep, rows);
    var cols := SplitAll(sep, columns);
    SplitGenerated(keys, sep, rows);
    PluckedAcross(cols, keys, rows, j);
    ParsedRow(keys, sep, columns, j);
    ZipGoodRow(rows[j], keys, Across(cols, j), sep);
  }

  lemma SameRows(a: seq<Row>, b: seq<Row>)
    requires |a| == |b| && forall j | 0 <= j < |b| :: a[j] == b[j]
    ensures a == b
  {
  }

  /** Parsing what was generated gives the rows back. */
  lemma ParseGenerate(keys: seq<string>, sep: char, rows: seq<Row>)
    requires GoodKeys(keys, sep) && rows != [] && GoodRows(rows, keys, sep)
    ensures ParseColumns(keys, sep, JoinColumns(keys, sep, rows)) == rows
  {
    var columns := JoinColumns(keys, sep, rows);
    GeneratedRow(keys, sep, rows, 0);
    forall j | 0 <= j < |rows|
      ensures ParseColumns(keys, sep, columns)[j] == rows[j]
    {
      GeneratedRow(keys, sep, rows, j);
    }
    SameRows(ParseColumns(keys, sep, columns), rows);
  }

  lemma EvenLongest(columns: seq<string>, sep: char, n: nat)
    requires EvenColumns(columns, sep, n) && columns != []
    ensures Longest(SplitAll(sep, columns)) == n && n > 0
  {
    var cols := SplitAll(sep, columns);
    assert |cols[0]| == n;
  }

  /** No rows at all do not survive: they come back as one row. */
  lemma NoRowsDoNotReturn(keys: seq<string>, sep: char)
    requires GoodKeys(keys, sep)
    ensures |ParseColumns(keys, sep, JoinColumns(keys, sep, []))| == 1
  {
    var columns := JoinColumns(keys, sep, []);
    forall i | 0 <= i < |columns|
      ensures |Split(columns[i], sep)| == 1
    {
      assert columns[i] == "";
    }
    EvenLongest(columns, sep, 1);
    ParseIs(keys, sep, columns);
  }

  lemma ParsedField(keys: seq<string>, sep: char, columns: seq<string>, n: nat, i: nat, j: nat)
    requires GoodKeys(keys, sep) && |columns| == |keys| && EvenColumns(columns, sep, n) && i < |keys| && j < n
    ensures |ParseColumns(keys, sep, columns)| == n
    ensures |Split(columns[i], sep)| == n
            && Field(ParseColumns(keys, sep, columns)[j], keys[i]) == Split(columns[i], sep)[j]
  {
    var cols := SplitAll(sep, columns);
    EvenLongest(columns, sep, n);
    ParsedRow(keys, sep, columns, j);
    AcrossEven(cols, n, j);
    ZipObjAt(keys, Across(cols, j), i);
  }

  lemma PluckIs(key: string, rows: seq<Row>, fields: seq<string>)
    requires |rows| == |fields| && forall j | 0 <= j < |rows| :: Field(rows[j], key) == fields[j]
    ensures Pluck(key, rows) == fields
  {
  }

  lemma EvenReturns(keys: seq<string>, sep: char, columns: seq<string>, n: nat, i: nat)
    requires GoodKeys(keys, sep) && |columns| == |keys| && EvenColumns(columns, sep, n) && i < |keys|
    ensures JoinColumns(keys, sep, ParseColumns(keys, sep, columns))[i] == columns[i]
  {
    var rows, fields := ParseColumns(keys, sep, columns), Split(columns[i], sep);
    EvenLongest(columns, sep, n);
    ParsedField(keys, sep, columns, n, i, 0);
    forall j | 0 <= j < |rows|
      ensures Field(rows[j], keys[i]) == fields[j]
    {
      ParsedField(keys, sep, columns, n, i, j);
    }
    PluckIs(keys[i], rows, fields);
    JoinSplit(columns[i], sep);
  }

  lemma SplitAllFree(columns: seq<string>, sep: char)
    ensures forall l | 0 <= l < |columns| :: Free(SplitAll(sep, columns)[l], sep)
  {
    forall l | 0 <= l < |columns|
      ensures Free(SplitAll(sep, columns)[l], sep)
    {
      SplitFree(columns[l], sep);
    }
  }

  /** Whatever was parsed, every column that is generated from it has as many fields as there are rows. */
  lemma GeneratedCount(keys: seq<string>, sep: char, columns: seq<string>, i: nat)
    requires GoodKeys(keys, sep) && |columns| == |keys| && i < |keys|
    ensures |ParseColumns(keys, sep, columns)| > 0
    ensures |Split(JoinColumns(keys, sep, ParseColumns(keys, sep, columns))[i], sep)|
              == |ParseColumns(keys, sep, columns)|
  {
    var cols, rows := SplitAll(sep, columns), ParseColumns(keys, sep, columns);
    ParseIs(keys, sep, columns);
    assert 0 < |cols[0]| <= Longest(cols);
    SplitAllFree(columns, sep);
    var plucked := Pluck(keys[i], rows);
    forall j | 0 <= j < |rows|
      ensures sep !in plucked[j]
    {
      ParsedRow(keys, sep, columns, j);
      AcrossFree(cols, j, sep);
      ZipObjFree(keys, Across(cols, j), keys[i], sep);
    }
    SplitJoin(plucked, sep);
  }

  /** Generating what was parsed gives the columns back exactly when all of them have the same number of fields. */
  lemma GenerateParseIff(keys: seq<string>, sep: char, columns: seq<string>)
    requires GoodKeys(keys, sep) && |columns| == |keys|
    ensures JoinColumns(keys, sep, ParseColumns(keys, sep, columns)) == columns
            <==> EvenColumns(columns, sep, |Split(columns[0], sep)|)
  {
    var columns' := JoinColumns(keys, sep, ParseColumns(keys, sep, columns));
    if EvenColumns(columns, sep, |Split(columns[0], sep)|) {
      forall i | 0 <= i < |keys|
        ensures columns'[i] == columns[i]
      {
        EvenReturns(keys, sep, columns, |Split(columns[0], sep)|, i);
      }
    }
    if columns' == columns {
      GeneratedCount(keys, sep, columns, 0);
      forall i | 0 <= i < |columns|
        ensures |Split(columns[i], sep)| == |Split(columns[0], sep)|
      {
        GeneratedCount(keys, sep, columns, i);
      }
    }
  }

  // ----- the invoice columns -----

  const KEYS := ["ItemName", "ItemCount", "ItemPrice", "ItemAmt", "ItemUnit"]

  /** The columns in the order of `KEYS`. */
  type Columns = c: seq<string> | |c| == 5 witness ["", "", "", "", ""]

  function GetProductItems(columns: Columns): seq<Row> {
    ParseColumns(KEYS, '|', columns)
  }

  function GenerateInvoiceString(rows: seq<Row>): Columns {
    JoinColumns(KEYS, '|', rows)
  }

  lemma InvoiceKeys()
    ensures GoodKeys(KEYS, '|')
  {
    assert |KEYS[0]| == 8 && |KEYS[1]| == 9 && |KEYS[2]| == 9 && |KEYS[3]| == 7 && |KEYS[4]| == 8;
    assert KEYS[0][4] != KEYS[4][4] && KEYS[1][4] != KEYS[2][4];
  }

  /** The two directions for the invoice's own five keys. */
  lemma InvoiceRoundTrips(rows: seq<Row>, columns: Columns)
    ensures rows != [] && GoodRows(rows, KEYS, '|') ==> GetProductItems(GenerateInvoiceString(rows)) == rows
    ensures GenerateInvoiceString(GetProductItems(columns)) == columns
            <==> EvenColumns(columns, '|', |Split(columns[0], '|')|)
  {
    InvoiceKeys();
    if rows != [] && GoodRows(rows, KEYS, '|') {
      ParseGenerate(KEYS, '|', rows);
    }
    GenerateParseIff(KEYS, '|', columns);
  }
}
