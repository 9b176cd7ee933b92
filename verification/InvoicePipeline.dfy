/**
 An invoice issued directly is parsed, rounded and printed again before it is sent. Columns may differ in length, and
 fields need not be numerals: a number is then missing, or not a number.
 */
module InvoicePipeline {
  import opened Prelude
  import opened Joined
  import opened Rounding
  import opened LineCodec

  // ----- numbers -----

  datatype Num = NaN | Of(x: real)

  function Times(a: Num, b: Num): Num {
    if a.Of? && b.Of? then Of(a.x * b.x) else NaN
  }

  function Plus(a: Num, b: Num): Num {
    if a.Of? && b.Of? then Of(a.x + b.x) else NaN
  }

  function CeilNum(a: Num): Num {
    if a.Of? then Of(Ceil(a.x) as real) else NaN
  }

  /** A whole number, or none at all. */
  predicate Settled(a: Num) {
    a.Of? ==> a.x == a.x.Floor as real
  }

  /** `num` is `Number`, `show` what joining makes of a number. Nothing more of them is needed. */
  ghost predicate Numerals(num: string -> Num, show: Num -> string) {
    && num("") == Of(0.0)
    && forall a :: '|' !in show(a) && show(a) != "" && (Settled(a) ==> num(show(a)) == a)
  }

  // ----- lines -----

  /** A row with its numerals read. A field is missing when its column was too short. */
  datatype Line = Line(
    name: Option<string>, count: Option<Num>, price: Option<Num>, amt: Option<Num>, unit: Option<string>
  )

  function OrNaN(a: Option<Num>): Num {
    if a.Some? then a.value else NaN
  }

  function LineAmount(l: Line): Num {
    Times(OrNaN(l.price), OrNaN(l.count))
  }

  function CeilField(a: Option<Num>): Option<Num> {
    if a.Some? then Some(CeilNum(a.value)) else None
  }

  /** Price and count are rounded where they are there; an amount that is there is computed again. */
  function RoundLine(l: Line): Line {
    var r := l.(count := CeilField(l.count), price := CeilField(l.price));
    r.(amt := if l.amt.Some? then Some(LineAmount(r)) else None)
  }

  function RoundEach(lines: seq<Line>): (r: seq<Line>)
    ensures |r| == |lines|
    ensures forall j | 0 <= j < |lines| :: r[j] == RoundLine(lines[j])
  {
    if lines == [] then [] else RoundEach(lines[..|lines| - 1]) + [RoundLine(lines[|lines| - 1])]
  }

  function TotalNum(lines: seq<Line>): Num {
    if lines == [] then Of(0.0) else Plus(TotalNum(lines[..|lines| - 1]), LineAmount(lines[|lines| - 1]))
  }

  /** Not a number as soon as one of the amounts is not: then it is not positive either. */
  function Difference(lines: seq<Line>): Num {
    var raw, rounded := TotalNum(lines), TotalNum(RoundEach(lines));
    if raw.Of? && rounded.Of? then Of(rounded.x - Round(raw.x) as real) else NaN
  }

  function SurplusLine(c: Num): Line {
    Line(Some(COMPENSATION_NAME), Some(Of(1.0)), Some(c), Some(c), Some(COMPENSATION_UNIT))
  }

  function RoundLines(lines: seq<Line>): seq<Line> {
    var c := Difference(lines);
    RoundEach(lines) +
    if c.Of? && c.x > 0.0 then [SurplusLine(c)] else []
  }

  // ----- rows -----

  function TextField(row: Row, key: string): Option<string> {
    if key in row then Some(row[key]) else None
  }

  function NumField(num: string -> Num, row: Row, key: string): Option<Num> {
    if key in row then Some(num(row[key])) else None
  }

  function ToLine(num: string -> Num, row: Row): Line {
    Line(TextField(row, KEYS[0]), NumField(num, row, KEYS[1]), NumField(num, row, KEYS[2]),
         NumField(num, row, KEYS[3]), TextField(row, KEYS[4]))
  }

  function ToLines(num: string -> Num, rows: seq<Row>): (lines: seq<Line>)
    ensures |lines| == |rows|
    ensures forall j | 0 <= j < |rows| :: lines[j] == ToLine(num, rows[j])
  {
    if rows == [] then [] else ToLines(num, rows[..|rows| - 1]) + [ToLine(num, rows[|rows| - 1])]
  }

  function TextOf(a: Option<string>): string {
    if a.Some? then a.value else ""
  }

  function Shown(show: Num -> string, a: Option<Num>): string {
    if a.Some? then show(a.value) else ""
  }

  function Texts(show: Num -> string, l: Line): (vals: seq<string>)
    ensures |vals| == |KEYS|
  {
    [TextOf(l.name), Shown(show, l.count), Shown(show, l.price), Shown(show, l.amt), TextOf(l.unit)]
  }

  function ToRow(show: Num -> string, l: Line): Row {
    ZipObj(KEYS, Texts(show, l))
  }

  function ToRows(show: Num -> string, lines: seq<Line>): (rows: seq<Row>)
    ensures |rows| == |lines|
    ensures forall j | 0 <= j < |lines| :: rows[j] == ToRow(show, lines[j])
  {
    if lines == [] then [] else ToRows(show, lines[..|lines| - 1]) + [ToRow(show, lines[|lines| - 1])]
  }

  function Read(num: string -> Num, columns: Columns): seq<Line> {
    ToLines(num, GetProductItems(columns))
  }

  function Write(show: Num -> string, lines: seq<Line>): Columns {
    GenerateInvoiceString(ToRows(show, lines))
  }

  /** The columns that are sent. */
  function RoundInvoice(num: string -> Num, show: Num -> string, columns: Columns): Columns {
    Write(show, RoundLines(Read(num, columns)))
  }

  // ----- rounding what is rounded -----

  /** Whole numbers or none, and an amount that agrees with them if there is one. */
  predicate SettledLine(l: Line) {
    && (l.count.Some? ==> Settled(l.count.value)) && (l.price.Some? ==> Settled(l.price.value))
    && (l.amt.Some? ==> l.amt.value == LineAmount(l))
  }

  ghost predicate AllSettled(lines: seq<Line>) {
    forall j | 0 <= j < |lines| :: SettledLine(lines[j])
  }

  lemma CeilSettled(a: Num)
    ensures Settled(CeilNum(a)) && (Settled(a) ==> CeilNum(a) == a)
  {
    if a.Of? {
      FloorOfInt(Ceil(a.x));
      if Settled(a) {
        CeilOfInt(a.x.Floor);
      }
    }
  }

  lemma TimesSettled(a: Num, b: Num)
    requires Settled(a) && Settled(b)
    ensures Settled(Times(a, b))
  {
    if a.Of? && b.Of? {
      var product := a.x.Floor * b.x.Floor;
      ProductAsReal(a.x.Floor, b.x.Floor);
      FloorOfInt(product);
      var x, y := a.x.Floor as real, b.x.Floor as real;
      assert a.x == x && b.x == y && x * y == product as real;
      assert Times(a, b).x == product as real;
    }
  }

  lemma FieldSettled(a: Option<Num>)
    ensures CeilField(a).Some? ==> Settled(CeilField(a).value)
    ensures (a.Some? ==> Settled(a.value)) ==> CeilField(a) == a
  {
    if a.Some? {
      CeilSettled(a.value);
      assert a == Some(a.value);
    }
  }

  lemma RoundLineSettled(l: Line)
    ensures SettledLine(RoundLine(l)) && (SettledLine(l) ==> RoundLine(l) == l)
  {
    FieldSettled(l.count);
    FieldSettled(l.price);
    if SettledLine(l) && l.amt.Some? {
      assert l.amt == Some(l.amt.value);
    }
  }

  lemma AmountSettled(l: Line)
    requires SettledLine(l)
    ensures Settled(LineAmount(l)) && (l.amt.Some? ==> Settled(l.amt.value))
  {
    TimesSettled(OrNaN(l.price), OrNaN(l.count));
  }

  lemma {:induction false} TotalSettled(lines: seq<Line>)
    requires AllSettled(lines)
    ensures Settled(TotalNum(lines))
  {
    if lines == [] {
    } else {
      var init, last := lines[..|lines| - 1], lines[|lines| - 1];
      TotalSettled(init);
      AmountSettled(last);
      var a, b := TotalNum(init), LineAmount(last);
      if a.Of? && b.Of? {
        FloorOfInt(a.x.Floor + b.x.Floor);
      }
    }
  }

  lemma RoundEachSettled(lines: seq<Line>)
    ensures AllSettled(RoundEach(lines))
    ensures AllSettled(lines) ==> RoundEach(lines) == lines
  {
    forall j | 0 <= j < |lines|
      ensures SettledLine(RoundLine(lines[j])) && (SettledLine(lines[j]) ==> RoundLine(lines[j]) == lines[j])
    {
      RoundLineSettled(lines[j]);
    }
  }

  lemma DifferenceSettled(lines: seq<Line>)
    ensures Settled(Difference(lines))
    ensures AllSettled(lines) ==> Difference(lines) == NaN || Difference(lines) == Of(0.0)
  {
    RoundEachSettled(lines);
    var raw, rounded := TotalNum(lines), TotalNum(RoundEach(lines));
    TotalSettled(RoundEach(lines));
    if raw.Of? && rounded.Of? {
      FloorOfInt(rounded.x.Floor - Round(raw.x));
      if AllSettled(lines) {
        assert Round(raw.x) == raw.x.Floor;
      }
    }
  }

  /** Lines that are settled are left as they are; what comes out always is. */
  lemma RoundLinesSettled(lines: seq<Line>)
    ensures AllSettled(RoundLines(lines))
    ensures AllSettled(lines) ==> RoundLines(lines) == lines
  {
    RoundEachSettled(lines);
    DifferenceSettled(lines);
    var c := Difference(lines);
    if c.Of? {
      assert LineAmount(SurplusLine(c)) == c;
    }
  }

  // ----- lines that are printed and read back -----

  predicate Worded(l: Line) {
    '|' !in TextOf(l.name) && '|' !in TextOf(l.unit)
  }

  ghost predicate AllWorded(lines: seq<Line>) {
    forall j | 0 <= j < |lines| :: Worded(lines[j])
  }

  function FilledNum(a: Option<Num>): Option<Num> {
    if a.Some? then a else Some(Of(0.0))
  }

  /** A missing field is printed as the empty text, and the empty text is read as 0. */
  function Filled(l: Line): Line {
    Line(Some(TextOf(l.name)), FilledNum(l.count), FilledNum(l.price), FilledNum(l.amt), Some(TextOf(l.unit)))
  }

  function FilledEach(lines: seq<Line>): (r: seq<Line>)
    ensures |r| == |lines|
    ensures forall j | 0 <= j < |lines| :: r[j] == Filled(lines[j])
  {
    if lines == [] then [] else FilledEach(lines[..|lines| - 1]) + [Filled(lines[|lines| - 1])]
  }

  lemma ZipGood(keys: seq<string>, vals: seq<string>, sep: char)
    requires Distinct(keys) && |vals| == |keys| && Free(vals, sep)
    ensures GoodRow(ZipObj(keys, vals), keys, sep)
  {
    var z := ZipObj(keys, vals);
    forall k
      ensures k in z <==> k in keys
    {
      if k in keys {
        var i :| 0 <= i < |keys| && keys[i] == k;
        ZipObjAt(keys, vals, i);
      } else {
        ZipObjOnly(keys, vals, k);
      }
    }
    forall k | k in z
      ensures sep !in z[k]
    {
      ZipObjFree(keys, vals, k, sep);
    }
  }

  lemma RowField(show: Num -> string, l: Line, k: nat)
    requires k < |KEYS|
    ensures KEYS[k] in ToRow(show, l) && ToRow(show, l)[KEYS[k]] == Texts(show, l)[k]
  {
    InvoiceKeys();
    ZipObjAt(KEYS, Texts(show, l), k);
  }

  lemma ShownRead(num: string -> Num, show: Num -> string, a: Option<Num>)
    requires Numerals(num, show) && (a.Some? ==> Settled(a.value))
    ensures Some(num(Shown(show, a))) == FilledNum(a) && '|' !in Shown(show, a)
  {
    if a.Some? {
      assert a == Some(a.value) && '|' !in show(a.value);
    }
  }

  lemma LineReturns(num: string -> Num, show: Num -> string, l: Line)
    requires Numerals(num, show) && SettledLine(l) && Worded(l)
    ensures ToLine(num, ToRow(show, l)) == Filled(l) && GoodRow(ToRow(show, l), KEYS, '|')
  {
    RowField(show, l, 0);
    RowField(show, l, 1);
    RowField(show, l, 2);
    RowField(show, l, 3);
    RowField(show, l, 4);
    AmountSettled(l);
    ShownRead(num, show, l.count);
    ShownRead(num, show, l.price);
    ShownRead(num, show, l.amt);
    InvoiceKeys();
    ZipGood(KEYS, Texts(show, l), '|');
  }

  lemma RowsReturn(num: string -> Num, show: Num -> string, lines: seq<Line>)
    requires Numerals(num, show) && AllSettled(lines) && AllWorded(lines)
    ensures GoodRows(ToRows(show, lines), KEYS, '|')
    ensures ToLines(num, ToRows(show, lines)) == FilledEach(lines)
  {
    forall j | 0 <= j < |lines|
      ensures ToLine(num, ToRow(show, lines[j])) == Filled(lines[j]) && GoodRow(ToRow(show, lines[j]), KEYS, '|')
    {
      LineReturns(num, show, lines[j]);
    }
  }

  /** Settled lines come back from print with their missing fields filled in. */
  lemma ReadWrite(num: string -> Num, show: Num -> string, lines: seq<Line>)
    requires Numerals(num, show) && lines != [] && AllSettled(lines) && AllWorded(lines)
    ensures Read(num, Write(show, lines)) == FilledEach(lines)
  {
    RowsReturn(num, show, lines);
    InvoiceRoundTrips(ToRows(show, lines), Write(show, lines));
  }

  lemma WrittenColumn(num: string -> Num, show: Num -> string, lines: seq<Line>, k: nat, j: nat)
    requires Numerals(num, show) && AllSettled(lines) && AllWorded(lines) && k < |KEYS| && j < |lines|
    ensures var fields := Split(Write(show, lines)[k], '|');
            |fields| == |lines| && fields[j] == Texts(show, lines[j])[k]
  {
    var rows := ToRows(show, lines);
    RowsReturn(num, show, lines);
    InvoiceKeys();
    GeneratedColumn(KEYS, '|', rows, k);
    assert SplitAll('|', Write(show, lines))[k] == Pluck(KEYS[k], rows);
    RowField(show, lines[j], k);
  }

  // ----- what was read is worded, and rounding keeps it so -----

  lemma ParsedFieldFree(columns: Columns, j: nat, k: string)
    requires j < |GetProductItems(columns)|
    ensures '|' !in Field(GetProductItems(columns)[j], k)
  {
    InvoiceKeys();
    ParseIs(KEYS, '|', columns);
    var cols := SplitAll('|', columns);
    SplitAllFree(columns, '|');
    AcrossFree(cols, j, '|');
    ZipObjFree(KEYS, Across(cols, j), k, '|');
  }

  lemma ReadLineWorded(num: string -> Num, columns: Columns, j: nat)
    requires j < |GetProductItems(columns)|
    ensures Worded(Read(num, columns)[j])
  {
    ParsedFieldFree(columns, j, KEYS[0]);
    ParsedFieldFree(columns, j, KEYS[4]);
  }

  lemma SomethingRead(num: string -> Num, columns: Columns)
    ensures Read(num, columns) != []
  {
    InvoiceKeys();
    GeneratedCount(KEYS, '|', columns, 0);
  }

  lemma ReadWorded(num: string -> Num, columns: Columns)
    ensures Read(num, columns) != [] && AllWorded(Read(num, columns))
  {
    SomethingRead(num, columns);
    var read := Read(num, columns);
    forall j | 0 <= j < |read|
      ensures Worded(read[j])
    {
      ReadLineWorded(num, columns, j);
    }
  }

  lemma RoundLinesWorded(lines: seq<Line>)
    requires AllWorded(lines)
    ensures AllWorded(RoundLines(lines))
  {
  }

  // ----- the pipeline -----

  /** What the gateway reads is the rounded list of what the caller's columns said, with missing fields filled in. */
  lemma SentIsRounded(num: string -> Num, show: Num -> string, columns: Columns)
    requires Numerals(num, show)
    ensures Read(num, RoundInvoice(num, show, columns)) == FilledEach(RoundLines(Read(num, columns)))
  {
    ReadWorded(num, columns);
    RoundLinesWorded(Read(num, columns));
    RoundLinesSettled(Read(num, columns));
    ReadWrite(num, show, RoundLines(Read(num, columns)));
  }

  predicate NumbersThere(l: Line) {
    l.count.Some? && l.price.Some? && l.amt.Some?
  }

  ghost predicate AllNumbersThere(lines: seq<Line>) {
    forall j | 0 <= j < |lines| :: NumbersThere(lines[j])
  }

  lemma FilledSettled(l: Line)
    requires SettledLine(l) && NumbersThere(l)
    ensures SettledLine(Filled(l))
  {
  }

  lemma SameTexts(show: Num -> string, l: Line)
    requires NumbersThere(l)
    ensures ToRow(show, Filled(l)) == ToRow(show, l)
  {
    assert Texts(show, Filled(l)) == Texts(show, l);
  }

  lemma SameRowsFilled(show: Num -> string, lines: seq<Line>)
    requires AllNumbersThere(lines)
    ensures ToRows(show, FilledEach(lines)) == ToRows(show, lines)
  {
    forall j | 0 <= j < |lines|
      ensures ToRow(show, Filled(lines[j])) == ToRow(show, lines[j])
    {
      SameTexts(show, lines[j]);
    }
  }

  lemma RoundFilled(lines: seq<Line>)
    requires AllSettled(lines) && AllNumbersThere(lines)
    ensures RoundLines(FilledEach(lines)) == FilledEach(lines)
  {
    forall j | 0 <= j < |lines|
      ensures SettledLine(FilledEach(lines)[j])
    {
      FilledSettled(lines[j]);
    }
    RoundLinesSettled(FilledEach(lines));
  }

  lemma RoundKeepsThere(lines: seq<Line>)
    requires AllNumbersThere(lines)
    ensures AllNumbersThere(RoundLines(lines))
  {
    forall j | 0 <= j < |lines|
      ensures NumbersThere(RoundEach(lines)[j])
    {
      assert NumbersThere(lines[j]);
    }
  }

  /** What a second pass sends, in terms of the lines of the first. */
  lemma SentAgain(num: string -> Num, show: Num -> string, columns: Columns, lines: seq<Line>)
    requires Numerals(num, show) && lines == RoundLines(Read(num, columns))
    ensures RoundInvoice(num, show, columns) == Write(show, lines)
    ensures RoundInvoice(num, show, RoundInvoice(num, show, columns)) == Write(show, RoundLines(FilledEach(lines)))
    ensures AllSettled(lines) && AllWorded(lines)
  {
    ReadWorded(num, columns);
    RoundLinesWorded(Read(num, columns));
    RoundLinesSettled(Read(num, columns));
    SentIsRounded(num, show, columns);
  }

  lemma TwiceWhenThere(num: string -> Num, show: Num -> string, columns: Columns)
    requires Numerals(num, show) && AllNumbersThere(Read(num, columns))
    ensures RoundInvoice(num, show, RoundInvoice(num, show, columns)) == RoundInvoice(num, show, columns)
  {
    var lines := RoundLines(Read(num, columns));
    SentAgain(num, show, columns, lines);
    RoundKeepsThere(Read(num, columns));
    RoundFilled(lines);
    SameRowsFilled(show, lines);
  }

  /** Which of the three numbers is missing. */
  lemma MissingColumn(show: Num -> string, l: Line) returns (k: nat)
    requires !NumbersThere(l)
    ensures 1 <= k <= 3 && Texts(show, RoundLine(l))[k] == ""
  {
    k := if l.count.None? then 1 else if l.price.None? then 2 else 3;
  }

  lemma FilledShown(num: string -> Num, show: Num -> string, l: Line, k: nat)
    requires Numerals(num, show) && 1 <= k <= 3
    ensures Texts(show, RoundLine(Filled(l)))[k] != ""
  {
  }

  lemma DifferentTexts(num: string -> Num, show: Num -> string, a: seq<Line>, b: seq<Line>, k: nat, j: nat)
    requires Numerals(num, show) && AllSettled(a) && AllWorded(a) && AllSettled(b) && AllWorded(b)
    requires k < |KEYS| && j < |a| && j < |b| && Texts(show, a[j])[k] != Texts(show, b[j])[k]
    ensures Write(show, a) != Write(show, b)
  {
    WrittenColumn(num, show, a, k, j);
    WrittenColumn(num, show, b, k, j);
  }

  lemma AgainSettled(lines: seq<Line>)
    requires AllWorded(lines)
    ensures var again := RoundLines(FilledEach(lines)); AllSettled(again) && AllWorded(again) && |again| >= |lines|
    ensures forall j | 0 <= j < |lines| :: RoundLines(FilledEach(lines))[j] == RoundLine(Filled(lines[j]))
  {
    forall j | 0 <= j < |lines|
      ensures Worded(FilledEach(lines)[j])
    {
      assert Worded(lines[j]);
    }
    RoundLinesWorded(FilledEach(lines));
    RoundLinesSettled(FilledEach(lines));
  }

  lemma TwiceOnlyWhenThere(num: string -> Num, show: Num -> string, columns: Columns, j: nat)
    requires Numerals(num, show) && j < |Read(num, columns)| && !NumbersThere(Read(num, columns)[j])
    ensures RoundInvoice(num, show, RoundInvoice(num, show, columns)) != RoundInvoice(num, show, columns)
  {
    var read := Read(num, columns);
    var lines := RoundLines(read);
    SentAgain(num, show, columns, lines);
    AgainSettled(lines);
    var k := MissingColumn(show, read[j]);
    FilledShown(num, show, lines[j], k);
    DifferentTexts(num, show, lines, RoundLines(FilledEach(lines)), k, j);
  }

  // ----- which columns leave a number missing -----

  function Shorter(cols: seq<seq<string>>, n: nat): nat {
    if cols == [] then 0 else Shorter(cols[..|cols| - 1], n) + if |cols[|cols| - 1]| < n then 1 else 0
  }

  lemma {:induction false} AcrossCount(cols: seq<seq<string>>, j: nat)
    ensures |Across(cols, j)| + Shorter(cols, j + 1) == |cols|
  {
    if cols == [] {
    } else {
      AcrossCount(cols[..|cols| - 1], j);
    }
  }

  lemma {:induction false} ShorterGrows(cols: seq<seq<string>>, m: nat, n: nat)
    requires m <= n
    ensures Shorter(cols, m) <= Shorter(cols, n)
  {
    if cols == [] {
    } else {
      ShorterGrows(cols[..|cols| - 1], m, n);
    }
  }

  lemma KeyThereIff(keys: seq<string>, vals: seq<string>, k: nat)
    requires Distinct(keys) && k < |keys|
    ensures keys[k] in ZipObj(keys, vals) <==> k < |vals|
    decreases k
  {
    if k < |vals| {
      ZipObjAt(keys, vals, k);
    } else if vals != [] {
      assert keys[1..][k - 1] == keys[k] && keys[0] != keys[k];
      KeyThereIff(keys[1..], vals[1..], k - 1);
    }
  }

  /** How many columns do not reach as far as the longest. */
  function ShortColumns(columns: Columns): nat {
    Shorter(SplitAll('|', columns), Longest(SplitAll('|', columns)))
  }

  lemma FieldsThereIff(num: string -> Num, vals: seq<string>)
    ensures NumbersThere(ToLine(num, ZipObj(KEYS, vals))) <==> |vals| >= 4
  {
    InvoiceKeys();
    KeyThereIff(KEYS, vals, 1);
    KeyThereIff(KEYS, vals, 2);
    KeyThereIff(KEYS, vals, 3);
  }

  /** Line `j` has the fields that are found across the columns at that place. */
  lemma LineAcross(num: string -> Num, columns: Columns, j: nat) returns (vals: seq<string>)
    requires j < Longest(SplitAll('|', columns))
    ensures vals == Across(SplitAll('|', columns), j)
    ensures |Read(num, columns)| == Longest(SplitAll('|', columns))
    ensures Read(num, columns)[j] == ToLine(num, ZipObj(KEYS, vals))
  {
    vals := Across(SplitAll('|', columns), j);
    InvoiceKeys();
    ParsedRow(KEYS, '|', columns, j);
  }

  lemma CountAcross(columns: Columns, m: pos) returns (short: nat)
    ensures short == Shorter(SplitAll('|', columns), m) && |Across(SplitAll('|', columns), m - 1)| + short == 5
  {
    short := Shorter(SplitAll('|', columns), m);
    AcrossCount(SplitAll('|', columns), m - 1);
  }

  lemma ThereByCount(num: string -> Num, vals: seq<string>, l: Line, short: nat)
    requires l == ToLine(num, ZipObj(KEYS, vals)) && |vals| + short == 5
    ensures NumbersThere(l) <==> short <= 1
  {
    FieldsThereIff(num, vals);
  }

  /** Line number `m` has all its numbers when at most one column is shorter than `m`. */
  lemma NumbersThereIff(num: string -> Num, columns: Columns, m: pos) returns (l: Line)
    requires m <= Longest(SplitAll('|', columns))
    ensures |Read(num, columns)| == Longest(SplitAll('|', columns)) && l == Read(num, columns)[m - 1]
    ensures NumbersThere(l) <==> Shorter(SplitAll('|', columns), m) <= 1
  {
    var vals := LineAcross(num, columns, m - 1);
    l := Read(num, columns)[m - 1];
    var short := CountAcross(columns, m);
    ThereByCount(num, vals, l, short);
  }

  lemma LongestPositive(columns: Columns)
    ensures Longest(SplitAll('|', columns)) > 0
  {
    var cols := SplitAll('|', columns);
    assert 0 < |cols[0]| <= Longest(cols);
  }

  lemma ThereWhenOneShort(num: string -> Num, columns: Columns, j: nat)
    requires ShortColumns(columns) <= 1 && j < Longest(SplitAll('|', columns))
    ensures j < |Read(num, columns)| && NumbersThere(Read(num, columns)[j])
  {
    ShorterGrows(SplitAll('|', columns), j + 1, Longest(SplitAll('|', columns)));
    var _ := NumbersThereIff(num, columns, j + 1);
  }

  lemma AllThereWhenOneShort(num: string -> Num, columns: Columns)
    requires ShortColumns(columns) <= 1
    ensures AllNumbersThere(Read(num, columns))
  {
    LongestPositive(columns);
    var _ := NumbersThereIff(num, columns, 1);
    var read := Read(num, columns);
    forall j | 0 <= j < |read|
      ensures NumbersThere(read[j])
    {
      ThereWhenOneShort(num, columns, j);
    }
  }

  /** The last line has fields of the longest columns only. */
  lemma LastLine(num: string -> Num, columns: Columns) returns (m: pos)
    ensures m <= |Read(num, columns)| && (NumbersThere(Read(num, columns)[m - 1]) <==> ShortColumns(columns) <= 1)
  {
    LongestPositive(columns);
    m := Longest(SplitAll('|', columns));
    var _ := NumbersThereIff(num, columns, m);
  }

  lemma OneShortWhenAllThere(num: string -> Num, columns: Columns)
    requires AllNumbersThere(Read(num, columns))
    ensures ShortColumns(columns) <= 1
  {
    var m := LastLine(num, columns);
    var read := Read(num, columns);
    assert NumbersThere(read[m - 1]);
  }

  /** Sending an invoice through twice is sending it through once exactly when at most one of its columns is short. */
  lemma RoundInvoiceTwiceIff(num: string -> Num, show: Num -> string, columns: Columns)
    requires Numerals(num, show)
    ensures var sent := RoundInvoice(num, show, columns);
            RoundInvoice(num, show, sent) == sent <==> ShortColumns(columns) <= 1
  {
    if AllNumbersThere(Read(num, columns)) {
      OneShortWhenAllThere(num, columns);
      TwiceWhenThere(num, show, columns);
    } else {
      if ShortColumns(columns) <= 1 {
        AllThereWhenOneShort(num, columns);
      }
      var j :| 0 <= j < |Read(num, columns)| && !NumbersThere(Read(num, columns)[j]);
      TwiceOnlyWhenThere(num, show, columns, j);
    }
  }

  // ----- lines with numbers are rows of the list that is rounded -----

  predicate Numeric(l: Line) {
    l.count.Some? && l.count.value.Of? && l.price.Some? && l.price.value.Of?
  }

  ghost predicate AllNumeric(lines: seq<Line>) {
    forall j | 0 <= j < |lines| :: Numeric(lines[j])
  }

  /** An amount that is not a number is computed again like any other. */
  function ToItem(l: Line): Item
    requires Numeric(l)
  {
    Item(TextOf(l.name), l.price.value.x, l.count.value.x,
         if l.amt.Some? then Some(if l.amt.value.Of? then l.amt.value.x else 0.0) else None, l.unit)
  }

  function ToItems(lines: seq<Line>): (r: seq<Item>)
    requires AllNumeric(lines)
    ensures |r| == |lines|
    ensures forall j | 0 <= j < |lines| :: r[j] == ToItem(lines[j])
  {
    if lines == [] then [] else ToItems(lines[..|lines| - 1]) + [ToItem(lines[|lines| - 1])]
  }

  lemma RoundNumeric(l: Line)
    requires Numeric(l)
    ensures Numeric(RoundLine(l)) && ToItem(RoundLine(l)) == RoundItem(PRODUCT_METHODS, ToItem(l))
    ensures LineAmount(l) == Of(Amount(ToItem(l)))
  {
    var r, i := ToItem(RoundLine(l)), RoundItem(PRODUCT_METHODS, ToItem(l));
    assert r.number == i.number && r.quantity == i.quantity;
    if l.amt.Some? {
      assert r.amount == Some(r.amount.value) && i.amount == Some(i.amount.value);
      assert r.amount.value == r.number * r.quantity == i.amount.value;
    }
  }

  lemma {:induction false} TotalNumeric(lines: seq<Line>)
    requires AllNumeric(lines)
    ensures TotalNum(lines) == Of(Total(ToItems(lines)))
  {
    if lines == [] {
    } else {
      var init := lines[..|lines| - 1];
      TotalNumeric(init);
      RoundNumeric(lines[|lines| - 1]);
      assert ToItems(lines)[..|init|] == ToItems(init);
    }
  }

  lemma {:induction false} RoundEachNumeric(lines: seq<Line>)
    requires AllNumeric(lines)
    ensures AllNumeric(RoundEach(lines)) && ToItems(RoundEach(lines)) == RoundItems(PRODUCT_METHODS, ToItems(lines))
  {
    forall j | 0 <= j < |lines|
      ensures Numeric(RoundEach(lines)[j])
    {
      RoundNumeric(lines[j]);
    }
    if lines == [] {
    } else {
      var n := |lines| - 1;
      RoundEachNumeric(lines[..n]);
      RoundNumeric(lines[n]);
      assert RoundEach(lines)[..n] == RoundEach(lines[..n]);
      assert ToItems(lines)[..n] == ToItems(lines[..n]);
    }
  }

  /** Then the totals and the surplus are those of `RoundProductList`. */
  lemma NumericRounded(lines: seq<Line>)
    requires AllNumeric(lines)
    ensures AllNumeric(RoundLines(lines)) && ToItems(RoundLines(lines)) == RoundProductList(ToItems(lines))
  {
    RoundEachNumeric(lines);
    TotalNumeric(lines);
    TotalNumeric(RoundEach(lines));
    assert Difference(lines) == Of(Compensation(PRODUCT_METHODS, ToItems(lines)));
    var c := Difference(lines);
    if c.x > 0.0 {
      ItemsSnoc(RoundEach(lines), SurplusLine(c));
    } else {
      assert RoundLines(lines) == RoundEach(lines);
    }
  }

  lemma ItemsSnoc(lines: seq<Line>, l: Line)
    requires AllNumeric(lines) && Numeric(l)
    ensures AllNumeric(lines + [l]) && ToItems(lines + [l]) == ToItems(lines) + [ToItem(l)]
  {
    assert (lines + [l])[..|lines|] == lines;
  }
}
