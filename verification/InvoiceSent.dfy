/**
 What an invoice that is issued directly sends, field by field: each text of the five columns that are sent, told from
 the texts of the caller's columns.
 */
module InvoiceSent {
  import opened Prelude
  import opened Joined
  import opened LineCodec
  import opened InvoicePipeline

  /** Text `j` of a column, nothing beyond its end. */
  function Part(column: string, j: nat): string {
    var parts := Split(column, '|');
    if j < |parts| then parts[j] else ""
  }

  function Parts(column: string): nat {
    |Split(column, '|')|
  }

  /** The caller's columns all have `n` fields. */
  ghost predicate Even(columns: Columns, n: nat) {
    EvenColumns(columns, '|', n)
  }

  /** The next whole number, if it is a number at all. */
  ghost predicate Up(a: Num, b: Num) {
    if a.Of? then b.Of? && b.x == b.x.Floor as real && a.x <= b.x < a.x + 1.0 else b.NaN?
  }

  lemma CeilIsUp(a: Num)
    ensures Up(a, CeilNum(a))
  {
  }

  /** The sum of prices times counts, and that with both rounded up. Counts are in column 1, prices in column 2. */
  function RawSum(num: string -> Num, columns: Columns, n: nat): real {
    if n == 0 then 0.0
    else
      var count, price := num(Part(columns[1], n - 1)), num(Part(columns[2], n - 1));
      RawSum(num, columns, n - 1) + if count.Of? && price.Of? then price.x * count.x else 0.0
  }

  function UpSum(num: string -> Num, columns: Columns, n: nat): int {
    if n == 0 then 0
    else
      var count, price := num(Part(columns[1], n - 1)), num(Part(columns[2], n - 1));
      UpSum(num, columns, n - 1) + if count.Of? && price.Of? then Ceil(price.x) * Ceil(count.x) else 0
  }

  predicate NumbersAt(num: string -> Num, columns: Columns, j: nat) {
    num(Part(columns[1], j)).Of? && num(Part(columns[2], j)).Of?
  }

  ghost predicate AllNumbers(num: string -> Num, columns: Columns, n: nat) {
    forall j: nat | j < n :: NumbersAt(num, columns, j)
  }

  // ----- the lines that are read -----

  function LineOf(num: string -> Num, columns: Columns, j: nat): Line {
    Line(Some(Part(columns[0], j)), Some(num(Part(columns[1], j))), Some(num(Part(columns[2], j))),
         Some(num(Part(columns[3], j))), Some(Part(columns[4], j)))
  }

  /** The lines of the columns. */
  ghost predicate LinesOf(num: string -> Num, columns: Columns, n: nat, lines: seq<Line>) {
    |lines| == n && forall j: nat | j < n :: lines[j] == LineOf(num, columns, j)
  }

  lemma FiveFields(num: string -> Num, vals: seq<string>)
    requires |vals| == 5
    ensures ToLine(num, ZipObj(KEYS, vals))
            == Line(Some(vals[0]), Some(num(vals[1])), Some(num(vals[2])), Some(num(vals[3])), Some(vals[4]))
  {
    InvoiceKeys();
    ZipObjAt(KEYS, vals, 0);
    ZipObjAt(KEYS, vals, 1);
    ZipObjAt(KEYS, vals, 2);
    ZipObjAt(KEYS, vals, 3);
    ZipObjAt(KEYS, vals, 4);
  }

  lemma EvenAcross(columns: Columns, n: nat, j: nat)
    requires Even(columns, n) && j < n
    ensures Longest(SplitAll('|', columns)) == n && |Across(SplitAll('|', columns), j)| == 5
    ensures forall k | 0 <= k < 5 :: Across(SplitAll('|', columns), j)[k] == Part(columns[k], j)
  {
    EvenLongest(columns, '|', n);
    AcrossEven(SplitAll('|', columns), n, j);
  }

  lemma ReadEven(num: string -> Num, columns: Columns, n: nat, j: nat)
    requires Even(columns, n) && j < n
    ensures |Read(num, columns)| == n && Read(num, columns)[j] == LineOf(num, columns, j)
  {
    EvenAcross(columns, n, j);
    var vals := LineAcross(num, columns, j);
    FiveFields(num, vals);
  }

  lemma EvenRead(num: string -> Num, columns: Columns, n: nat) returns (lines: seq<Line>)
    requires Even(columns, n)
    ensures n > 0 && lines == Read(num, columns) && LinesOf(num, columns, n, lines)
  {
    lines := Read(num, columns);
    EvenLongest(columns, '|', n);
    ReadEven(num, columns, n, 0);
    forall j: nat | j < n
      ensures lines[j] == LineOf(num, columns, j)
    {
      ReadEven(num, columns, n, j);
    }
  }

  lemma AmountUp(l: Line, price: real, count: real)
    requires l.price == Some(Of(price)) && l.count == Some(Of(count))
    ensures LineAmount(l) == Of(price * count)
    ensures LineAmount(RoundLine(l)) == Of((Ceil(price) * Ceil(count)) as real)
  {
  }

  lemma AmountAt(num: string -> Num, columns: Columns, j: nat)
    requires NumbersAt(num, columns, j)
    ensures LineAmount(LineOf(num, columns, j)) == Of(RawSum(num, columns, j + 1) - RawSum(num, columns, j))
    ensures LineAmount(RoundLine(LineOf(num, columns, j)))
            == Of((UpSum(num, columns, j + 1) - UpSum(num, columns, j)) as real)
  {
    var l := LineOf(num, columns, j);
    AmountUp(l, l.price.value.x, l.count.value.x);
  }

  lemma TotalStep(lines: seq<Line>, m: nat)
    requires m < |lines|
    ensures TotalNum(lines[..m + 1]) == Plus(TotalNum(lines[..m]), LineAmount(lines[m]))
  {
    assert lines[..m + 1][..m] == lines[..m];
  }

  lemma {:induction false} RawTotal(num: string -> Num, columns: Columns, n: nat, lines: seq<Line>, m: nat)
    requires LinesOf(num, columns, n, lines) && m <= n && AllNumbers(num, columns, n)
    ensures TotalNum(lines[..m]) == Of(RawSum(num, columns, m))
  {
    if m > 0 {
      RawTotal(num, columns, n, lines, m - 1);
      assert NumbersAt(num, columns, m - 1);
      AmountAt(num, columns, m - 1);
      TotalStep(lines, m - 1);
    }
  }

  lemma {:induction false} UpTotal(num: string -> Num, columns: Columns, n: nat, lines: seq<Line>, m: nat)
    requires LinesOf(num, columns, n, lines) && m <= n && AllNumbers(num, columns, n)
    ensures TotalNum(RoundEach(lines)[..m]) == Of(UpSum(num, columns, m) as real)
  {
    if m > 0 {
      UpTotal(num, columns, n, lines, m - 1);
      assert NumbersAt(num, columns, m - 1);
      AmountAt(num, columns, m - 1);
      TotalStep(RoundEach(lines), m - 1);
    }
  }

  lemma {:induction false} SomeNaN(lines: seq<Line>, j: nat)
    requires j < |lines| && LineAmount(lines[j]) == NaN
    ensures TotalNum(lines) == NaN
  {
    if j < |lines| - 1 {
      SomeNaN(lines[..|lines| - 1], j);
    }
  }

  /** The surplus of rounding, and that there is none when something is not a number. */
  lemma DifferenceIs(num: string -> Num, columns: Columns, n: nat, lines: seq<Line>)
    requires LinesOf(num, columns, n, lines)
    ensures Difference(lines) == if AllNumbers(num, columns, n)
                                 then Of((UpSum(num, columns, n) - Round(RawSum(num, columns, n))) as real) else NaN
  {
    if AllNumbers(num, columns, n) {
      RawTotal(num, columns, n, lines, n);
      UpTotal(num, columns, n, lines, n);
      assert lines[..n] == lines && RoundEach(lines)[..n] == RoundEach(lines);
    } else {
      var j: nat :| j < n && !NumbersAt(num, columns, j);
      assert lines[j] == LineOf(num, columns, j);
      SomeNaN(lines, j);
    }
  }

  // ----- the columns that are sent -----

  /** The lines that are sent. */
  lemma LinesSent(num: string -> Num, show: Num -> string, columns: Columns) returns (lines: seq<Line>)
    requires Numerals(num, show)
    ensures lines == RoundLines(Read(num, columns)) && RoundInvoice(num, show, columns) == Write(show, lines)
    ensures AllSettled(lines) && AllWorded(lines)
  {
    lines := RoundLines(Read(num, columns));
    ReadWorded(num, columns);
    RoundLinesWorded(Read(num, columns));
    RoundLinesSettled(Read(num, columns));
  }

  lemma PartWritten(num: string -> Num, show: Num -> string, lines: seq<Line>, k: nat, j: nat)
    requires Numerals(num, show) && AllSettled(lines) && AllWorded(lines) && k < 5 && j < |lines|
    ensures Parts(Write(show, lines)[k]) == |lines| && Part(Write(show, lines)[k], j) == Texts(show, lines[j])[k]
  {
    WrittenColumn(num, show, lines, k, j);
  }

  lemma SentPart(num: string -> Num, show: Num -> string, columns: Columns, k: nat, j: nat)
    requires Numerals(num, show) && k < 5 && j < |RoundLines(Read(num, columns))|
    ensures Parts(RoundInvoice(num, show, columns)[k]) == |RoundLines(Read(num, columns))|
    ensures Part(RoundInvoice(num, show, columns)[k], j) == Texts(show, RoundLines(Read(num, columns))[j])[k]
  {
    var lines := LinesSent(num, show, columns);
    PartWritten(num, show, lines, k, j);
  }

  /** The five texts of a line with a name, a unit, and numbers rounded up from these. */
  ghost predicate RoundedTexts(show: Num -> string, texts: seq<string>, name: string, count: Num, price: Num,
                               unit: string) {
    && |texts| == 5 && texts[0] == name && texts[4] == unit
    && exists up, up' :: Up(count, up) && Up(price, up') && texts[1] == show(up) && texts[2] == show(up')
                         && texts[3] == show(if up.Of? && up'.Of? then Of(up'.x * up.x) else NaN)
  }

  lemma RoundLineTexts(show: Num -> string, name: string, count: Num, price: Num, amt: Num, unit: string)
    ensures var l := Line(Some(name), Some(count), Some(price), Some(amt), Some(unit));
            RoundedTexts(show, Texts(show, RoundLine(l)), name, count, price, unit)
  {
    CeilIsUp(count);
    CeilIsUp(price);
    var texts := Texts(show, RoundLine(Line(Some(name), Some(count), Some(price), Some(amt), Some(unit))));
    var up, up' := CeilNum(count), CeilNum(price);
    assert texts[1] == show(up) && texts[2] == show(up') && texts[3] == show(Times(up', up));
  }

  /** The five texts at place `j`. */
  function PartsAt(columns: Columns, j: nat): seq<string> {
    [Part(columns[0], j), Part(columns[1], j), Part(columns[2], j), Part(columns[3], j), Part(columns[4], j)]
  }

  lemma PartsSent(num: string -> Num, show: Num -> string, columns: Columns, n: nat, j: nat)
    requires Numerals(num, show) && Even(columns, n) && j < n
    ensures PartsAt(RoundInvoice(num, show, columns), j) == Texts(show, RoundLine(LineOf(num, columns, j)))
  {
    ReadEven(num, columns, n, j);
    var texts := Texts(show, RoundLine(LineOf(num, columns, j)));
    forall k | 0 <= k < 5
      ensures Part(RoundInvoice(num, show, columns)[k], j) == texts[k]
    {
      SentPart(num, show, columns, k, j);
    }
  }

  /**
   From columns with equally many fields: each line is sent in its place with its own name and unit, with count and
   price rounded up, and with their product for an amount whatever amount was given. What is not a number stays none.
   */
  lemma LineSent(num: string -> Num, show: Num -> string, columns: Columns, n: nat, j: nat)
    requires Numerals(num, show) && Even(columns, n) && j < n
    ensures RoundedTexts(show, PartsAt(RoundInvoice(num, show, columns), j), Part(columns[0], j),
                         num(Part(columns[1], j)), num(Part(columns[2], j)), Part(columns[4], j))
  {
    PartsSent(num, show, columns, n, j);
    RoundLineTexts(show, Part(columns[0], j), num(Part(columns[1], j)), num(Part(columns[2], j)),
                   num(Part(columns[3], j)), Part(columns[4], j));
  }

  /** By how much the list exceeds its rounded sum when everything is rounded up. */
  function Extra(num: string -> Num, columns: Columns, n: nat): int {
    UpSum(num, columns, n) - Round(RawSum(num, columns, n))
  }

  /** One more line than the caller gave: the surplus, once. */
  ghost predicate SurplusTexts(show: Num -> string, texts: seq<string>, extra: int) {
    texts == ["\U{5316}\U{6574}\U{6EA2}\U{50F9}\U{88DC}\U{511F}", show(Of(1.0)), show(Of(extra as real)),
              show(Of(extra as real)), "\U{7B46}"]
  }

  /**
   One more line is sent exactly when all counts and prices are numbers and there is something extra: that, once, as
   price and as amount. No column has anything else.
   */
  lemma SurplusSent(num: string -> Num, show: Num -> string, columns: Columns, n: nat)
    requires Numerals(num, show) && Even(columns, n)
    ensures var sent, extra := RoundInvoice(num, show, columns), Extra(num, columns, n);
            var more := AllNumbers(num, columns, n) && extra > 0;
            && (forall k | 0 <= k < 5 :: Parts(sent[k]) == if more then n + 1 else n)
            && (more ==> SurplusTexts(show, PartsAt(sent, n), extra))
  {
    var lines := EvenRead(num, columns, n);
    DifferenceIs(num, columns, n, lines);
    var more := AllNumbers(num, columns, n) && Extra(num, columns, n) > 0;
    assert |RoundLines(lines)| == if more then n + 1 else n;
    forall k | 0 <= k < 5
      ensures Parts(RoundInvoice(num, show, columns)[k]) == |RoundLines(lines)|
    {
      SentPart(num, show, columns, k, 0);
    }
    if more {
      SurplusParts(num, show, columns, Extra(num, columns, n));
    }
  }

  lemma SurplusParts(num: string -> Num, show: Num -> string, columns: Columns, extra: int)
    requires Numerals(num, show) && Difference(Read(num, columns)) == Of(extra as real) && extra > 0
    ensures SurplusTexts(show, PartsAt(RoundInvoice(num, show, columns), |Read(num, columns)|), extra)
  {
    var n, c := |Read(num, columns)|, Of(extra as real);
    assert RoundLines(Read(num, columns))[n] == SurplusLine(c);
    forall k | 0 <= k < 5
      ensures Part(RoundInvoice(num, show, columns)[k], n) == Texts(show, SurplusLine(c))[k]
    {
      SentPart(num, show, columns, k, n);
    }
  }
}
