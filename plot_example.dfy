/** The ledger of the `gen_data` unit test in src/plot.rs, worked through the
    model: three January entries (two in euro, one in dollars), one February
    entry in dollars, one March entry in euro, charted up to 2020-04-01 with a
    dollar worth three euro. */
module PlotExample {
  import opened Results
  import Dec
  import Db
  import Text
  import opened Plot

  predicate TestLedger(items: seq<Result<Entry, Db.DbError>>)
  {
    items == [Ok(Entry(CalDate(2020, 1, 1), Dec.Decimal(-100, 0), "eur", 't', "description")),
              Ok(Entry(CalDate(2020, 1, 1), Dec.Decimal(-200, 0), "eur", 't', "description")),
              Ok(Entry(CalDate(2020, 1, 2), Dec.Decimal(300, 0), "usd", 't', "description")),
              Ok(Entry(CalDate(2020, 2, 1), Dec.Decimal(-400, 0), "usd", 't', "description")),
              Ok(Entry(CalDate(2020, 3, 1), Dec.Decimal(500, 0), "eur", 't', "description"))]
  }

  predicate TestRates(rates: Rates)
  {
    rates == map["eur" := Dec.Decimal(1, 0), "usd" := Dec.Decimal(3, 0)]
  }

  /** The four rows the test expects, before they are written out. */
  function TestRows(): seq<Row>
  {
    [Row(CalDate(2020, 1, 1), 900.0, -300.0, 600.0, 600.0),
     Row(CalDate(2020, 2, 1), 0.0, -1200.0, -1200.0, -600.0),
     Row(CalDate(2020, 3, 1), 500.0, 0.0, 500.0, -100.0),
     Row(CalDate(2020, 4, 1), 0.0, 0.0, 0.0, -100.0)]
  }

  /** January: the first three entries; 300 dollars are 900 euro in, the two euro amounts 300 out. */
  lemma JanuaryTotal(items: seq<Result<Entry, Db.DbError>>, rates: Rates, d: CalDate)
    requires TestLedger(items) && TestRates(rates) && d == CalDate(2020, 1, 1)
    ensures MonthTotal(items, 0, d, rates) == Ok((3, 900.0, -300.0))
  {
    assert Group(items, 3, d) == 0;
    assert Group(items, 2, d) == 1;
    assert Group(items, 1, d) == 2;
    assert Group(items, 0, d) == 3;
    var es := Values(items, 0, 3);
    assert es == [items[0].value, items[1].value, items[2].value];
    assert TotalWithConversion(es[3..], rates) == Ok((0.0, 0.0));
    assert TotalWithConversion(es[2..], rates) == Ok((900.0, 0.0));
    assert TotalWithConversion(es[1..], rates) == Ok((900.0, -200.0));
    assert TotalWithConversion(es, rates) == Ok((900.0, -300.0));
    MonthTotalAt(items, 0, 3, d, rates);
  }

  /** February: the dollar entry, 1200 euro out. */
  lemma FebruaryTotal(items: seq<Result<Entry, Db.DbError>>, rates: Rates, d: CalDate)
    requires TestLedger(items) && TestRates(rates) && d == CalDate(2020, 2, 1)
    ensures MonthTotal(items, 3, d, rates) == Ok((4, 0.0, -1200.0))
  {
    assert Group(items, 4, d) == 0;
    assert Group(items, 3, d) == 1;
    var es := Values(items, 3, 4);
    assert es == [items[3].value];
    assert TotalWithConversion(es[1..], rates) == Ok((0.0, 0.0));
    assert TotalWithConversion(es, rates) == Ok((0.0, -1200.0));
    MonthTotalAt(items, 3, 4, d, rates);
  }

  /** March: the euro entry, 500 in. */
  lemma MarchTotal(items: seq<Result<Entry, Db.DbError>>, rates: Rates, d: CalDate)
    requires TestLedger(items) && TestRates(rates) && d == CalDate(2020, 3, 1)
    ensures MonthTotal(items, 4, d, rates) == Ok((5, 500.0, 0.0))
  {
    assert Group(items, 5, d) == 0;
    assert Group(items, 4, d) == 1;
    var es := Values(items, 4, 5);
    assert es == [items[4].value];
    assert TotalWithConversion(es[1..], rates) == Ok((0.0, 0.0));
    assert TotalWithConversion(es, rates) == Ok((500.0, 0.0));
    MonthTotalAt(items, 4, 5, d, rates);
  }

  /** April: nothing left to read. */
  lemma AprilTotal(items: seq<Result<Entry, Db.DbError>>, rates: Rates, d: CalDate)
    requires TestLedger(items) && TestRates(rates) && d == CalDate(2020, 4, 1)
    ensures MonthTotal(items, 5, d, rates) == Ok((5, 0.0, 0.0))
  {
    assert Group(items, 5, d) == 0;
    assert Values(items, 5, 5) == [];
    MonthTotalAt(items, 5, 5, d, rates);
  }

  /** The test's ledger charted up to 2020-04-01 gives the four expected rows. */
  lemma TestRowsComputed(items: seq<Result<Entry, Db.DbError>>, rates: Rates, end: CalDate)
    requires TestLedger(items) && TestRates(rates) && end == CalDate(2020, 4, 1)
    ensures GenRows(items, rates, end) == Ok(TestRows())
  {
    var rows := TestRows();
    var d1 := items[0].value.date;
    var d2 := NextMonth(d1);
    var d3 := NextMonth(d2);
    var d4 := NextMonth(d3);
    var d5 := NextMonth(d4);
    assert d5 == CalDate(2020, 5, 1) && !DateLe(d5, end);
    assert MonthRows(items, 5, d5, end, rates, -100.0) == Ok([]);
    AprilTotal(items, rates, d4);
    MonthRowsUnfold(items, 5, 5, d4, end, rates, -100.0, rows[3]);
    MarchTotal(items, rates, d3);
    MonthRowsUnfold(items, 4, 5, d3, end, rates, -600.0, rows[2]);
    FebruaryTotal(items, rates, d2);
    MonthRowsUnfold(items, 3, 4, d2, end, rates, 600.0, rows[1]);
    JanuaryTotal(items, rates, d1);
    MonthRowsUnfold(items, 0, 3, d1, end, rates, 0.0, rows[0]);
    assert rows == [rows[0]] + ([rows[1]] + ([rows[2]] + ([rows[3]] + [])));
  }

  lemma Numeral0(n: nat)
    requires n == 0
    ensures Dec.NatToString(n) == "0"
  {
    assert Dec.DigitChar(0) == '0';
  }

  lemma Numeral2020(n: nat)
    requires n == 2020
    ensures Dec.NatToString(n) == "2020"
  {
    assert Dec.DigitChar(0) == '0' && Dec.DigitChar(2) == '2';
    assert Dec.NatToString(2) == "2";
    assert Dec.NatToString(20) == Dec.NatToString(2) + [Dec.DigitChar(0)];
    assert Dec.NatToString(202) == Dec.NatToString(20) + [Dec.DigitChar(2)];
    assert Dec.NatToString(2020) == Dec.NatToString(202) + [Dec.DigitChar(0)];
  }

  lemma Numeral900(n: nat)
    requires n == 900
    ensures Dec.NatToString(n) == "900"
  {
    assert Dec.DigitChar(0) == '0' && Dec.DigitChar(9) == '9';
    assert Dec.NatToString(9) == "9";
    assert Dec.NatToString(90) == Dec.NatToString(9) + [Dec.DigitChar(0)];
    assert Dec.NatToString(900) == Dec.NatToString(90) + [Dec.DigitChar(0)];
  }

  lemma Numeral300(n: nat)
    requires n == 300
    ensures Dec.NatToString(n) == "300"
  {
    assert Dec.DigitChar(0) == '0' && Dec.DigitChar(3) == '3';
    assert Dec.NatToString(3) == "3";
    assert Dec.NatToString(30) == Dec.NatToString(3) + [Dec.DigitChar(0)];
    assert Dec.NatToString(300) == Dec.NatToString(30) + [Dec.DigitChar(0)];
  }

  lemma Numeral600(n: nat)
    requires n == 600
    ensures Dec.NatToString(n) == "600"
  {
    assert Dec.DigitChar(0) == '0' && Dec.DigitChar(6) == '6';
    assert Dec.NatToString(6) == "6";
    assert Dec.NatToString(60) == Dec.NatToString(6) + [Dec.DigitChar(0)];
    assert Dec.NatToString(600) == Dec.NatToString(60) + [Dec.DigitChar(0)];
  }

  lemma Numeral1200(n: nat)
    requires n == 1200
    ensures Dec.NatToString(n) == "1200"
  {
    assert Dec.DigitChar(0) == '0' && Dec.DigitChar(1) == '1' && Dec.DigitChar(2) == '2';
    assert Dec.NatToString(1) == "1";
    assert Dec.NatToString(12) == Dec.NatToString(1) + [Dec.DigitChar(2)];
    assert Dec.NatToString(120) == Dec.NatToString(12) + [Dec.DigitChar(0)];
    assert Dec.NatToString(1200) == Dec.NatToString(120) + [Dec.DigitChar(0)];
  }

  lemma Numeral500(n: nat)
    requires n == 500
    ensures Dec.NatToString(n) == "500"
  {
    assert Dec.DigitChar(0) == '0' && Dec.DigitChar(5) == '5';
    assert Dec.NatToString(5) == "5";
    assert Dec.NatToString(50) == Dec.NatToString(5) + [Dec.DigitChar(0)];
    assert Dec.NatToString(500) == Dec.NatToString(50) + [Dec.DigitChar(0)];
  }

  lemma Numeral100(n: nat)
    requires n == 100
    ensures Dec.NatToString(n) == "100"
  {
    assert Dec.DigitChar(0) == '0' && Dec.DigitChar(1) == '1';
    assert Dec.NatToString(1) == "1";
    assert Dec.NatToString(10) == Dec.NatToString(1) + [Dec.DigitChar(0)];
    assert Dec.NatToString(100) == Dec.NatToString(10) + [Dec.DigitChar(0)];
  }

  /** A month below ten is written with a leading zero. */
  lemma MonthPadded(m: nat)
    requires 1 <= m <= 9
    ensures Dec.PadDigits(m, 2) == ['0', Dec.DigitChar(m)]
  {
    assert Dec.PadDigits(m / 10, 1) == Dec.PadDigits(0, 0) + [Dec.DigitChar(0)];
  }

  /** A row of whole amounts is written with each amount followed by `.00`. */
  lemma WholeRowText(r: Row)
    requires r.pos == r.pos.Floor as real && r.neg == r.neg.Floor as real
    requires r.net == r.net.Floor as real && r.sum == r.sum.Floor as real
    ensures RowText(r) == WholeLine(IntText(r.date.year), Dec.PadDigits(r.date.month, 2), IntText(r.pos.Floor),
                                    IntText(r.neg.Floor), IntText(r.net.Floor), IntText(r.sum.Floor))
  {
    RowTextFields(r);
    Amount2Whole(r.pos.Floor);
    Amount2Whole(r.neg.Floor);
    Amount2Whole(r.net.Floor);
    Amount2Whole(r.sum.Floor);
  }

  /** The text of a whole-amount row from the texts of its numbers. */
  function WholeLine(year: string, month: string, pos: string, neg: string, net: string, sum: string): string
  {
    year + ("-" + (month + (" " + ((pos + ".00") + (" " + ((neg + ".00") + (" " + ((net + ".00") + (" " + (sum + ".00"))))))))))
  }

  lemma JanuaryLine(year: string, month: string, pos: string, neg: string, net: string, sum: string)
    requires year == "2020" && month == "01" && pos == "900" && neg == "-300" && net == "600" && sum == "600"
    ensures WholeLine(year, month, pos, neg, net, sum) == "2020-01 900.00 -300.00 600.00 600.00"
  {
  }

  lemma FebruaryLine(year: string, month: string, pos: string, neg: string, net: string, sum: string)
    requires year == "2020" && month == "02" && pos == "0" && neg == "-1200" && net == "-1200" && sum == "-600"
    ensures WholeLine(year, month, pos, neg, net, sum) == "2020-02 0.00 -1200.00 -1200.00 -600.00"
  {
  }

  lemma MarchLine(year: string, month: string, pos: string, neg: string, net: string, sum: string)
    requires year == "2020" && month == "03" && pos == "500" && neg == "0" && net == "500" && sum == "-100"
    ensures WholeLine(year, month, pos, neg, net, sum) == "2020-03 500.00 0.00 500.00 -100.00"
  {
  }

  lemma AprilLine(year: string, month: string, pos: string, neg: string, net: string, sum: string)
    requires year == "2020" && month == "04" && pos == "0" && neg == "0" && net == "0" && sum == "-100"
    ensures WholeLine(year, month, pos, neg, net, sum) == "2020-04 0.00 0.00 0.00 -100.00"
  {
  }

  /** The first expected row written as the test's text shows it. */
  lemma JanuaryText(year: int, month: Month, pos: int, neg: int, net: int, sum: int)
    requires year == 2020 && month == 1 && pos == 900 && neg == -300 && net == 600 && sum == 600
    ensures IntText(year) == "2020" && Dec.PadDigits(month, 2) == "01"
    ensures IntText(pos) == "900" && IntText(neg) == "-300" && IntText(net) == "600" && IntText(sum) == "600"
  {
    Numeral2020(year);
    MonthPadded(month);
    Numeral900(pos);
    Numeral300(-neg);
    Numeral600(net);
    Numeral600(sum);
  }

  /** The second expected row written as the test's text shows it. */
  lemma FebruaryText(year: int, month: Month, pos: int, neg: int, net: int, sum: int)
    requires year == 2020 && month == 2 && pos == 0 && neg == -1200 && net == -1200 && sum == -600
    ensures IntText(year) == "2020" && Dec.PadDigits(month, 2) == "02"
    ensures IntText(pos) == "0" && IntText(neg) == "-1200" && IntText(net) == "-1200" && IntText(sum) == "-600"
  {
    Numeral2020(year);
    MonthPadded(month);
    Numeral0(pos);
    Numeral1200(-neg);
    Numeral1200(-net);
    Numeral600(-sum);
  }

  /** The third expected row written as the test's text shows it. */
  lemma MarchText(year: int, month: Month, pos: int, neg: int, net: int, sum: int)
    requires year == 2020 && month == 3 && pos == 500 && neg == 0 && net == 500 && sum == -100
    ensures IntText(year) == "2020" && Dec.PadDigits(month, 2) == "03"
    ensures IntText(pos) == "500" && IntText(neg) == "0" && IntText(net) == "500" && IntText(sum) == "-100"
  {
    Numeral2020(year);
    MonthPadded(month);
    Numeral500(pos);
    Numeral0(neg);
    Numeral500(net);
    Numeral100(-sum);
  }

  /** The fourth expected row written as the test's text shows it. */
  lemma AprilText(year: int, month: Month, pos: int, neg: int, net: int, sum: int)
    requires year == 2020 && month == 4 && pos == 0 && neg == 0 && net == 0 && sum == -100
    ensures IntText(year) == "2020" && Dec.PadDigits(month, 2) == "04"
    ensures IntText(pos) == "0" && IntText(neg) == "0" && IntText(net) == "0" && IntText(sum) == "-100"
  {
    Numeral2020(year);
    MonthPadded(month);
    Numeral0(pos);
    Numeral0(neg);
    Numeral0(net);
    Numeral100(-sum);
  }

  lemma JanuaryRow(r: Row)
    requires r.date.year == 2020 && r.date.month == 1
    requires r.pos == 900.0 && r.neg == -300.0 && r.net == 600.0 && r.sum == 600.0
    ensures RowText(r) == "2020-01 900.00 -300.00 600.00 600.00"
  {
    WholeRowText(r);
    JanuaryText(r.date.year, r.date.month, r.pos.Floor, r.neg.Floor, r.net.Floor, r.sum.Floor);
    JanuaryLine(IntText(r.date.year), Dec.PadDigits(r.date.month, 2), IntText(r.pos.Floor),
              IntText(r.neg.Floor), IntText(r.net.Floor), IntText(r.sum.Floor));
  }

  lemma FebruaryRow(r: Row)
    requires r.date.year == 2020 && r.date.month == 2
    requires r.pos == 0.0 && r.neg == -1200.0 && r.net == -1200.0 && r.sum == -600.0
    ensures RowText(r) == "2020-02 0.00 -1200.00 -1200.00 -600.00"
  {
    WholeRowText(r);
    FebruaryText(r.date.year, r.date.month, r.pos.Floor, r.neg.Floor, r.net.Floor, r.sum.Floor);
    FebruaryLine(IntText(r.date.year), Dec.PadDigits(r.date.month, 2), IntText(r.pos.Floor),
              IntText(r.neg.Floor), IntText(r.net.Floor), IntText(r.sum.Floor));
  }

  lemma MarchRow(r: Row)
    requires r.date.year == 2020 && r.date.month == 3
    requires r.pos == 500.0 && r.neg == 0.0 && r.net == 500.0 && r.sum == -100.0
    ensures RowText(r) == "2020-03 500.00 0.00 500.00 -100.00"
  {
    WholeRowText(r);
    MarchText(r.date.year, r.date.month, r.pos.Floor, r.neg.Floor, r.net.Floor, r.sum.Floor);
    MarchLine(IntText(r.date.year), Dec.PadDigits(r.date.month, 2), IntText(r.pos.Floor),
              IntText(r.neg.Floor), IntText(r.net.Floor), IntText(r.sum.Floor));
  }

  lemma AprilRow(r: Row)
    requires r.date.year == 2020 && r.date.month == 4
    requires r.pos == 0.0 && r.neg == 0.0 && r.net == 0.0 && r.sum == -100.0
    ensures RowText(r) == "2020-04 0.00 0.00 0.00 -100.00"
  {
    WholeRowText(r);
    AprilText(r.date.year, r.date.month, r.pos.Floor, r.neg.Floor, r.net.Floor, r.sum.Floor);
    AprilLine(IntText(r.date.year), Dec.PadDigits(r.date.month, 2), IntText(r.pos.Floor),
              IntText(r.neg.Floor), IntText(r.net.Floor), IntText(r.sum.Floor));
  }

  /** Four rows are written as their four lines, each ended by a line feed. */
  lemma FourRowsOutput(items: seq<Result<Entry, Db.DbError>>, rates: Rates, end: CalDate, rows: seq<Row>,
                       t0: string, t1: string, t2: string, t3: string)
    requires GenRows(items, rates, end) == Ok(rows) && |rows| == 4
    requires RowText(rows[0]) == t0 && RowText(rows[1]) == t1 && RowText(rows[2]) == t2 && RowText(rows[3]) == t3
    ensures GenDataSpec(items, rates, end) == Ok(t0 + "\n" + (t1 + "\n" + (t2 + "\n" + (t3 + "\n"))))
  {
    RowTextsFour(rows);
    UnlinesFour(RowTexts(rows));
    assert GenDataSpec(items, rates, end) == Ok("" + Render(rows));
    assert "" + Render(rows) == Render(rows);
  }

  lemma RowTextsFour(rows: seq<Row>)
    requires |rows| == 4
    ensures RowTexts(rows) == [RowText(rows[0]), RowText(rows[1]), RowText(rows[2]), RowText(rows[3])]
  {
    assert RowTexts(rows[4..]) == [];
    assert RowTexts(rows[3..]) == [RowText(rows[3])] + RowTexts(rows[4..]) by { assert rows[3..][1..] == rows[4..]; }
    assert RowTexts(rows[2..]) == [RowText(rows[2])] + RowTexts(rows[3..]) by { assert rows[2..][1..] == rows[3..]; }
    assert RowTexts(rows[1..]) == [RowText(rows[1])] + RowTexts(rows[2..]) by { assert rows[1..][1..] == rows[2..]; }
    assert RowTexts(rows) == [RowText(rows[0])] + RowTexts(rows[1..]);
  }

  lemma UnlinesFour(ls: seq<string>)
    requires |ls| == 4
    ensures Text.Unlines(ls) == ls[0] + "\n" + (ls[1] + "\n" + (ls[2] + "\n" + (ls[3] + "\n")))
  {
    assert Text.Unlines(ls[4..]) == "";
    assert Text.Unlines(ls[3..]) == ls[3] + "\n" + Text.Unlines(ls[4..]) by { assert ls[3..][1..] == ls[4..]; }
    assert Text.Unlines(ls[2..]) == ls[2] + "\n" + Text.Unlines(ls[3..]) by { assert ls[2..][1..] == ls[3..]; }
    assert Text.Unlines(ls[1..]) == ls[1] + "\n" + Text.Unlines(ls[2..]) by { assert ls[1..][1..] == ls[2..]; }
    assert ls[3] + "\n" + "" == ls[3] + "\n";
  }

  /** `gen_data` on the test's ledger writes exactly the four lines the test
      expects, each ended by a line feed. */
  lemma TestOutput(items: seq<Result<Entry, Db.DbError>>, rates: Rates, end: CalDate)
    requires TestLedger(items) && TestRates(rates) && end == CalDate(2020, 4, 1)
    ensures GenDataSpec(items, rates, end)
            == Ok("2020-01 900.00 -300.00 600.00 600.00" + "\n"
                  + ("2020-02 0.00 -1200.00 -1200.00 -600.00" + "\n"
                  + ("2020-03 500.00 0.00 500.00 -100.00" + "\n"
                  + ("2020-04 0.00 0.00 0.00 -100.00" + "\n"))))
  {
    TestRowsComputed(items, rates, end);
    var rows := TestRows();
    JanuaryRow(rows[0]);
    FebruaryRow(rows[1]);
    MarchRow(rows[2]);
    AprilRow(rows[3]);
    FourRowsOutput(items, rates, end, rows, "2020-01 900.00 -300.00 600.00 600.00", "2020-02 0.00 -1200.00 -1200.00 -600.00",
                   "2020-03 500.00 0.00 500.00 -100.00", "2020-04 0.00 0.00 0.00 -100.00");
  }

  /** `total_with_conversion` over the whole ledger: 1400 euro in, 1500 out. */
  lemma TestTotal(items: seq<Result<Entry, Db.DbError>>, rates: Rates)
    requires TestLedger(items) && TestRates(rates)
    ensures TotalWithConversion(Values(items, 0, 5), rates) == Ok((1400.0, -1500.0))
  {
    var es := Values(items, 0, 5);
    assert es == [items[0].value, items[1].value, items[2].value, items[3].value, items[4].value];
    assert TotalWithConversion(es[5..], rates) == Ok((0.0, 0.0));
    assert TotalWithConversion(es[4..], rates) == Ok((500.0, 0.0));
    assert TotalWithConversion(es[3..], rates) == Ok((500.0, -1200.0));
    assert TotalWithConversion(es[2..], rates) == Ok((1400.0, -1200.0));
    assert TotalWithConversion(es[1..], rates) == Ok((1400.0, -1400.0));
  }
}
