/** The mapping from the European Central Bank's daily reference-rate CSV to a
    list of currencies (src/net.rs, `parse_csv`): the header row gives the
    currency codes, the first record the rates. Downloading and unpacking the
    file is outside this model. */
module Net {
  import opened Results
  import opened Text
  import opened Dec
  import Db

  /** Failures of `parse_csv` (the last three are panics in the Rust code). */
  datatype NetError =
    | Csv(reason: string)          // the header row cannot be read
    | NoRecord                     // there is no record after the headers
    | ShortName(name: string)      // a kept header shorter than three bytes
    | InvalidRate(field: string)   // a kept field that is not a decimal numeral

  /** What the CSV reader gives as the first record: none at all, one it fails
      to read, or its fields. */
  datatype FirstRecord = Missing | Unreadable(reason: string) | Record(fields: seq<string>)

  /** A header as it is compared and used: trimmed, then lower-cased. */
  function Normalize(h: string): string
  {
    ToLower(Trim(h))
  }

  /** A normalised header has no upper-case ASCII letter and no white space at either end. */
  lemma NormalizeForm(h: string)
    ensures forall k :: 0 <= k < |Normalize(h)| ==> !('A' <= Normalize(h)[k] <= 'Z')
    ensures Normalize(h) == [] || (!IsWhitespace(Normalize(h)[0]) && !IsWhitespace(Normalize(h)[|Normalize(h)| - 1]))
  {
    var t := Trim(h);
    assert t == [] || (!IsWhitespace(LowerChar(t[0])) && !IsWhitespace(LowerChar(t[|t| - 1])));
  }

  /** Columns that become currencies: not empty, and not the date. */
  predicate Wanted(k: string)
  {
    k != "" && k != "date"
  }

  /** The normalised headers paired position by position with the record's
      fields, as far as both go, keeping only the wanted columns. */
  function Columns(headers: seq<string>, fields: seq<string>): (cols: seq<(string, string)>)
    ensures |cols| <= |headers| && |cols| <= |fields|
    ensures forall i :: 0 <= i < |cols| ==> Wanted(cols[i].0)
  {
    if headers == [] || fields == [] then []
    else Keep(headers[0], fields[0]) + Columns(headers[1..], fields[1..])
  }

  /** The column of one header and its field, if it is wanted. */
  function Keep(h: string, f: string): (cols: seq<(string, string)>)
  {
    if Wanted(Normalize(h)) then [(Normalize(h), f)] else []
  }

  /** One kept column as a currency: the first three bytes of its header, and
      the decimal of its trimmed field. */
  function ColumnCurrency(col: (string, string)): (r: Result<Db.Currency, NetError>)
    ensures r.Ok? ==> |col.0| >= 3 && r.value.name == col.0[..3]
                      && ParseDecimal(Trim(col.1)) == Some(r.value.toEur)
    ensures r.Err? ==> r.error == (if |col.0| < 3 then ShortName(col.0) else InvalidRate(Trim(col.1)))
  {
    var (k, v) := col;
    if |k| < 3 then Err(ShortName(k))
    else
      match ParseDecimal(Trim(v))
      case None => Err(InvalidRate(Trim(v)))
      case Some(d) => Ok(Db.Currency(k[..3], d))
  }

  /** `parse_csv`: a currency per kept column, in column order, or the error of
      the first column that does not convert. A first record that cannot be
      read counts as an empty one. */
  function ParseCsv(headers: Result<seq<string>, string>, first: FirstRecord): Result<seq<Db.Currency>, NetError>
  {
    if headers.Err? then Err(Csv(headers.error))
    else if first.Missing? then Err(NoRecord)
    else
      var fields := if first.Record? then first.fields else [];
      var cols := Columns(headers.value, fields);
      Db.ParseAll(seq(|cols|, i requires 0 <= i < |cols| => ColumnCurrency(cols[i])))
  }

  /** Every column comes from one position within both rows, and has the
      normalised header there. */
  lemma {:induction false} ColumnsFromPositions(headers: seq<string>, fields: seq<string>)
    ensures forall c :: c in Columns(headers, fields) ==>
              exists j :: 0 <= j < |headers| && j < |fields|
                          && c == (Normalize(headers[j]), fields[j])
  {
    if headers != [] && fields != [] {
      ColumnsFromPositions(headers[1..], fields[1..]);
      forall c | c in Columns(headers, fields)
        ensures exists j :: 0 <= j < |headers| && j < |fields| && c == (Normalize(headers[j]), fields[j])
      {
        if c in Columns(headers[1..], fields[1..]) {
          var j :| 0 <= j < |headers[1..]| && j < |fields[1..]|
                   && c == (Normalize(headers[1..][j]), fields[1..][j]);
          assert c == (Normalize(headers[j + 1]), fields[j + 1]);
        } else {
          assert c == (Normalize(headers[0]), fields[0]);
        }
      }
    }
  }

  /** Every position within both rows whose normalised header is wanted gives a column. */
  lemma {:induction false} ColumnsKeepWanted(headers: seq<string>, fields: seq<string>)
    ensures forall j :: 0 <= j < |headers| && j < |fields| && Wanted(Normalize(headers[j])) ==>
              (Normalize(headers[j]), fields[j]) in Columns(headers, fields)
  {
    if headers != [] && fields != [] {
      ColumnsKeepWanted(headers[1..], fields[1..]);
      forall j | 0 <= j < |headers| && j < |fields| && Wanted(Normalize(headers[j]))
        ensures (Normalize(headers[j]), fields[j]) in Columns(headers, fields)
      {
        if j > 0 {
          assert headers[j] == headers[1..][j - 1] && fields[j] == fields[1..][j - 1];
        }
      }
    }
  }

  /** The columns keep the order of the rows: one more position at the end adds
      at most its own column, at the end. */
  lemma {:induction false} ColumnsSnoc(headers: seq<string>, fields: seq<string>, h: string, f: string)
    requires |headers| == |fields|
    ensures Columns(headers + [h], fields + [f]) == Columns(headers, fields) + Keep(h, f)
  {
    if headers == [] {
      assert Columns([h], [f]) == Keep(h, f) + Columns([], []);
    } else {
      assert (headers + [h])[1..] == headers[1..] + [h];
      assert (fields + [f])[1..] == fields[1..] + [f];
      ColumnsSnoc(headers[1..], fields[1..], h, f);
    }
  }

  /** Fields of the record beyond the last header are ignored. */
  lemma {:induction false} ColumnsExtraFields(headers: seq<string>, fields: seq<string>, more: seq<string>)
    requires |headers| <= |fields|
    ensures Columns(headers, fields + more) == Columns(headers, fields)
  {
    if headers != [] {
      assert (fields + more)[1..] == fields[1..] + more;
      ColumnsExtraFields(headers[1..], fields[1..], more);
    }
  }

  /** Headers beyond the last field of the record are ignored. */
  lemma {:induction false} ColumnsExtraHeaders(headers: seq<string>, more: seq<string>, fields: seq<string>)
    requires |fields| <= |headers|
    ensures Columns(headers + more, fields) == Columns(headers, fields)
  {
    if fields != [] {
      assert (headers + more)[1..] == headers[1..] + more;
      ColumnsExtraHeaders(headers[1..], more, fields[1..]);
    }
  }

  /** What `ParseCsv` returns once the header row and a record are read: a
      currency per kept column in order, or the first failing column's error. */
  lemma ParseCsvSpec(headers: seq<string>, fields: seq<string>)
    ensures var cols := Columns(headers, fields);
            var r := ParseCsv(Ok(headers), Record(fields));
            && (r.Ok? <==> forall i :: 0 <= i < |cols| ==> ColumnCurrency(cols[i]).Ok?)
            && (r.Ok? ==> |r.value| == |cols| && forall i :: 0 <= i < |cols| ==> ColumnCurrency(cols[i]) == Ok(r.value[i]))
            && (r.Err? ==> exists i :: && 0 <= i < |cols| && ColumnCurrency(cols[i]) == Err(r.error)
                                       && forall j :: 0 <= j < i ==> ColumnCurrency(cols[j]).Ok?)
  {
    var cols := Columns(headers, fields);
    var rs := seq(|cols|, i requires 0 <= i < |cols| => ColumnCurrency(cols[i]));
    var r := Db.ParseAll(rs);
    assert ParseCsv(Ok(headers), Record(fields)) == r;
    if r.Ok? {
      forall i | 0 <= i < |cols| ensures ColumnCurrency(cols[i]) == Ok(r.value[i]) {
        assert rs[i] == ColumnCurrency(cols[i]);
      }
    } else {
      var i :| 0 <= i < |rs| && rs[i] == Err(r.error) && forall j :: 0 <= j < i ==> rs[j].Ok?;
      assert rs[i] == ColumnCurrency(cols[i]);
      forall j | 0 <= j < i ensures ColumnCurrency(cols[j]).Ok? {
        assert rs[j] == ColumnCurrency(cols[j]);
      }
      assert !(forall k :: 0 <= k < |cols| ==> ColumnCurrency(cols[k]).Ok?);
    }
  }

  /** The error paths before any column is looked at. */
  lemma ParseCsvNoInput(headers: seq<string>, e: string, reason: string)
    ensures ParseCsv(Err(e), Missing) == Err(Csv(e))
    ensures ParseCsv(Ok(headers), Missing) == Err(NoRecord)
    ensures ParseCsv(Ok(headers), Unreadable(reason)) == Ok([])
  {
    assert Columns(headers, []) == [];
  }
}
