/** The ledger itself (src/db.rs): the entry line format, the set of currencies
    of a ledger, and reading every ledger file under a directory tree. */
module Db {
  import opened Results
  import opened Text
  import opened Dec
  import opened Fs

  /** A three-byte currency code such as "usd" (`[u8; 3]`). */
  type Code = s: string | |s| == 3 witness "eur"

  /** A currency and what one unit of it is worth in euro (`db::Currency`). */
  datatype Currency = Currency(name: Code, toEur: Decimal)

  /** One ledger line: `date` is kept as written, `amount` is the numeral as written. */
  datatype Entry = Entry(date: string, amount: Decimal, currency: Code, tag: char, text: string)

  /** The ways `Entry::from_line` fails (each one a panic in the Rust code). */
  datatype ParseError =
    | MissingAmount                 // no second field
    | ShortAmount(field: string)    // second field shorter than its currency
    | MissingTag                    // third field absent or empty
    | InvalidDecimal(field: string) // amount is not a decimal numeral
    | MissingText                   // line ends before the text offset

  datatype DbError = Io(io: IoError) | Parse(parse: ParseError) | NoRate(currency: Code)

  /** `Entry::from_line`: split at single spaces into date, amount with its
      currency as the last three bytes, and tag; the text starts at byte
      `|date| + |amount| + 4`, so it may hold spaces. */
  function FromLine(l: string): (r: Result<Entry, ParseError>)
    ensures r.Ok? ==> ' ' !in r.value.date && |r.value.date| < |l|
                      && l[..|r.value.date|] == r.value.date && l[|r.value.date|] == ' '
    ensures r.Ok? ==> r.value.tag != ' '
    ensures r.Ok? ==> |r.value.text| <= |l| && l[|l| - |r.value.text|..] == r.value.text
  {
    var fields := Split(l, ' ');
    assert |fields| >= 3 ==> ' ' !in fields[2];
    FromFields(fields, l)
  }

  /** The checks of `from_line`, in its order, on the space-separated fields of `l`. */
  function FromFields(fields: seq<string>, l: string): (r: Result<Entry, ParseError>)
    requires |fields| >= 1
    ensures r.Ok? ==> |fields| >= 3 && r.value.date == fields[0]
                      && |fields[2]| > 0 && r.value.tag == fields[2][0]
    ensures r.Ok? ==> |r.value.text| <= |l| && l[|l| - |r.value.text|..] == r.value.text
  {
    var date := fields[0];
    if |fields| < 2 then Err(MissingAmount)
    else
      var amount := fields[1];
      if |amount| < 3 then Err(ShortAmount(amount))
      else if |fields| < 3 || fields[2] == [] then Err(MissingTag)
      else
        match ParseDecimal(amount[..|amount| - 3])
        case None => Err(InvalidDecimal(amount[..|amount| - 3]))
        case Some(d) =>
          var offset := |date| + |amount| + 4;
          if |l| < offset then Err(MissingText)
          else Ok(Entry(date, d, amount[|amount| - 3..], fields[2][0], l[offset..]))
  }

  /** `Entry::to_line`: "<date> <amount:.2><currency> <tag> <text>". */
  function ToLine(e: Entry): string
  {
    e.date + " " + (Format2(e.amount) + e.currency) + " " + ([e.tag] + " " + e.text)
  }

  /** The entries whose line `FromLine` splits back into the same fields. */
  predicate Writable(e: Entry)
  {
    ' ' !in e.date && ' ' !in e.currency && e.tag != ' '
  }

  lemma NoSpaceInNumeral(s: string)
    requires NumeralChars(s)
    ensures ' ' !in s
  {
    forall k | 0 <= k < |s| ensures s[k] != ' ' {
      assert IsDigit(s[k]) || s[k] == '-' || s[k] == '.';
    }
  }

  lemma SpaceForm(a: string, b: string, c: string)
    ensures a + " " + b + " " + c == a + [' '] + (b + [' '] + c)
  {
  }

  lemma TakeDropAppend(a: string, b: string)
    ensures (a + b)[..|a|] == a && (a + b)[|a|..] == b
  {
  }

  lemma TextOffset(date: string, amount: string, tag: char, text: string)
    ensures (date + " " + amount + " " + ([tag] + " " + text))[|date| + |amount| + 4..] == text
  {
    var l := date + " " + amount + " " + ([tag] + " " + text);
    assert l == (date + " " + amount + " " + [tag] + " ") + text;
  }

  lemma LeadingSpaceForm(rest: string)
    ensures " " + rest == [] + [' '] + rest
  {
  }

  /** The first two fields of a line that starts with two space-free words. */
  lemma SplitTwo(date: string, amount: string, rest: string)
    requires ' ' !in date && ' ' !in amount
    ensures Split(date + " " + amount + " " + rest, ' ') == [date] + ([amount] + Split(rest, ' '))
  {
    SpaceForm(date, amount, rest);
    SplitCons(date, amount + [' '] + rest, ' ');
    SplitCons(amount, rest, ' ');
  }

  /** The checks passed by fields that start with a date, an amount and a one-byte tag. */
  lemma FromFieldsWritten(date: string, amount: string, tag: char, more: seq<string>, l: string)
    requires |amount| >= 3 && ParseDecimal(amount[..|amount| - 3]).Some?
    requires |l| >= |date| + |amount| + 4
    ensures FromFields([date] + ([amount] + ([[tag]] + more)), l)
            == Ok(Entry(date, ParseDecimal(amount[..|amount| - 3]).value, amount[|amount| - 3..],
                        tag, l[|date| + |amount| + 4..]))
  {
    var fields := [date] + ([amount] + ([[tag]] + more));
    assert fields[0] == date && fields[1] == amount && fields[2] == [tag];
  }

  /** A line laid out as `ToLine` lays it out reads back field by field; the
      date can be any space-free text, it is never validated. */
  lemma FromLineWritten(date: string, amount: string, tag: char, text: string)
    requires ' ' !in date && ' ' !in amount && tag != ' ' && |amount| >= 3
    requires ParseDecimal(amount[..|amount| - 3]).Some?
    ensures FromLine(date + " " + amount + " " + ([tag] + " " + text))
            == Ok(Entry(date, ParseDecimal(amount[..|amount| - 3]).value, amount[|amount| - 3..], tag, text))
  {
    var l := date + " " + amount + " " + ([tag] + " " + text);
    SplitTwo(date, amount, [tag] + " " + text);
    SplitCons([tag], text, ' ');
    TextOffset(date, amount, tag, text);
    FromFieldsWritten(date, amount, tag, Split(text, ' '), l);
  }

  /** Reading a written entry gives the entry back with its amount rounded to
      cents; an amount with two decimals comes back unchanged. */
  lemma FromLineToLine(e: Entry)
    requires Writable(e)
    ensures FromLine(ToLine(e)) == Ok(e.(amount := Round2(e.amount)))
    ensures e.amount.scale == 2 ==> FromLine(ToLine(e)) == Ok(e)
  {
    var num := Format2(e.amount);
    ShowChars(Round2(e.amount));
    NoSpaceInNumeral(num);
    ParseFormat2(e.amount);
    var amount := num + e.currency;
    TakeDropAppend(num, e.currency);
    FromLineWritten(e.date, amount, e.tag, e.text);
  }

  /** A line that parses and whose tag field is one byte has exactly the layout
      `ToLine` writes, except that the amount is as written rather than rounded. */
  lemma FromLineLayout(l: string)
    requires FromLine(l).Ok?
    requires |Split(l, ' ')[2]| == 1
    ensures var e := FromLine(l).value;
            l == e.date + " " + Split(l, ' ')[1] + " " + ([e.tag] + " " + e.text)
  {
    SplitLayout(l, ' ');
    FieldsLayout(Split(l, ' '), l);
  }

  lemma FieldsLayout(fields: seq<string>, l: string)
    requires |fields| >= 3 && FromFields(fields, l).Ok? && |fields[2]| == 1
    requires l == fields[0] + [' '] + fields[1] + [' '] + Join(fields[2..], ' ')
    ensures var e := FromFields(fields, l).value;
            l == e.date + " " + fields[1] + " " + ([e.tag] + " " + e.text)
  {
    var e := FromFields(fields, l).value;
    var date, amount := fields[0], fields[1];
    var tail := Join(fields[2..], ' ');
    assert fields[2] == [e.tag];
    assert |fields| > 3;
    DropOne(fields, 2);
    assert tail == [e.tag] + " " + Join(fields[3..], ' ');
    TextOffset(date, amount, e.tag, Join(fields[3..], ' '));
  }

  lemma DropOne(s: seq<string>, i: nat)
    requires i < |s|
    ensures s[i..][1..] == s[i + 1..]
  {
  }

  /** What a parsed entry holds: the first field as its date, the amount field
      minus its last three bytes as its amount, those bytes as its currency,
      and the first byte of the third field as its tag. */
  lemma FromLineFields(l: string)
    requires FromLine(l).Ok?
    ensures var e := FromLine(l).value;
            var fields := Split(l, ' ');
            && |fields| >= 3 && |fields[1]| >= 3
            && e.date == fields[0]
            && e.currency == fields[1][|fields[1]| - 3..]
            && ParseDecimal(fields[1][..|fields[1]| - 3]) == Some(e.amount)
            && |fields[2]| >= 1 && e.tag == fields[2][0]
            && |l| >= |fields[0]| + |fields[1]| + 4
            && e.text == l[|fields[0]| + |fields[1]| + 4..]
  {
  }

  /** Whatever the length of the tag field: once the date, amount and tag
      fields pass their checks, the line parses exactly when it reaches the
      text offset `|date| + |amount| + 4`, and the text is the rest of the line
      from there. */
  lemma FromLineAccepts(l: string)
    requires var fields := Split(l, ' ');
             && |fields| >= 3 && |fields[1]| >= 3 && |fields[2]| >= 1
             && ParseDecimal(fields[1][..|fields[1]| - 3]).Some?
    ensures var fields := Split(l, ' ');
            var offset := |fields[0]| + |fields[1]| + 4;
            FromLine(l) == if |l| < offset then Err(MissingText)
                           else Ok(Entry(fields[0], ParseDecimal(fields[1][..|fields[1]| - 3]).value,
                                         fields[1][|fields[1]| - 3..], fields[2][0], l[offset..]))
  {
    FromLineIsFields(l);
    FromFieldsAccepts(Split(l, ' '), l);
  }

  lemma FromLineIsFields(l: string)
    ensures FromLine(l) == FromFields(Split(l, ' '), l)
  {
  }

  lemma FromFieldsAccepts(fields: seq<string>, l: string)
    requires |fields| >= 3 && |fields[1]| >= 3 && |fields[2]| >= 1
    requires ParseDecimal(fields[1][..|fields[1]| - 3]).Some?
    ensures var offset := |fields[0]| + |fields[1]| + 4;
            FromFields(fields, l) == if |l| < offset then Err(MissingText)
                                     else Ok(Entry(fields[0], ParseDecimal(fields[1][..|fields[1]| - 3]).value,
                                                   fields[1][|fields[1]| - 3..], fields[2][0], l[offset..]))
  {
  }

  /** A line with no space has no amount field. */
  lemma FromLineNoSpace(l: string)
    requires ' ' !in l
    ensures FromLine(l) == Err(MissingAmount)
  {
    SplitNone(l, ' ');
  }

  /** A line with exactly two fields fails on the amount or on the missing tag. */
  lemma FromLineTwoFields(date: string, amount: string)
    requires ' ' !in date && ' ' !in amount
    ensures FromLine(date + " " + amount) ==
            if |amount| < 3 then Err(ShortAmount(amount)) else Err(MissingTag)
  {
    assert date + " " + amount == date + [' '] + amount;
    SplitCons(date, amount, ' ');
    SplitNone(amount, ' ');
  }

  /** An empty third field (two spaces in a row after the amount) is a missing tag. */
  lemma FromLineEmptyTag(date: string, amount: string, rest: string)
    requires ' ' !in date && ' ' !in amount && |amount| >= 3
    ensures FromLine(date + " " + amount + " " + (" " + rest)) == Err(MissingTag)
  {
    SplitTwo(date, amount, " " + rest);
    LeadingSpaceForm(rest);
    SplitCons([], rest, ' ');
  }

  /** An amount whose part before the currency is not a numeral. */
  lemma FromLineBadAmount(date: string, amount: string, rest: string)
    requires ' ' !in date && ' ' !in amount && |amount| >= 3
    requires |Split(rest, ' ')[0]| > 0
    requires ParseDecimal(amount[..|amount| - 3]).None?
    ensures FromLine(date + " " + amount + " " + rest) == Err(InvalidDecimal(amount[..|amount| - 3]))
  {
    SplitTwo(date, amount, rest);
  }

  /** A complete date, amount and tag with nothing after the tag byte:
      the text offset lies past the end of the line. */
  lemma FromLineNoText(date: string, amount: string, tag: char)
    requires ' ' !in date && ' ' !in amount && |amount| >= 3 && tag != ' '
    requires ParseDecimal(amount[..|amount| - 3]).Some?
    ensures FromLine(date + " " + amount + " " + [tag]) == Err(MissingText)
  {
    SplitTwo(date, amount, [tag]);
    SplitNone([tag], ' ');
  }

  /** `Entry::unique_currencies`: each currency of the entries once (the Rust
      code collects a hash set, so its order is unspecified; this one keeps
      first occurrences in order). */
  function UniqueCurrencies(v: seq<Entry>): (r: seq<Code>)
    ensures forall i, j :: 0 <= i < j < |r| ==> r[i] != r[j]
    ensures forall c :: c in r <==> exists k :: 0 <= k < |v| && v[k].currency == c
  {
    if v == [] then []
    else
      var r := UniqueCurrencies(v[..|v| - 1]);
      var c := v[|v| - 1].currency;
      assert forall k :: 0 <= k < |v| - 1 ==> v[..|v| - 1][k] == v[k];
      if c in r then r else r + [c]
  }

  /** `lines().take_while(|x| x != "")`: the lines before the first empty one. */
  function LedgerLines(ls: seq<string>): (r: seq<string>)
    ensures r <= ls
    ensures forall k :: 0 <= k < |r| ==> r[k] != ""
    ensures |r| < |ls| ==> ls[|r|] == ""
  {
    if ls == [] || ls[0] == "" then [] else [ls[0]] + LedgerLines(ls[1..])
  }

  /** Lines after the first empty line are a trailer and never read. */
  lemma {:induction false} TrailerIgnored(a: seq<string>, b: seq<string>)
    requires forall k :: 0 <= k < |a| ==> a[k] != ""
    ensures LedgerLines(a + [""] + b) == a
  {
    if a != [] {
      assert (a + [""] + b)[1..] == a[1..] + [""] + b;
      TrailerIgnored(a[1..], b);
    }
  }

  /** The entries of parse results taken in order, or the first error. */
  function ParseAll<T, E>(rs: seq<Result<T, E>>): (r: Result<seq<T>, E>)
    ensures r.Ok? ==> |r.value| == |rs| && forall k :: 0 <= k < |rs| ==> rs[k] == Ok(r.value[k])
    ensures r.Err? ==> exists k :: 0 <= k < |rs| && rs[k] == Err(r.error)
                                   && forall j :: 0 <= j < k ==> rs[j].Ok?
  {
    if rs == [] then Ok([])
    else
      match ParseAll(rs[..|rs| - 1])
      case Err(e) => Err(e)
      case Ok(es) =>
        match rs[|rs| - 1]
        case Err(e) => Err(e)
        case Ok(x) => Ok(es + [x])
  }

  /** One more result after a prefix. */
  lemma ParseAllSnoc<T, E>(rs: seq<Result<T, E>>, i: nat)
    requires i < |rs|
    ensures ParseAll(rs[..i + 1]) == match ParseAll(rs[..i])
                                     case Err(e) => Err(e)
                                     case Ok(es) =>
                                       match rs[i]
                                       case Err(e) => Err(e)
                                       case Ok(x) => Ok(es + [x])
  {
    assert rs[..i + 1][..i] == rs[..i];
  }

  lemma ParseAllOkPrefix<T, E>(rs: seq<Result<T, E>>, i: nat)
    requires i <= |rs| && ParseAll(rs[..i]).Ok?
    ensures forall j :: 0 <= j < i ==> rs[j].Ok?
  {
    forall j | 0 <= j < i ensures rs[j].Ok? {
      assert rs[..i][j] == rs[j];
    }
  }

  /** The parse is decided by the first result that is an error, if any. */
  lemma ParseAllFirstError<T, E>(rs: seq<Result<T, E>>, i: nat)
    requires i < |rs| && rs[i].Err?
    requires forall j :: 0 <= j < i ==> rs[j].Ok?
    ensures ParseAll(rs) == Err(rs[i].error)
  {
    var r := ParseAll(rs);
    if r.Err? {
      var k :| 0 <= k < |rs| && rs[k] == Err(r.error) && forall j :: 0 <= j < k ==> rs[j].Ok?;
      assert k == i;
    }
  }

  /** Each line through `FromLine`. */
  function ParseEach(ls: seq<string>): (rs: seq<Result<Entry, ParseError>>)
    ensures |rs| == |ls|
    ensures forall k {:trigger rs[k]} :: 0 <= k < |ls| ==> rs[k] == FromLine(ls[k])
  {
    MapLines(ls, FromLine)
  }

  /** `parse` applied to each line. */
  function MapLines<T, E>(ls: seq<string>, parse: string -> Result<T, E>): (rs: seq<Result<T, E>>)
    ensures |rs| == |ls|
    ensures forall k {:trigger rs[k]} :: 0 <= k < |ls| ==> rs[k] == parse(ls[k])
  {
    seq(|ls|, k requires 0 <= k < |ls| => parse(ls[k]))
  }

  /** Every line's entry, in order, or the first failing line's error. */
  function ParseLines(ls: seq<string>): Result<seq<Entry>, ParseError>
  {
    ParseAll(ParseEach(ls))
  }

  /** The lines all parse exactly when the result is their entries, in order. */
  lemma ParseLinesOk(ls: seq<string>)
    ensures ParseLines(ls).Ok? <==> forall k :: 0 <= k < |ls| ==> FromLine(ls[k]).Ok?
    ensures ParseLines(ls).Ok? ==>
              && |ParseLines(ls).value| == |ls|
              && forall k :: 0 <= k < |ls| ==> FromLine(ls[k]) == Ok(ParseLines(ls).value[k])
  {
    var rs := ParseEach(ls);
    if ParseLines(ls).Err? {
      var k :| 0 <= k < |rs| && rs[k] == Err(ParseLines(ls).error) && forall j :: 0 <= j < k ==> rs[j].Ok?;
      assert rs[k] == FromLine(ls[k]);
    } else {
      forall k | 0 <= k < |ls| ensures FromLine(ls[k]) == Ok(ParseLines(ls).value[k]) {
        assert rs[k] == FromLine(ls[k]);
      }
    }
  }

  /** The first line that fails decides the error. */
  lemma ParseLinesFirstError(ls: seq<string>, i: nat)
    requires i < |ls| && FromLine(ls[i]).Err?
    requires forall j :: 0 <= j < i ==> FromLine(ls[j]).Ok?
    ensures ParseLines(ls) == Err(FromLine(ls[i]).error)
  {
    ParseAllFirstError(ParseEach(ls), i);
  }

  /** The entries of one ledger file's text, or the first line's error. */
  function FileEntries(text: string): Result<seq<Entry>, DbError>
  {
    match ParseLines(LedgerLines(Lines(text)))
    case Ok(es) => Ok(es)
    case Err(e) => Err(Parse(e))
  }

  /** `Entry::read_db_file`: appends to `v` the entries of the lines before the
      first empty line, in file order; a read error leaves `v` as it was. */
  method ReadDbFile(file: Result<string, IoError>, v: seq<Entry>) returns (res: Result<seq<Entry>, DbError>)
    ensures file.Err? ==> res == Err(Io(file.error))
    ensures file.Ok? ==> res == Then(Ok(v), FileEntries(file.value))
  {
    if file.Err? {
      return Err(Io(file.error));
    }
    var r := AppendParsed(Lines(file.value), v, FromLine);
    if r.Err? {
      return Err(Parse(r.error));
    }
    return Ok(r.value);
  }

  /** The first `i` lines are all ledger lines. */
  ghost predicate LedgerPrefix(ls: seq<string>, i: nat)
  {
    i <= |LedgerLines(ls)| && LedgerLines(ls)[..i] == ls[..i]
  }

  lemma LedgerStep(ls: seq<string>, i: nat)
    requires LedgerPrefix(ls, i) && i < |ls| && ls[i] != ""
    ensures i < |LedgerLines(ls)| && LedgerLines(ls)[i] == ls[i]
    ensures LedgerPrefix(ls, i + 1)
  {
    var w := LedgerLines(ls);
    assert w[..i + 1] == w[..i] + [w[i]];
    assert ls[..i + 1] == ls[..i] + [ls[i]];
  }

  lemma LedgerExit(ls: seq<string>, i: nat)
    requires LedgerPrefix(ls, i) && !(i < |ls| && ls[i] != "")
    ensures i == |LedgerLines(ls)|
  {
  }

  /** A failing result after successes ends the parse with its error. */
  lemma ParseAllAbort<T, E>(rs: seq<Result<T, E>>, i: nat)
    requires i < |rs| && ParseAll(rs[..i]).Ok? && rs[i].Err?
    ensures ParseAll(rs) == Err(rs[i].error)
  {
    ParseAllOkPrefix(rs, i);
    ParseAllFirstError(rs, i);
  }

  /** The loop of `read_db_file`: each line before the first empty one goes
      through `parse`, and the first failure ends the read. */
  method AppendParsed<T, E>(lines: seq<string>, v: seq<T>, parse: string -> Result<T, E>)
    returns (res: Result<seq<T>, E>)
    ensures res == match ParseAll(MapLines(LedgerLines(lines), parse))
                   case Ok(xs) => Ok(v + xs)
                   case Err(e) => Err(e)
  {
    ghost var rs := MapLines(LedgerLines(lines), parse);
    ghost var xs: seq<T> := [];
    var acc := v;
    var i := 0;
    assert rs[..0] == [];
    while i < |lines| && lines[i] != ""
      invariant LedgerPrefix(lines, i)
      invariant acc == v + xs
      invariant ParseAll(rs[..i]) == Ok(xs)
    {
      LedgerStep(lines, i);
      var r := parse(lines[i]);
      assert r == rs[i];
      match r
      case Err(e) =>
        ParseAllAbort(rs, i);
        return Err(e);
      case Ok(x) =>
        ParseAllSnoc(rs, i);
        acc := acc + [x];
        xs := xs + [x];
        i := i + 1;
    }
    LedgerExit(lines, i);
    assert rs[..i] == rs;
    return Ok(acc);
  }

  /** Byte-wise order of names (`OsStr` comparison). */
  predicate StrLe(a: string, b: string)
  {
    a == [] || (b != [] && (a[0] < b[0] || (a[0] == b[0] && StrLe(a[1..], b[1..]))))
  }

  /** `Path` order: component by component. */
  predicate PathLe(a: Path, b: Path)
  {
    a == [] || (b != [] && ((a[0] != b[0] && StrLe(a[0], b[0])) || (a[0] == b[0] && PathLe(a[1..], b[1..]))))
  }

  lemma {:induction false} StrLeTotal(a: string, b: string)
    ensures StrLe(a, b) || StrLe(b, a)
  {
    if a != [] && b != [] && a[0] == b[0] {
      StrLeTotal(a[1..], b[1..]);
    }
  }

  lemma {:induction false} StrLeAntisymmetric(a: string, b: string)
    requires StrLe(a, b) && StrLe(b, a)
    ensures a == b
  {
    if a != [] && b != [] {
      StrLeAntisymmetric(a[1..], b[1..]);
      assert a == [a[0]] + a[1..] && b == [b[0]] + b[1..];
    }
  }

  lemma {:induction false} StrLeTransitive(a: string, b: string, c: string)
    requires StrLe(a, b) && StrLe(b, c)
    ensures StrLe(a, c)
  {
    if a != [] && b != [] && c != [] && a[0] == b[0] && b[0] == c[0] {
      StrLeTransitive(a[1..], b[1..], c[1..]);
    }
  }

  lemma {:induction false} PathLeTotal(a: Path, b: Path)
    ensures PathLe(a, b) || PathLe(b, a)
  {
    if a != [] && b != [] {
      if a[0] == b[0] {
        PathLeTotal(a[1..], b[1..]);
      } else {
        StrLeTotal(a[0], b[0]);
      }
    }
  }

  lemma {:induction false} PathLeAntisymmetric(a: Path, b: Path)
    requires PathLe(a, b) && PathLe(b, a)
    ensures a == b
  {
    if a != [] && b != [] {
      if a[0] == b[0] {
        PathLeAntisymmetric(a[1..], b[1..]);
        assert a == [a[0]] + a[1..] && b == [b[0]] + b[1..];
      } else {
        StrLeAntisymmetric(a[0], b[0]);
      }
    }
  }

  lemma {:induction false} PathLeTransitive(a: Path, b: Path, c: Path)
    requires PathLe(a, b) && PathLe(b, c)
    ensures PathLe(a, c)
  {
    if a != [] && b != [] && c != [] {
      if a[0] == b[0] && b[0] == c[0] {
        PathLeTransitive(a[1..], b[1..], c[1..]);
      } else if a[0] == b[0] {
        assert StrLe(a[0], c[0]);
      } else if b[0] == c[0] {
        assert StrLe(a[0], c[0]);
      } else {
        StrLeTransitive(a[0], b[0], c[0]);
        if a[0] == c[0] {
          StrLeAntisymmetric(a[0], b[0]);
        }
      }
    }
  }

  lemma {:induction false} PathLeReflexive(a: Path)
    ensures PathLe(a, a)
  {
    if a != [] {
      PathLeReflexive(a[1..]);
    }
  }

  predicate SortedByPath(fs: seq<FoundFile>)
  {
    forall i, j :: 0 <= i < j < |fs| ==> PathLe(fs[i].path, fs[j].path)
  }

  /** Every file of `fs` comes at or after path `b`. */
  predicate AllFrom(b: Path, fs: seq<FoundFile>)
  {
    forall j :: 0 <= j < |fs| ==> PathLe(b, fs[j].path)
  }

  lemma SortedCons(x: FoundFile, fs: seq<FoundFile>)
    requires AllFrom(x.path, fs) && SortedByPath(fs)
    ensures SortedByPath([x] + fs)
  {
    var r := [x] + fs;
    forall i, j | 0 <= i < j < |r| ensures PathLe(r[i].path, r[j].path) {
      if i == 0 {
        assert r[j] == fs[j - 1];
      } else {
        assert r[i] == fs[i - 1] && r[j] == fs[j - 1];
      }
    }
  }

  /** One insertion step of the sort: `f` goes before the first file it does not follow. */
  function Insert(f: FoundFile, s: seq<FoundFile>): (r: seq<FoundFile>)
    ensures multiset(r) == multiset(s) + multiset{f}
  {
    if s == [] then [f]
    else if PathLe(f.path, s[0].path) then [f] + s
    else
      assert s == [s[0]] + s[1..];
      [s[0]] + Insert(f, s[1..])
  }

  lemma {:induction false} InsertFrom(f: FoundFile, s: seq<FoundFile>, b: Path)
    requires PathLe(b, f.path) && AllFrom(b, s)
    ensures AllFrom(b, Insert(f, s))
  {
    if s != [] && !PathLe(f.path, s[0].path) {
      assert AllFrom(b, s[1..]) by {
        forall j | 0 <= j < |s[1..]| ensures PathLe(b, s[1..][j].path) {
          assert s[1..][j] == s[j + 1];
        }
      }
      InsertFrom(f, s[1..], b);
    }
  }

  lemma {:induction false} InsertSorted(f: FoundFile, s: seq<FoundFile>)
    requires SortedByPath(s)
    ensures SortedByPath(Insert(f, s))
  {
    if s == [] {
    } else if PathLe(f.path, s[0].path) {
      forall j | 0 <= j < |s| ensures PathLe(f.path, s[j].path) {
        if j > 0 { PathLeTransitive(f.path, s[0].path, s[j].path); }
      }
      SortedCons(f, s);
    } else {
      var t := s[1..];
      assert SortedByPath(t) by {
        forall i, j | 0 <= i < j < |t| ensures PathLe(t[i].path, t[j].path) {
          assert t[i] == s[i + 1] && t[j] == s[j + 1];
        }
      }
      assert AllFrom(s[0].path, t) by {
        forall j | 0 <= j < |t| ensures PathLe(s[0].path, t[j].path) {
          assert t[j] == s[j + 1];
        }
      }
      PathLeTotal(f.path, s[0].path);
      InsertSorted(f, t);
      InsertFrom(f, t, s[0].path);
      SortedCons(s[0], Insert(f, t));
    }
  }

  /** `files.sort()`: ascending path order, a permutation of the input. */
  function SortByPath(fs: seq<FoundFile>): (r: seq<FoundFile>)
    ensures SortedByPath(r)
    ensures multiset(r) == multiset(fs)
  {
    if fs == [] then []
    else
      var init := SortByPath(fs[..|fs| - 1]);
      assert fs == fs[..|fs| - 1] + [fs[|fs| - 1]];
      InsertSorted(fs[|fs| - 1], init);
      Insert(fs[|fs| - 1], init)
  }

  lemma {:induction false} MultisetAtMostOnce(a: seq<FoundFile>, i: nat)
    requires i < |a|
    requires forall k :: 0 <= k < |a| && k != i ==> a[k] != a[i]
    ensures multiset(a)[a[i]] == 1
  {
    var x := a[i];
    assert a == a[..i] + [x] + a[i + 1..];
    assert x !in a[..i] by {
      forall k | 0 <= k < i ensures a[..i][k] != x { assert a[k] != x; }
    }
    assert x !in a[i + 1..] by {
      forall k | i + 1 <= k < |a| ensures a[k] != x { }
    }
  }

  lemma TwiceInMultiset(b: seq<FoundFile>, i: nat, j: nat)
    requires i < j < |b| && b[i] == b[j]
    ensures multiset(b)[b[i]] >= 2
  {
    assert b == b[..i] + [b[i]] + b[i + 1..j] + [b[j]] + b[j + 1..];
  }

  lemma DistinctPathsOfMultiset(a: seq<FoundFile>, b: seq<FoundFile>)
    requires multiset(a) == multiset(b) && DistinctPaths(a)
    ensures DistinctPaths(b)
  {
    forall i, j | 0 <= i < j < |b| ensures b[i].path != b[j].path {
      if b[i].path == b[j].path {
        assert b[i] in multiset(a) && b[j] in multiset(a);
        var i' :| 0 <= i' < |a| && a[i'] == b[i];
        var j' :| 0 <= j' < |a| && a[j'] == b[j];
        if i' == j' {
          TwiceInMultiset(b, i, j);
          forall k | 0 <= k < |a| && k != i' ensures a[k] != a[i'] {
            if k < i' { assert a[k].path != a[i'].path; }
            if k > i' { assert a[i'].path != a[k].path; }
          }
          MultisetAtMostOnce(a, i');
          assert false;
        }
      }
    }
  }

  lemma SortedTail(a: seq<FoundFile>)
    requires a != [] && SortedByPath(a) && DistinctPaths(a)
    ensures SortedByPath(a[1..]) && DistinctPaths(a[1..])
  {
    var t := a[1..];
    forall i, j | 0 <= i < j < |t| ensures PathLe(t[i].path, t[j].path) && t[i].path != t[j].path {
      assert t[i] == a[i + 1] && t[j] == a[j + 1];
    }
  }

  lemma SortedHead(a: seq<FoundFile>, x: FoundFile)
    requires SortedByPath(a) && x in multiset(a)
    ensures PathLe(a[0].path, x.path)
  {
    var i :| 0 <= i < |a| && a[i] == x;
    if i == 0 { PathLeReflexive(x.path); }
  }

  lemma OnlyHeadHasPath(a: seq<FoundFile>, z: FoundFile)
    requires a != [] && DistinctPaths(a) && z in multiset(a) && z.path == a[0].path
    ensures z == a[0]
  {
    var j :| 0 <= j < |a| && a[j] == z;
    if j != 0 {
      assert a[0].path != a[j].path;
    }
  }

  lemma MultisetTail(a: seq<FoundFile>, b: seq<FoundFile>)
    requires a != [] && b != [] && a[0] == b[0] && multiset(a) == multiset(b)
    ensures multiset(a[1..]) == multiset(b[1..])
  {
    var x := a[0];
    assert a == [x] + a[1..] && b == [x] + b[1..];
    assert multiset(a) == multiset{x} + multiset(a[1..]);
    assert multiset(b) == multiset{x} + multiset(b[1..]);
    assert multiset(a[1..]) == multiset(a) - multiset{x};
    assert multiset(b[1..]) == multiset(b) - multiset{x};
  }

  /** Sorting paths that are all distinct has one outcome: whatever order
      the files were found in, they are read in the same order. */
  lemma {:induction false} SortedUnique(a: seq<FoundFile>, b: seq<FoundFile>)
    requires SortedByPath(a) && SortedByPath(b) && multiset(a) == multiset(b)
    requires DistinctPaths(a)
    ensures a == b
    decreases |a|
  {
    assert |a| == |multiset(a)| == |multiset(b)| == |b|;
    if a != [] {
      DistinctPathsOfMultiset(a, b);
      assert a[0] in multiset(b) && b[0] in multiset(a);
      SortedHead(b, a[0]);
      SortedHead(a, b[0]);
      PathLeAntisymmetric(a[0].path, b[0].path);
      OnlyHeadHasPath(a, b[0]);
      MultisetTail(a, b);
      SortedTail(a);
      SortedTail(b);
      SortedUnique(a[1..], b[1..]);
      assert a == [a[0]] + a[1..] && b == [b[0]] + b[1..];
    }
  }

  /** Index of the last '.', or `|s|` when there is none. */
  function LastDot(s: string): (i: nat)
    ensures i <= |s|
    ensures i < |s| ==> s[i] == '.' && forall k :: i < k < |s| ==> s[k] != '.'
    ensures i == |s| ==> '.' !in s
  {
    if s == [] then 0
    else if s[|s| - 1] == '.' then |s| - 1
    else
      var i := LastDot(s[..|s| - 1]);
      if i == |s| - 1 then |s| else i
  }

  /** `extension() == "txt"`: the last component has a dot that is not its
      first byte, and "txt" follows the last dot. */
  predicate IsTxt(p: Path)
  {
    |p| > 0 &&
    var name := p[|p| - 1];
    var i := LastDot(name);
    0 < i < |name| && name[i + 1..] == "txt"
  }

  /** What one found file contributes: nothing unless it is a `.txt` file,
      otherwise its entries, or the error met opening, reading or parsing it. */
  function FileResult(f: FoundFile): Result<seq<Entry>, DbError>
  {
    if !IsTxt(f.path) then Ok([])
    else
      match f.content
      case None => Err(Io(CannotRead(f.path)))
      case Some(text) => FileEntries(text)
  }

  /** Two reads one after the other: entries concatenated, the first error wins. */
  function Then(x: Result<seq<Entry>, DbError>, y: Result<seq<Entry>, DbError>): Result<seq<Entry>, DbError>
  {
    match x
    case Err(e) => Err(e)
    case Ok(xs) =>
      match y
      case Err(e) => Err(e)
      case Ok(ys) => Ok(xs + ys)
  }

  lemma ThenAssociative(x: Result<seq<Entry>, DbError>, y: Result<seq<Entry>, DbError>, z: Result<seq<Entry>, DbError>)
    ensures Then(Then(x, y), z) == Then(x, Then(y, z))
  {
    if x.Ok? && y.Ok? && z.Ok? {
      assert (x.value + y.value) + z.value == x.value + (y.value + z.value);
    }
  }

  /** The entries of the `.txt` files among `fs`, in the order of `fs`, or the
      first error met (a file that cannot be read, or a bad line). */
  function ReadFiles(fs: seq<FoundFile>): Result<seq<Entry>, DbError>
  {
    if fs == [] then Ok([]) else Then(ReadFiles(fs[..|fs| - 1]), FileResult(fs[|fs| - 1]))
  }

  /** Reading two runs of files one after the other: entries concatenate and
      the first error ends everything. */
  lemma {:induction false} ReadFilesAppend(a: seq<FoundFile>, b: seq<FoundFile>)
    ensures ReadFiles(a + b) == Then(ReadFiles(a), ReadFiles(b))
    decreases |b|
  {
    if b == [] {
      assert a + b == a;
      if ReadFiles(a).Ok? { assert ReadFiles(a).value + [] == ReadFiles(a).value; }
    } else {
      var b' := b[..|b| - 1];
      var f := b[|b| - 1];
      assert (a + b)[..|a + b| - 1] == a + b';
      assert (a + b)[|a + b| - 1] == f;
      ReadFilesAppend(a, b');
      ThenAssociative(ReadFiles(a), ReadFiles(b'), FileResult(f));
    }
  }

  /** Files without the `.txt` extension are never opened. */
  lemma ReadFilesSkips(fs: seq<FoundFile>, f: FoundFile)
    requires !IsTxt(f.path)
    ensures ReadFiles(fs + [f]) == ReadFiles(fs)
  {
    assert (fs + [f])[..|fs|] == fs;
    if ReadFiles(fs).Ok? { assert ReadFiles(fs).value + [] == ReadFiles(fs).value; }
  }

  /** `Find::new(path).collect::<Result<Vec<_>>>()`: the files, or the first error. */
  function CollectFiles(items: seq<Item>): (r: Result<seq<FoundFile>, IoError>)
    ensures r.Err? <==> HasError(items)
    ensures r.Ok? ==> r.value == Found(items)
  {
    if items == [] then Ok([])
    else if items[0].Err? then Err(items[0].error)
    else
      match CollectFiles(items[1..])
      case Err(e) =>
        assert HasError(items) by {
          var k :| 0 <= k < |items[1..]| && items[1..][k].Err?;
          assert items[k + 1].Err?;
        }
        Err(e)
      case Ok(fs) =>
        assert !HasError(items) by {
          forall k | 0 <= k < |items| ensures items[k].Ok? {
            if k > 0 { assert items[k] == items[1..][k - 1]; }
          }
        }
        Ok([items[0].value] + fs)
  }

  function Prepend(fs: seq<FoundFile>, r: Result<seq<FoundFile>, IoError>): Result<seq<FoundFile>, IoError>
  {
    match r
    case Ok(rest) => Ok(fs + rest)
    case Err(e) => Err(e)
  }

  lemma PrependNil(r: Result<seq<FoundFile>, IoError>)
    ensures Prepend([], r) == r
  {
    if r.Ok? { assert [] + r.value == r.value; }
  }

  lemma CollectCons(files: seq<FoundFile>, x: Item, rest: seq<Item>)
    ensures Prepend(files, CollectFiles([x] + rest)) ==
            if x.Err? then Err(x.error) else Prepend(files + [x.value], CollectFiles(rest))
  {
    assert ([x] + rest)[1..] == rest;
    if x.Ok? && CollectFiles(rest).Ok? {
      assert files + ([x.value] + CollectFiles(rest).value) == (files + [x.value]) + CollectFiles(rest).value;
    }
  }

  /** `Entry::read_db`: every `.txt` file under `root`, in ascending path
      order, entries concatenated; any walk, open, read or parse error aborts. */
  function Ledger(root: Path, tree: Node): Result<seq<Entry>, DbError>
  {
    match CollectFiles(Walk(root, tree))
    case Err(e) => Err(Io(e))
    case Ok(files) => ReadFiles(SortByPath(files))
  }

  /** A directory that cannot be listed anywhere under the root fails the read. */
  lemma LedgerUnlistable(root: Path, tree: Node)
    requires !AllListable(tree)
    ensures Ledger(root, tree).Err? && Ledger(root, tree).error.Io?
  {
    WalkReportsUnlistable(root, tree);
  }

  /** When every directory can be listed, the ledger is the tree's files read in
      ascending path order, whatever order the directories list their entries in. */
  lemma LedgerReadsTreeInPathOrder(root: Path, tree: Node)
    requires AllListable(tree)
    requires DistinctPaths(FilesOf(root, tree))
    ensures Ledger(root, tree) == ReadFiles(SortByPath(FilesOf(root, tree)))
  {
    WalkFindsAllFiles(root, tree);
    var found := Found(Walk(root, tree));
    var files := FilesOf(root, tree);
    DistinctPathsOfMultiset(files, SortByPath(files));
    SortedUnique(SortByPath(files), SortByPath(found));
  }

  /** The same for any tree a real file system can hold, where no directory
      lists two entries under one name. */
  lemma LedgerReadsWellFormedTree(root: Path, tree: Node)
    requires AllListable(tree) && WellFormed(tree)
    ensures Ledger(root, tree) == ReadFiles(SortByPath(FilesOf(root, tree)))
  {
    WellFormedPathsDistinct(root, tree);
    LedgerReadsTreeInPathOrder(root, tree);
  }

  /** `Find::new(path).collect::<Result<Vec<_>>>()`, as the iterator runs:
      pull items until the walk ends or yields an error. */
  method CollectWalk(root: Path, tree: Node) returns (res: Result<seq<FoundFile>, IoError>)
    ensures res == CollectFiles(Walk(root, tree))
  {
    var find := new Find(root, tree);
    var files: seq<FoundFile> := [];
    ghost var all := CollectFiles(Walk(root, tree));
    PrependNil(all);
    while true
      invariant all == Prepend(files, CollectFiles(find.Remaining()))
      decreases |find.Remaining()|
    {
      var item := find.Next();
      if item.None? {
        break;
      }
      CollectCons(files, item.value, find.Remaining());
      match item.value
      case Err(e) =>
        return Err(e);
      case Ok(f) =>
        files := files + [f];
    }
    assert files + [] == files;
    return Ok(files);
  }

  /** The step `read_db` maps over each sorted path: skip it unless it is a
      `.txt` file, otherwise open it and append its entries to `ret`. */
  method ReadTxt(f: FoundFile, ret: seq<Entry>) returns (res: Result<seq<Entry>, DbError>)
    ensures res == Then(Ok(ret), FileResult(f))
  {
    if !IsTxt(f.path) {
      assert ret + [] == ret;
      return Ok(ret);
    }
    var read := if f.content.Some? then Ok(f.content.value) else Err(CannotRead(f.path));
    res := ReadDbFile(read, ret);
  }

  lemma ReadFilesSnoc(fs: seq<FoundFile>, i: nat)
    requires i < |fs|
    ensures ReadFiles(fs[..i + 1]) == Then(ReadFiles(fs[..i]), FileResult(fs[i]))
  {
    assert fs[..i + 1][..i] == fs[..i];
  }

  /** A read that failed stays failed whatever files follow. */
  lemma ReadFilesAbort(fs: seq<FoundFile>, i: nat)
    requires i <= |fs| && ReadFiles(fs[..i]).Err?
    ensures ReadFiles(fs) == ReadFiles(fs[..i])
  {
    ReadFilesAppend(fs[..i], fs[i..]);
    assert fs[..i] + fs[i..] == fs;
  }

  /** The `.txt` files read in the given order into one growing vector. */
  method ReadAll(sorted: seq<FoundFile>) returns (res: Result<seq<Entry>, DbError>)
    ensures res == ReadFiles(sorted)
  {
    var ret: seq<Entry> := [];
    var i := 0;
    while i < |sorted|
      invariant i <= |sorted|
      invariant ReadFiles(sorted[..i]) == Ok(ret)
    {
      var r := ReadTxt(sorted[i], ret);
      ReadFilesSnoc(sorted, i);
      if r.Err? {
        ReadFilesAbort(sorted, i + 1);
        return r;
      }
      ret := r.value;
      i := i + 1;
    }
    assert sorted[..i] == sorted;
    return Ok(ret);
  }

  /** `Entry::read_db`: collect the walk, sort by path, then read each `.txt` file. */
  method ReadDb(root: Path, tree: Node) returns (res: Result<seq<Entry>, DbError>)
    ensures res == Ledger(root, tree)
  {
    var files := CollectWalk(root, tree);
    if files.Err? {
      return Err(Io(files.error));
    }
    var sorted := SortByPath(files.value);
    res := ReadAll(sorted);
  }
}
