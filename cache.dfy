/** The exchange-rate cache (src/cache.rs): the `currencies` file of
    "<code> <rate>" lines, the rule that decides when that file is too old,
    and the refresh-then-read step that fills `Cache::currencies`.
    The file system is reduced to the one file the cache owns, and the clock
    to the file's age in whole seconds, rounded up. */
module Cache {
  import opened Results
  import opened Text
  import opened Dec
  import Db

  /** `CURRENCIES_MAX_AGE`: one day, in seconds. */
  const CurrenciesMaxAge: nat := 24 * 60 * 60

  /** The I/O failures the cache code tells apart: a missing file, and any other. */
  datatype IoError = NotFound | Other(reason: string)

  /** Failures of reading the cache (the last two are panics in the Rust code). */
  datatype CacheError =
    | Io(io: IoError)
    | ShortName(name: string)     // first field shorter than three bytes
    | InvalidRate(field: string)  // second field is not a decimal numeral

  /** Whether one file-system call the cache makes succeeds, and why not. */
  datatype Access = Granted | Denied(reason: string)

  /** What `std::fs::metadata` finds at the file's path, with what the later
      calls on that path would do:
      - `Absent(create)`: nothing. `create` is the outcome of `create_dir` on
        the cache directory followed by the `open` that creates the file.
      - `Present(content, age, write, read)`: a file with its text and age.
        `write` is the outcome of `open` with write and truncate, and `read`
        the outcome of `File::open`.
      - `Unreadable(reason)`: an entry whose metadata cannot be read.
      The age is the time since the file was modified, rounded up to whole
      seconds: since the limit it is compared with is whole seconds,
      `age > maxAge` holds exactly when the unrounded age exceeds the limit. */
  datatype FileState =
    | Absent(create: Access)
    | Present(content: string, age: nat, write: Access, read: Access)
    | Unreadable(reason: string)

  /** The entry `read_currencies` always adds last. */
  const Eur := Db.Currency("eur", Decimal(1, 0))

  // ---------------------------------------------------------------- the file format

  /** One line of the file, without its line feed: `"{} {}"` of name and rate. */
  function CurrencyLine(c: Db.Currency): string
  {
    c.name + " " + Show(c.toEur)
  }

  function CurrencyLines(v: seq<Db.Currency>): seq<string>
  {
    seq(|v|, k requires 0 <= k < |v| => CurrencyLine(v[k]))
  }

  /** The text `update_currencies` writes for `v`: a line per currency, in order. */
  function CurrenciesText(v: seq<Db.Currency>): string
  {
    Unlines(CurrencyLines(v))
  }

  /** A line of the file: the name is the first three bytes of the first
      space-separated field (further bytes are ignored), the rate is the decimal
      of the second field, or of "" when there is none; any further field is ignored. */
  function ParseCurrency(l: string): (r: Result<Db.Currency, CacheError>)
    ensures r.Ok? ==> |l| >= 3 && r.value.name == l[..3] && ' ' !in r.value.name
  {
    var fields := Split(l, ' ');
    var name := fields[0];
    var rate := if |fields| >= 2 then fields[1] else "";
    if |name| < 3 then Err(ShortName(name))
    else
      match ParseDecimal(rate)
      case None => Err(InvalidRate(rate))
      case Some(d) => Ok(Db.Currency(name[..3], d))
  }

  /** `read_currencies` on the text of the file: a currency per line, in file
      order, then `eur` at rate 1; or the error of the first line that fails. */
  function ReadText(text: string): Result<seq<Db.Currency>, CacheError>
  {
    match Db.ParseAll(Db.MapLines(Lines(text), ParseCurrency))
    case Ok(v) => Ok(v + [Eur])
    case Err(e) => Err(e)
  }

  /** A line read field by field: the name's first three bytes and the rate. */
  lemma ParseCurrencyFields(name: string, rate: string, more: string)
    requires ' ' !in name && ' ' !in rate
    requires more == [] || more[0] == ' '
    ensures ParseCurrency(name + " " + rate + more) ==
              if |name| < 3 then Err(ShortName(name))
              else match ParseDecimal(rate)
                   case None => Err(InvalidRate(rate))
                   case Some(d) => Ok(Db.Currency(name[..3], d))
  {
    var l := name + " " + rate + more;
    assert l == name + [' '] + (rate + more);
    SplitCons(name, rate + more, ' ');
    IndexOfAppend(rate, more, ' ');
    var tail := Split(rate + more, ' ');
    assert tail[0] == (rate + more)[..|rate| + IndexOf(more, ' ')];
    assert IndexOf(more, ' ') == 0;
    assert tail[0] == rate;
  }

  /** A line without a space has no rate, so it never reads. */
  lemma ParseCurrencyNoRate(l: string)
    requires ' ' !in l
    ensures ParseCurrency(l) == if |l| < 3 then Err(ShortName(l)) else Err(InvalidRate(""))
  {
    SplitNone(l, ' ');
    assert ParseDecimal("") == None by {
      assert Text.IndexOf("", '.') == 0;
    }
  }

  /** A line as written reads back as the same currency. */
  lemma ParseCurrencyLine(c: Db.Currency)
    requires ' ' !in c.name
    ensures ParseCurrency(CurrencyLine(c)) == Ok(c)
  {
    var rate := Show(c.toEur);
    ShowChars(c.toEur);
    assert ' ' !in rate by {
      forall k | 0 <= k < |rate| ensures rate[k] != ' ' {
        assert IsDigit(rate[k]) || rate[k] == '-' || rate[k] == '.';
      }
    }
    ParseShow(c.toEur);
    assert CurrencyLine(c) == c.name + " " + rate + [];
    ParseCurrencyFields(c.name, rate, []);
    assert c.name[..3] == c.name;
  }

  /** What `ReadText` returns, line by line: on success the parse of every line
      in file order followed by `eur`; on failure the error of the first line
      that does not read. */
  lemma ReadTextSpec(text: string)
    ensures ReadText(text).Ok? <==> forall k :: 0 <= k < |Lines(text)| ==> ParseCurrency(Lines(text)[k]).Ok?
    ensures ReadText(text).Ok? ==>
              && |ReadText(text).value| == |Lines(text)| + 1 && ReadText(text).value[|Lines(text)|] == Eur
              && forall k :: 0 <= k < |Lines(text)| ==> ParseCurrency(Lines(text)[k]) == Ok(ReadText(text).value[k])
    ensures ReadText(text).Err? ==>
              exists k :: && 0 <= k < |Lines(text)| && ParseCurrency(Lines(text)[k]) == Err(ReadText(text).error)
                          && forall j :: 0 <= j < k ==> ParseCurrency(Lines(text)[j]).Ok?
  {
    var ls := Lines(text);
    var rs := Db.MapLines(ls, ParseCurrency);
    var p := Db.ParseAll(rs);
    if p.Ok? {
      ReadTextOk(ls, p.value);
      assert ReadText(text) == Ok(p.value + [Eur]);
    } else {
      var k :| 0 <= k < |rs| && rs[k] == Err(p.error) && forall j :: 0 <= j < k ==> rs[j].Ok?;
      ReadTextErr(ls, k, p.error);
      assert ReadText(text) == Err(p.error);
      assert !ParseCurrency(Lines(text)[k]).Ok?;
      assert !(forall i :: 0 <= i < |Lines(text)| ==> ParseCurrency(Lines(text)[i]).Ok?);
    }
  }

  lemma ReadTextOk(ls: seq<string>, v: seq<Db.Currency>)
    requires Db.ParseAll(Db.MapLines(ls, ParseCurrency)) == Ok(v)
    ensures |v| == |ls| && forall k :: 0 <= k < |ls| ==> ParseCurrency(ls[k]) == Ok(v[k])
  {
    var rs := Db.MapLines(ls, ParseCurrency);
    forall k | 0 <= k < |ls| ensures ParseCurrency(ls[k]) == Ok(v[k]) {
      assert rs[k] == ParseCurrency(ls[k]);
    }
  }

  lemma ReadTextErr(ls: seq<string>, k: nat, e: CacheError)
    requires var rs := Db.MapLines(ls, ParseCurrency);
             k < |rs| && rs[k] == Err(e) && forall j :: 0 <= j < k ==> rs[j].Ok?
    ensures ParseCurrency(ls[k]) == Err(e)
    ensures forall j :: 0 <= j < k ==> ParseCurrency(ls[j]).Ok?
  {
    var rs := Db.MapLines(ls, ParseCurrency);
    assert rs[k] == ParseCurrency(ls[k]);
    forall j | 0 <= j < k ensures ParseCurrency(ls[j]).Ok? {
      assert rs[j] == ParseCurrency(ls[j]);
    }
  }

  /** Names that survive a round trip through the file. */
  predicate PlainName(name: string)
  {
    ' ' !in name && '\n' !in name
  }

  lemma CurrencyLinePlain(c: Db.Currency)
    requires PlainName(c.name)
    ensures PlainLine(CurrencyLine(c))
  {
    var rate := Show(c.toEur);
    ShowChars(c.toEur);
    var l := CurrencyLine(c);
    assert l[|l| - 1] == rate[|rate| - 1];
    forall k | 0 <= k < |l| ensures l[k] != '\n' {
      if k >= |c.name| + 1 {
        assert l[k] == rate[k - |c.name| - 1];
      }
    }
  }

  /** Reading the file `update_currencies(v)` wrote gives `v`, then `eur` at rate 1. */
  lemma ReadWritten(v: seq<Db.Currency>)
    requires forall k :: 0 <= k < |v| ==> PlainName(v[k].name)
    ensures ReadText(CurrenciesText(v)) == Ok(v + [Eur])
  {
    var ls := CurrencyLines(v);
    forall k | 0 <= k < |ls| ensures PlainLine(ls[k]) {
      CurrencyLinePlain(v[k]);
    }
    LinesUnlines(ls);
    var rs := Db.MapLines(ls, ParseCurrency);
    forall k | 0 <= k < |v| ensures rs[k] == Ok(v[k]) {
      ParseCurrencyLine(v[k]);
    }
    ParseAllOfOks(rs, v);
  }

  lemma {:induction false} ParseAllOfOks<T, E>(rs: seq<Result<T, E>>, v: seq<T>)
    requires |rs| == |v| && forall k :: 0 <= k < |v| ==> rs[k] == Ok(v[k])
    ensures Db.ParseAll(rs) == Ok(v)
  {
    if rs != [] {
      var n := |rs| - 1;
      ParseAllOfOks(rs[..n], v[..n]);
      assert v == v[..n] + [v[n]];
    }
  }

  /** `read_currencies`: a currency per line in file order, then `eur` at rate 1. */
  method ReadCurrenciesFrom(text: string) returns (r: Result<seq<Db.Currency>, CacheError>)
    ensures r == ReadText(text)
  {
    var lines := Lines(text);
    ghost var rs := Db.MapLines(lines, ParseCurrency);
    var ret: seq<Db.Currency> := [];
    assert rs[..0] == [];
    for i := 0 to |lines|
      invariant Db.ParseAll(rs[..i]) == Ok(ret)
    {
      var fields := Split(lines[i], ' ');
      var name := fields[0];
      var rate := if |fields| >= 2 then fields[1] else "";
      assert rs[i] == ParseCurrency(lines[i]);
      if |name| < 3 {
        Db.ParseAllAbort(rs, i);
        return Err(ShortName(name));
      }
      var d := ParseDecimal(rate);
      if d.None? {
        Db.ParseAllAbort(rs, i);
        return Err(InvalidRate(rate));
      }
      Db.ParseAllSnoc(rs, i);
      ret := ret + [Db.Currency(name[..3], d.value)];
    }
    assert rs[..|lines|] == rs;
    ret := ret + [Eur];
    return Ok(ret);
  }

  // ---------------------------------------------------------------- staleness

  /** `cache_stale`: a missing file is stale, a file whose metadata cannot be
      read is an error, and a file is stale when it is strictly older than `maxAge`. */
  function CacheStale(f: FileState, maxAge: nat): (r: Result<bool, IoError>)
  {
    match f
    case Present(_, age, _, _) => Ok(age > maxAge)
    case Absent(_) => Ok(true)
    case Unreadable(reason) => Err(Other(reason))
  }

  /** A file only gets staler: whatever is stale at some age stays stale when older. */
  lemma StaleMonotone(text: string, age: nat, older: nat, maxAge: nat, write: Access, read: Access)
    requires age <= older
    ensures CacheStale(Present(text, age, write, read), maxAge) == Ok(true) ==>
              CacheStale(Present(text, older, write, read), maxAge) == Ok(true)
  {
  }

  /** The day boundary: a file exactly a day old is still fresh, a second more is stale. */
  lemma StaleAfterADay(text: string, write: Access, read: Access)
    ensures CacheStale(Present(text, 86400, write, read), CurrenciesMaxAge) == Ok(false)
    ensures CacheStale(Present(text, 86401, write, read), CurrenciesMaxAge) == Ok(true)
  {
  }

  // ---------------------------------------------------------------- refreshing

  /** The file can be opened for writing: a missing file whose directory and
      file can be created, or a present file that opens for writing. */
  predicate Writable(f: FileState)
  {
    (f.Absent? && f.create.Granted?) || (f.Present? && f.write.Granted?)
  }

  /** The file after `update_currencies(v)`, or its failure: `create_dir` or
      `open` fails for an entry whose metadata cannot be read, a missing file
      that cannot be created, or a file that does not open for writing; any
      other is created or truncated and holds exactly the lines for `v`. A
      created file can be read; a truncated one keeps its read access. */
  function Written(f: FileState, v: seq<Db.Currency>): (r: Result<FileState, IoError>)
    ensures r.Ok? <==> Writable(f)
    ensures r.Ok? ==> r.value.Present? && r.value.age == 0 && r.value.content == CurrenciesText(v)
                      && r.value.write.Granted? && (r.value.read.Denied? ==> f.Present? && f.read.Denied?)
  {
    match f
    case Unreadable(reason) => Err(Other(reason))
    case Absent(create) =>
      if create.Denied? then Err(Other(create.reason)) else Ok(Present(CurrenciesText(v), 0, Granted, Granted))
    case Present(_, _, write, read) =>
      if write.Denied? then Err(Other(write.reason)) else Ok(Present(CurrenciesText(v), 0, Granted, read))
  }

  /** The file after the refresh step of `Cache::read_currencies`, or the error
      that ends it: the file is rewritten with what `fetch` returns when `force`
      is set or the file is stale, and left alone otherwise. */
  function Refresh(f: FileState, force: bool, fetch: Result<seq<Db.Currency>, IoError>): Result<FileState, IoError>
  {
    var due := if force then Ok(true) else CacheStale(f, CurrenciesMaxAge);
    match due
    case Err(e) => Err(e)
    case Ok(stale) =>
      if !stale then Ok(f)
      else
        match fetch
        case Err(e) => Err(e)
        case Ok(v) => Written(f, v)
  }

  /** A failed fetch never changes the file: the refresh either keeps the file
      or fails, and when the file had to be rewritten it fails with the fetch's error. */
  lemma FailedFetchKeepsFile(f: FileState, force: bool, e: IoError)
    ensures Refresh(f, force, Err(e)).Ok? ==> Refresh(f, force, Err(e)) == Ok(f)
    ensures (force || CacheStale(f, CurrenciesMaxAge) == Ok(true)) ==> Refresh(f, force, Err(e)) == Err(e)
  {
  }

  /** A fresh file is neither fetched again nor rewritten, whatever `fetch` would return. */
  lemma FreshFileKept(text: string, age: nat, write: Access, read: Access, fetch: Result<seq<Db.Currency>, IoError>)
    requires age <= CurrenciesMaxAge
    ensures Refresh(Present(text, age, write, read), false, fetch) == Ok(Present(text, age, write, read))
  {
  }

  /** A forced or stale refresh with a successful fetch, of a file that can be
      written and then read, leaves exactly the fetched rates in the file, and
      reading it gives them back followed by `eur`. */
  lemma RefreshedFileReads(f: FileState, force: bool, v: seq<Db.Currency>)
    requires Writable(f) && (f.Present? ==> f.read.Granted?)
    requires force || CacheStale(f, CurrenciesMaxAge) == Ok(true)
    requires forall k :: 0 <= k < |v| ==> PlainName(v[k].name)
    ensures Refresh(f, force, Ok(v)).Ok?
    ensures Reload(Refresh(f, force, Ok(v)).value) == Ok(v + [Eur])
  {
    RefreshWrites(f, force, v);
    ReadWritten(v);
  }

  /** A forced or stale refresh with a successful fetch rewrites the file with
      the fetched rates exactly when the file can be written, and otherwise
      fails with the error of `create_dir` or `open`. */
  lemma RefreshWrites(f: FileState, force: bool, v: seq<Db.Currency>)
    requires force || CacheStale(f, CurrenciesMaxAge) == Ok(true)
    ensures Refresh(f, force, Ok(v)) == Written(f, v)
    ensures Refresh(f, force, Ok(v)).Ok? <==> Writable(f)
    ensures Writable(f) ==> var g := Refresh(f, force, Ok(v)).value;
                            g.Present? && g.content == CurrenciesText(v) && g.age == 0
  {
  }

  /** A stale file that does not open for writing is fetched for, but the
      refresh then fails with the error of `open`, and the file stays as it was. */
  lemma StaleReadOnlyFails(text: string, age: nat, reason: string, read: Access, v: seq<Db.Currency>)
    requires age > CurrenciesMaxAge
    ensures Refresh(Present(text, age, Denied(reason), read), false, Ok(v)) == Err(Other(reason))
  {
  }

  /** After a successful refresh the file is there, so it can be opened. */
  lemma RefreshedFileExists(f: FileState, force: bool, fetch: Result<seq<Db.Currency>, IoError>)
    ensures Refresh(f, force, fetch).Ok? ==> Refresh(f, force, fetch).value.Present?
  {
  }

  /** `File::open` and `read_currencies` on the file as it is: a missing file,
      an entry whose metadata cannot be read and a file that does not open for
      reading fail to open; any other file is read. */
  function Reload(f: FileState): (r: Result<seq<Db.Currency>, CacheError>)
    ensures f.Absent? ==> r == Err(Io(NotFound))
    ensures f.Present? && f.read.Denied? ==> r == Err(Io(Other(f.read.reason)))
    ensures r.Ok? ==> f.Present? && f.read.Granted? && |r.value| >= 1 && r.value[|r.value| - 1] == Eur
  {
    match f
    case Absent(_) => Err(Io(NotFound))
    case Unreadable(reason) => Err(Io(Other(reason)))
    case Present(text, _, _, read) => if read.Denied? then Err(Io(Other(read.reason))) else ReadText(text)
  }

  /** The one file the cache owns, `<cache dir>/currencies`. */
  class CurrencyFile {
    var state: FileState

    constructor(state0: FileState)
      ensures state == state0
    {
      state := state0;
    }

    /** `update_currencies`: create or truncate the file, then write one line
        per currency in order. */
    method Update(v: seq<Db.Currency>) returns (r: Result<(), IoError>)
      modifies this
      ensures Written(old(state), v).Err? ==> r == Err(Written(old(state), v).error) && state == old(state)
      ensures Written(old(state), v).Ok? ==> r == Ok(()) && state == Written(old(state), v).value
    {
      var read: Access;
      match state {
        case Unreadable(reason) =>
          return Err(Other(reason));
        case Absent(create) =>
          if create.Denied? {
            return Err(Other(create.reason));
          }
          read := Granted;
        case Present(_, _, write, access) =>
          if write.Denied? {
            return Err(Other(write.reason));
          }
          read := access;
      }
      WriteLines(v, read);
      return Ok(());
    }

    /** The file opened for writing and truncated, then one line per currency
        written in order. */
    method WriteLines(v: seq<Db.Currency>, read: Access)
      modifies this
      ensures state == Present(CurrenciesText(v), 0, Granted, read)
    {
      var written := "";
      state := Present(written, 0, Granted, read);
      for i := 0 to |v|
        invariant written == CurrenciesText(v[..i])
        invariant state == Present(written, 0, Granted, read)
      {
        WrittenSnoc(v[..i], v[i]);
        assert v[..i + 1] == v[..i] + [v[i]];
        written := written + CurrencyLine(v[i]) + "\n";
        state := Present(written, 0, Granted, read);
      }
      assert v[..|v|] == v;
    }
  }

  lemma WrittenSnoc(v: seq<Db.Currency>, c: Db.Currency)
    ensures CurrenciesText(v + [c]) == CurrenciesText(v) + CurrencyLine(c) + "\n"
  {
    assert CurrencyLines(v + [c]) == CurrencyLines(v) + [CurrencyLine(c)];
    UnlinesSnoc(CurrencyLines(v), CurrencyLine(c));
  }

  lemma {:induction false} UnlinesSnoc(ls: seq<string>, l: string)
    ensures Unlines(ls + [l]) == Unlines(ls) + l + "\n"
  {
    if ls == [] {
      assert [] + [l] == [l];
    } else {
      assert (ls + [l])[1..] == ls[1..] + [l];
      UnlinesSnoc(ls[1..], l);
    }
  }

  /** `Cache`: the rates of the last successful read. */
  class Cache {
    var currencies: seq<Db.Currency>

    /** `Cache::new`: no rates yet. */
    constructor()
      ensures currencies == []
    {
      currencies := [];
    }

    /** `Cache::read_currencies`: refresh the file when forced or stale, then
        read it into `currencies`. Any failure leaves `currencies` as it was,
        and a failure before the file is rewritten (a metadata error, a failed
        fetch) leaves the file as it was too. `fetch` is what the fetch would
        return; it is consulted only when the file is rewritten. */
    method ReadCurrencies(file: CurrencyFile, force: bool, fetch: Result<seq<Db.Currency>, IoError>)
      returns (r: Result<(), CacheError>)
      modifies this, file
      ensures Refresh(old(file.state), force, fetch).Err? ==>
                && r == Err(Io(Refresh(old(file.state), force, fetch).error))
                && file.state == old(file.state) && currencies == old(currencies)
      ensures Refresh(old(file.state), force, fetch).Ok? ==>
                && file.state == Refresh(old(file.state), force, fetch).value
                && (Reload(file.state).Ok? ==> r == Ok(()) && currencies == Reload(file.state).value)
                && (Reload(file.state).Err? ==> r == Err(Reload(file.state).error) && currencies == old(currencies))
    {
      var stale: bool;
      if force {
        stale := true;
      } else {
        var s := CacheStale(file.state, CurrenciesMaxAge);
        if s.Err? {
          return Err(Io(s.error));
        }
        stale := s.value;
      }
      if stale {
        if fetch.Err? {
          return Err(Io(fetch.error));
        }
        var w := file.Update(fetch.value);
        if w.Err? {
          return Err(Io(w.error));
        }
      }
      var text: string;
      match file.state {
        case Absent(_) =>
          return Err(Io(NotFound));
        case Unreadable(reason) =>
          return Err(Io(Other(reason)));
        case Present(t, _, _, read) =>
          if read.Denied? {
            return Err(Io(Other(read.reason)));
          }
          text := t;
      }
      var read := ReadCurrenciesFrom(text);
      if read.Err? {
        return Err(read.error);
      }
      currencies := read.value;
      return Ok(());
    }
  }
}
