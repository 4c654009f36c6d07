/** The import path of the upload component
    (src/components/FileUpload.tsx): the file's extension picks a parser,
    and the parsed rows are mapped to preview transactions by looking up
    the first filled column among several spellings. */
module FileUpload {
  import opened Wrappers
  import opened Types
  import opened Text

  // ---------------------------------------------------------------------
  // handleFile: the extension dispatch
  // ---------------------------------------------------------------------

  /** The two parsers the component can hand a file to. */
  datatype Format = Csv | Excel

  /** The lower-cased text after the file name's last '.', or the whole
      lower-cased name when it has no '.'. */
  function Extension(name: string): string
  {
    Lower(AfterLastDot(name))
  }

  /** "csv" goes to the CSV parser, "xlsx" and "xls" to the Excel parser,
      anything else is refused. */
  function FormatOf(name: string): (r: Option<Format>)
    ensures r == Some(Csv) <==> Extension(name) == "csv"
    ensures r == Some(Excel) <==> Extension(name) in ["xlsx", "xls"]
  {
    var ext := Extension(name);
    if ext == "csv" then Some(Csv)
    else if ext == "xlsx" || ext == "xls" then Some(Excel)
    else None
  }

  /** The extension of `stem.ext` is `ext`, lower-cased, whatever the stem
      holds (dots included), as long as `ext` has no dot. */
  lemma {:induction false} AfterLastDotJoin(stem: string, ext: string)
    requires '.' !in ext
    ensures AfterLastDot(stem + "." + ext) == ext
    decreases |ext|
  {
    if ext != [] {
      var pre := ext[..|ext| - 1];
      assert '.' !in pre by {
        forall i | 0 <= i < |pre| ensures pre[i] != '.' {
          assert pre[i] == ext[i];
        }
      }
      AfterLastDotJoin(stem, pre);
      assert (stem + "." + ext)[..|stem + "." + ext| - 1] == stem + "." + pre;
    }
  }

  lemma {:induction false} ExtensionOfJoin(stem: string, ext: string)
    requires '.' !in ext
    ensures Extension(stem + "." + ext) == Lower(ext)
  {
    AfterLastDotJoin(stem, ext);
  }

  /** Lower-casing a string with one more character at the end. */
  lemma {:induction false} LowerSnoc(s: string, c: char)
    ensures Lower(s + [c]) == Lower(s) + [LowerChar(c)]
  {
    var l, r := Lower(s + [c]), Lower(s) + [LowerChar(c)];
    assert |l| == |r|;
    forall i | 0 <= i < |l|
      ensures l[i] == r[i]
    {
      if i < |s| {
        assert (s + [c])[i] == s[i];
      }
    }
  }

  /** Lower-casing commutes with taking the text after the last dot, since
      '.' is not a letter. */
  lemma {:induction false} AfterLastDotLower(s: string)
    ensures AfterLastDot(Lower(s)) == Lower(AfterLastDot(s))
    decreases |s|
  {
    if s != [] {
      var pre, c := s[..|s| - 1], s[|s| - 1];
      assert s == pre + [c];
      LowerSnoc(pre, c);
      var low := Lower(pre) + [LowerChar(c)];
      assert Lower(s) == low;
      assert low[..|low| - 1] == Lower(pre);
      AfterLastDotLower(pre);
      if c == '.' {
        assert AfterLastDot(low) == [];
      } else {
        assert LowerChar(c) != '.';
        assert AfterLastDot(low) == AfterLastDot(Lower(pre)) + [LowerChar(c)];
        LowerSnoc(AfterLastDot(pre), c);
      }
    }
  }

  /** The format does not depend on the case of the file name. */
  lemma {:induction false} FormatIgnoresCase(name: string)
    ensures FormatOf(Lower(name)) == FormatOf(name)
  {
    AfterLastDotLower(name);
    LowerIdempotent(AfterLastDot(name));
  }

  /** A name without a dot is its own extension: a file called just "csv"
      (in any case) is read as CSV. */
  lemma {:induction false} DotlessName(name: string)
    requires '.' !in name
    ensures Extension(name) == Lower(name)
    ensures FormatOf(name) == Some(Csv) <==> Lower(name) == "csv"
  {
  }

  // ---------------------------------------------------------------------
  // mapToTransactions
  // ---------------------------------------------------------------------

  /** A parsed row: column header to cell text. */
  type Row = map<string, string>

  /** The cell is present and truthy, that is, non-empty. */
  predicate Filled(row: Row, column: string)
  {
    column in row && row[column] != ""
  }

  /** A chain of `||` over the row's cells: the first filled cell among
      `columns`, else `fallback`. */
  function FirstFilled(row: Row, columns: seq<string>, fallback: string): (r: string)
    ensures r == fallback || exists i :: 0 <= i < |columns| && Filled(row, columns[i]) && r == row[columns[i]]
  {
    if columns == [] then fallback
    else if Filled(row, columns[0]) then row[columns[0]]
    else FirstFilled(row, columns[1..], fallback)
  }

  /** When column `i` is the first filled one, its cell is the answer. */
  lemma {:induction false} FirstFilledAt(row: Row, columns: seq<string>, fallback: string, i: nat)
    requires i < |columns| && Filled(row, columns[i])
    requires forall j :: 0 <= j < i ==> !Filled(row, columns[j])
    ensures FirstFilled(row, columns, fallback) == row[columns[i]]
    decreases i
  {
    if i > 0 {
      assert !Filled(row, columns[0]);
      forall j | 0 <= j < i - 1
        ensures !Filled(row, columns[1..][j])
      {
        assert columns[1..][j] == columns[j + 1];
      }
      FirstFilledAt(row, columns[1..], fallback, i - 1);
    }
  }

  /** When no column is filled, the fallback is the answer. */
  lemma {:induction false} FirstFilledNone(row: Row, columns: seq<string>, fallback: string)
    requires forall j :: 0 <= j < |columns| ==> !Filled(row, columns[j])
    ensures FirstFilled(row, columns, fallback) == fallback
    decreases |columns|
  {
    if columns != [] {
      assert !Filled(row, columns[0]);
      forall j | 0 <= j < |columns[1..]|
        ensures !Filled(row, columns[1..][j])
      {
        assert columns[1..][j] == columns[j + 1];
      }
      FirstFilledNone(row, columns[1..], fallback);
    }
  }

  const DescriptionColumns: seq<string> :=
    ["description", "Description", "memo", "Memo", "details", "Details",
     "transaction", "Transaction"]

  const AmountColumns: seq<string> :=
    ["amount", "Amount", "value", "Value", "debit", "Debit", "credit", "Credit"]

  const DateColumns: seq<string> :=
    ["date", "Date", "transaction_date", "Transaction Date", "posting_date",
     "Posting Date"]

  /** What the mapping needs from the JavaScript runtime: `parseFloat`
      (`None` for NaN), conversion of a date text to an ISO string (`None`
      when the runtime throws on an invalid date) and the ISO string of the
      current time, taken as one value for the whole import. */
  datatype Env = Env(
    parseFloat: string -> Option<real>,
    isoString: string -> Option<string>,
    now: string)

  /** A row after mapping and before filtering; `amount` is `None` where
      JavaScript has NaN. */
  datatype Mapped = Mapped(description: string, amount: Option<real>, date: string, kind: Kind)

  /** A preview transaction: what the filter lets through. */
  datatype Imported = Imported(description: string, amount: real, date: string, kind: Kind)

  function Abs(x: real): real
  {
    if x < 0.0 then -x else x
  }

  /** The amount a row's cells are parsed from. */
  function AmountText(row: Row): string
  {
    FirstFilled(row, AmountColumns, "0")
  }

  /** The mapping of one row. `None` when the date cannot be converted,
      which makes the whole `map` throw. A negative amount makes an expense
      and anything else (NaN included, since `NaN < 0` is false) an income;
      the amount kept is the absolute value. */
  function MapRow(row: Row, env: Env): (r: Option<Mapped>)
    ensures r.Some? ==> Signed(r.value) == env.parseFloat(AmountText(row))
    ensures r.Some? && r.value.amount.Some? ==> r.value.amount.value >= 0.0
  {
    var description := FirstFilled(row, DescriptionColumns, "");
    var parsed := env.parseFloat(AmountText(row));
    var date := FirstFilled(row, DateColumns, env.now);
    match env.isoString(date)
    case None => None
    case Some(iso) =>
      var negative := parsed.Some? && parsed.value < 0.0;
      var amount := if parsed.Some? then Some(Abs(parsed.value)) else None;
      Some(Mapped(description, amount, iso, if negative then Expense else Income))
  }

  /** The signed amount a mapped record stands for. */
  function Signed(m: Mapped): Option<real>
  {
    if m.amount.None? then None
    else if m.kind == Expense then Some(-m.amount.value)
    else Some(m.amount.value)
  }

  /** Sign and magnitude lose nothing: the kind and the absolute amount
      give back the parsed number (with -0 and 0 identified). */
  lemma {:induction false} SignedRoundTrip(row: Row, env: Env)
    requires MapRow(row, env).Some?
    ensures Signed(MapRow(row, env).value) == env.parseFloat(AmountText(row))
    ensures MapRow(row, env).value.kind == Expense <==>
            env.parseFloat(AmountText(row)).Some? && env.parseFloat(AmountText(row)).value < 0.0
    ensures MapRow(row, env).value.amount.Some? ==> MapRow(row, env).value.amount.value >= 0.0
  {
  }

  /** The `map` over the rows: every row mapped, or `None` if any row
      throws. */
  function MapAll(rows: seq<Row>, env: Env): (r: Option<seq<Mapped>>)
    ensures r.Some? ==>
              && |r.value| == |rows|
              && forall i :: 0 <= i < |rows| ==> MapRow(rows[i], env) == Some(r.value[i])
    ensures r.None? ==> exists i :: 0 <= i < |rows| && MapRow(rows[i], env).None?
  {
    if rows == [] then Some([])
    else
      match MapRow(rows[0], env)
      case None => None
      case Some(m) =>
        match MapAll(rows[1..], env)
        case None =>
          assert forall i :: 0 <= i < |rows[1..]| ==> rows[1..][i] == rows[i + 1];
          None
        case Some(rest) =>
          assert forall i :: 0 < i < |rows| ==> rows[i] == rows[1..][i - 1];
          Some([m] + rest)
  }

  /** The filter `tx.description && tx.amount > 0`. */
  predicate Keep(m: Mapped)
  {
    m.description != "" && m.amount.Some? && m.amount.value > 0.0
  }

  function Finish(m: Mapped): Imported
    requires Keep(m)
  {
    Imported(m.description, m.amount.value, m.date, m.kind)
  }

  /** The `filter` of the mapped rows. */
  function Kept(ms: seq<Mapped>): (r: seq<Imported>)
    ensures |r| <= |ms|
    ensures forall k :: 0 <= k < |r| ==> r[k].description != "" && r[k].amount > 0.0
  {
    if ms == [] then []
    else if Keep(ms[0]) then [Finish(ms[0])] + Kept(ms[1..])
    else Kept(ms[1..])
  }

  /** A mapped row survives the filter exactly when it has a description
      and its amount parsed to a non-zero number: zero, NaN and a missing
      description are dropped, and a negative amount is kept as an
      expense. */
  lemma {:induction false} RowKept(row: Row, env: Env)
    requires MapRow(row, env).Some?
    ensures var parsed := env.parseFloat(AmountText(row));
      Keep(MapRow(row, env).value) <==>
        && FirstFilled(row, DescriptionColumns, "") != ""
        && parsed.Some? && parsed.value != 0.0
  {
  }

  /** A row with no filled amount column is parsed from "0" and so is
      dropped whenever the runtime reads "0" as zero. */
  lemma {:induction false} UnamountedRowDropped(row: Row, env: Env)
    requires forall j :: 0 <= j < |AmountColumns| ==> !Filled(row, AmountColumns[j])
    requires env.parseFloat("0") == Some(0.0)
    requires MapRow(row, env).Some?
    ensures AmountText(row) == "0"
    ensures !Keep(MapRow(row, env).value)
  {
    FirstFilledNone(row, AmountColumns, "0");
  }

  /** `idx` lists, in increasing order, the positions of `ms` the filter
      keeps. */
  predicate KeptPositions(ms: seq<Mapped>, r: seq<Imported>, idx: seq<nat>)
  {
    && |idx| == |r|
    && (forall k :: 0 <= k < |idx| ==> idx[k] < |ms| && Keep(ms[idx[k]]) && r[k] == Finish(ms[idx[k]]))
    && (forall k, l :: 0 <= k < l < |idx| ==> idx[k] < idx[l])
    && (forall i :: 0 <= i < |ms| && Keep(ms[i]) ==> i in idx)
  }

  /** Every position moved one place to the right. */
  function Shift(idx: seq<nat>): (r: seq<nat>)
    ensures |r| == |idx|
    ensures forall k :: 0 <= k < |idx| ==> r[k] == idx[k] + 1
  {
    if idx == [] then [] else [idx[0] + 1] + Shift(idx[1..])
  }

  /** Every passing position of `ms` after the head is a kept position
      of its tail, moved one place. */
  lemma {:induction false} ShiftCovers(ms: seq<Mapped>, tail: seq<nat>)
    requires ms != []
    requires forall i :: 0 <= i < |ms[1..]| && Keep(ms[1..][i]) ==> i in tail
    ensures forall i :: 0 < i < |ms| && Keep(ms[i]) ==> i in Shift(tail)
  {
    forall i | 0 < i < |ms| && Keep(ms[i])
      ensures i in Shift(tail)
    {
      assert ms[1..][i - 1] == ms[i];
      var k :| 0 <= k < |tail| && tail[k] == i - 1;
      assert Shift(tail)[k] == i;
    }
  }

  /** The head is dropped: the kept positions are the tail's, moved. */
  lemma {:induction false} KeptConsDrop(ms: seq<Mapped>, tail: seq<nat>)
    requires ms != [] && !Keep(ms[0])
    requires KeptPositions(ms[1..], Kept(ms[1..]), tail)
    ensures KeptPositions(ms, Kept(ms), Shift(tail))
  {
    assert Kept(ms) == Kept(ms[1..]);
    DropEntries(ms, tail, Kept(ms));
    ShiftCovers(ms, tail);
  }

  lemma {:induction false} DropEntries(ms: seq<Mapped>, tail: seq<nat>, r: seq<Imported>)
    requires ms != [] && |tail| == |r|
    requires forall k :: 0 <= k < |tail| ==>
               tail[k] < |ms[1..]| && Keep(ms[1..][tail[k]]) && r[k] == Finish(ms[1..][tail[k]])
    ensures var idx := Shift(tail);
      forall k :: 0 <= k < |idx| ==> idx[k] < |ms| && Keep(ms[idx[k]]) && r[k] == Finish(ms[idx[k]])
  {
    var idx := Shift(tail);
    forall k | 0 <= k < |idx|
      ensures idx[k] < |ms| && Keep(ms[idx[k]]) && r[k] == Finish(ms[idx[k]])
    {
      assert ms[idx[k]] == ms[1..][tail[k]];
    }
  }

  /** The head passes: position 0, then the tail's positions, moved. */
  lemma {:induction false} KeptConsKeep(ms: seq<Mapped>, tail: seq<nat>)
    requires ms != [] && Keep(ms[0])
    requires KeptPositions(ms[1..], Kept(ms[1..]), tail)
    ensures KeptPositions(ms, Kept(ms), [0] + Shift(tail))
  {
    var idx := [0] + Shift(tail);
    KeepLength(ms, tail);
    KeepEntries(ms, tail);
    KeepOrder(tail);
    ShiftCovers(ms, tail);
    KeepComplete(ms, tail);
  }

  lemma {:induction false} KeepLength(ms: seq<Mapped>, tail: seq<nat>)
    requires ms != [] && Keep(ms[0])
    requires |tail| == |Kept(ms[1..])|
    ensures |[0] + Shift(tail)| == |Kept(ms)|
  {
  }

  lemma {:induction false} KeepEntries(ms: seq<Mapped>, tail: seq<nat>)
    requires ms != [] && Keep(ms[0])
    requires |tail| == |Kept(ms[1..])|
    requires forall k :: 0 <= k < |tail| ==>
               tail[k] < |ms[1..]| && Keep(ms[1..][tail[k]]) && Kept(ms[1..])[k] == Finish(ms[1..][tail[k]])
    ensures var idx := [0] + Shift(tail);
      forall k :: 0 <= k < |idx| ==> idx[k] < |ms| && Keep(ms[idx[k]]) && Kept(ms)[k] == Finish(ms[idx[k]])
  {
    var idx, r := [0] + Shift(tail), Kept(ms);
    assert r == [Finish(ms[0])] + Kept(ms[1..]);
    forall k | 0 <= k < |idx|
      ensures idx[k] < |ms| && Keep(ms[idx[k]]) && r[k] == Finish(ms[idx[k]])
    {
      if k > 0 {
        assert idx[k] == tail[k - 1] + 1;
        assert ms[idx[k]] == ms[1..][tail[k - 1]];
      }
    }
  }

  lemma {:induction false} KeepOrder(tail: seq<nat>)
    requires forall k, l :: 0 <= k < l < |tail| ==> tail[k] < tail[l]
    ensures var idx := [0] + Shift(tail);
      forall k, l :: 0 <= k < l < |idx| ==> idx[k] < idx[l]
  {
    var idx := [0] + Shift(tail);
    forall k, l | 0 <= k < l < |idx|
      ensures idx[k] < idx[l]
    {
      assert idx[l] == tail[l - 1] + 1;
      if k > 0 {
        assert idx[k] == tail[k - 1] + 1;
      }
    }
  }

  lemma {:induction false} KeepComplete(ms: seq<Mapped>, tail: seq<nat>)
    requires ms != [] && Keep(ms[0])
    requires forall i :: 0 < i < |ms| && Keep(ms[i]) ==> i in Shift(tail)
    ensures forall i :: 0 <= i < |ms| && Keep(ms[i]) ==> i in [0] + Shift(tail)
  {
    var shifted := Shift(tail);
    var idx := [0] + shifted;
    forall i | 0 <= i < |ms| && Keep(ms[i])
      ensures i in idx
    {
      if i > 0 {
        var k :| 0 <= k < |shifted| && shifted[k] == i;
        assert idx[k + 1] == i;
      }
    }
  }

  /** The filter keeps exactly the records that pass, in their order. */
  lemma {:induction false} KeptInOrder(ms: seq<Mapped>) returns (idx: seq<nat>)
    ensures KeptPositions(ms, Kept(ms), idx)
    decreases |ms|
  {
    if ms == [] {
      idx := [];
    } else {
      var tail := KeptInOrder(ms[1..]);
      if Keep(ms[0]) {
        KeptConsKeep(ms, tail);
        idx := [0] + Shift(tail);
      } else {
        KeptConsDrop(ms, tail);
        idx := Shift(tail);
      }
    }
  }

  /** `mapToTransactions`: map every row, then keep those with a
      description and a positive amount. */
  function MapToTransactions(rows: seq<Row>, env: Env): (r: Option<seq<Imported>>)
    ensures r.None? <==> exists i :: 0 <= i < |rows| && MapRow(rows[i], env).None?
    ensures r.Some? ==> |r.value| <= |rows|
    ensures r.Some? ==> forall k :: 0 <= k < |r.value| ==>
              r.value[k].description != "" && r.value[k].amount > 0.0
  {
    match MapAll(rows, env)
    case None => None
    case Some(ms) => Some(Kept(ms))
  }

  /** The mapping fails exactly when some row's date cannot be converted,
      even a row the filter would drop; otherwise the preview holds, in
      file order, exactly the rows with a description and a positive
      amount. */
  lemma {:induction false} MapToTransactionsSpec(rows: seq<Row>, env: Env) returns (idx: seq<nat>)
    ensures MapToTransactions(rows, env).None? <==>
            exists i :: 0 <= i < |rows| && MapRow(rows[i], env).None?
    ensures MapToTransactions(rows, env).Some? ==>
              var out := MapToTransactions(rows, env).value;
              && |out| <= |rows|
              && |idx| == |out|
              && (forall k, l :: 0 <= k < l < |idx| ==> idx[k] < idx[l])
              && (forall k :: 0 <= k < |idx| ==>
                    && idx[k] < |rows|
                    && MapRow(rows[idx[k]], env).Some?
                    && Keep(MapRow(rows[idx[k]], env).value)
                    && out[k] == Finish(MapRow(rows[idx[k]], env).value))
              && (forall i :: 0 <= i < |rows| && Keep(MapRow(rows[i], env).value) ==> i in idx)
  {
    match MapAll(rows, env)
    case None =>
      idx := [];
    case Some(ms) =>
      idx := KeptInOrder(ms);
  }

  /** The description comes from the first filled description column, so
      "description" beats "Memo" when both are filled. */
  lemma {:induction false} DescriptionPriority(row: Row, env: Env)
    requires Filled(row, "description") && Filled(row, "Memo")
    requires MapRow(row, env).Some?
    ensures MapRow(row, env).value.description == row["description"]
  {
    FirstFilledAt(row, DescriptionColumns, "", 0);
  }

  /** The sign alone decides the kind: a positive figure found in a "debit"
      column (with no amount or value column filled) is an income. */
  lemma {:induction false} DebitColumnIsIncome(row: Row, env: Env, v: real)
    requires Filled(row, "debit")
    requires forall j :: 0 <= j < 4 ==> !Filled(row, AmountColumns[j])
    requires env.parseFloat(row["debit"]) == Some(v) && v > 0.0
    requires MapRow(row, env).Some?
    ensures MapRow(row, env).value.kind == Income
    ensures MapRow(row, env).value.amount == Some(v)
  {
    FirstFilledAt(row, AmountColumns, "0", 4);
  }

  /** A row without any filled date column is dated now. */
  lemma {:induction false} UndatedRowsAreDatedNow(row: Row, env: Env)
    requires forall j :: 0 <= j < |DateColumns| ==> !Filled(row, DateColumns[j])
    ensures MapRow(row, env).Some? <==> env.isoString(env.now).Some?
    ensures MapRow(row, env).Some? ==> MapRow(row, env).value.date == env.isoString(env.now).value
  {
    FirstFilledNone(row, DateColumns, env.now);
  }

  /** The runtime's clock reading is itself a valid ISO date string, which
      `new Date(...).toISOString()` returns unchanged. */
  predicate ClockConverts(env: Env)
  {
    env.isoString(env.now) == Some(env.now)
  }

  /** With a well-behaved clock an undated row never makes the import
      fail, and it is dated now. */
  lemma {:induction false} UndatedRowNeverFails(row: Row, env: Env)
    requires ClockConverts(env)
    requires forall j :: 0 <= j < |DateColumns| ==> !Filled(row, DateColumns[j])
    ensures MapRow(row, env).Some?
    ensures MapRow(row, env).value.date == env.now
  {
    UndatedRowsAreDatedNow(row, env);
  }

  /** A file none of whose rows has a date column maps without failing. */
  lemma {:induction false} UndatedFileMaps(rows: seq<Row>, env: Env)
    requires ClockConverts(env)
    requires forall i, j :: 0 <= i < |rows| && 0 <= j < |DateColumns| ==> !Filled(rows[i], DateColumns[j])
    ensures MapToTransactions(rows, env).Some?
    ensures forall k :: 0 <= k < |MapToTransactions(rows, env).value| ==>
              MapToTransactions(rows, env).value[k].date == env.now
  {
    forall i | 0 <= i < |rows|
      ensures MapRow(rows[i], env).Some? && MapRow(rows[i], env).value.date == env.now
    {
      UndatedRowNeverFails(rows[i], env);
    }
    var idx := MapToTransactionsSpec(rows, env);
  }

  // ---------------------------------------------------------------------
  // handleFile
  // ---------------------------------------------------------------------

  /** What the component ends up doing with a file: refusing its format,
      reporting a parse or conversion error, or showing a preview. */
  datatype ImportOutcome = Unsupported | Failed | Preview(transactions: seq<Imported>)

  /** `handleFile`. `parse` stands for the CSV and Excel libraries: the
      rows they produce for the file, or `None` when they reject it. */
  function ImportFile(name: string, parse: Format -> Option<seq<Row>>, env: Env): (r: ImportOutcome)
    ensures r.Preview? ==> forall k :: 0 <= k < |r.transactions| ==>
              r.transactions[k].description != "" && r.transactions[k].amount > 0.0
  {
    match FormatOf(name)
    case None => Unsupported
    case Some(f) =>
      match parse(f)
      case None => Failed
      case Some(rows) =>
        match MapToTransactions(rows, env)
        case None => Failed
        case Some(txs) => Preview(txs)
  }

  /** A refused format is decided by the name alone, before any parsing; a
      preview is the mapping of the rows the matching parser produced; a
      failure is a parser rejection or a failed mapping. */
  lemma {:induction false} ImportFileSpec(name: string, parse: Format -> Option<seq<Row>>, env: Env)
    ensures ImportFile(name, parse, env) == Unsupported <==> FormatOf(name).None?
    ensures ImportFile(name, parse, env).Preview? ==>
              && FormatOf(name).Some?
              && parse(FormatOf(name).value).Some?
              && MapToTransactions(parse(FormatOf(name).value).value, env) ==
                 Some(ImportFile(name, parse, env).transactions)
    ensures ImportFile(name, parse, env) == Failed <==>
              && FormatOf(name).Some?
              && (|| parse(FormatOf(name).value).None?
                  || MapToTransactions(parse(FormatOf(name).value).value, env).None?)
  {
  }

  /** The outcome does not depend on the case of the file name. */
  lemma {:induction false} ImportIgnoresCase(name: string, parse: Format -> Option<seq<Row>>, env: Env)
    ensures ImportFile(Lower(name), parse, env) == ImportFile(name, parse, env)
  {
    FormatIgnoresCase(name);
    SameFormatSameImport(Lower(name), name, parse, env);
  }

  /** The name matters only through its format. */
  lemma {:induction false} SameFormatSameImport(a: string, b: string, parse: Format -> Option<seq<Row>>, env: Env)
    requires FormatOf(a) == FormatOf(b)
    ensures ImportFile(a, parse, env) == ImportFile(b, parse, env)
  {
  }

  /** A file `stem.ext` is refused exactly when `ext`, in any case, is none
      of "csv", "xlsx" and "xls", whatever the stem holds. */
  lemma {:induction false} ImportOfJoin(stem: string, ext: string, parse: Format -> Option<seq<Row>>, env: Env)
    requires '.' !in ext
    ensures ImportFile(stem + "." + ext, parse, env) != Unsupported <==>
            Lower(ext) in ["csv", "xlsx", "xls"]
  {
    ExtensionOfJoin(stem, ext);
  }
}
