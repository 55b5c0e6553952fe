/** The symbol source `NSEFetcher.get_top_symbols`: up to three attempts at
    loading the volume-gainers table; from the first attempt whose table
    yields any symbol, the first whitespace token of the first cell of each
    data row, up to `limit` symbols. Navigation, waiting and the search for
    the table with a SYMBOL header are driver and parser work; each attempt's
    outcome is given as a `PageLoad`. */
module Fetcher {
  import opened Wrappers
  import opened Text

  const MaxAttempts: nat := 3

  /** The texts (`get_text(strip=True)`) of a table row's `td` cells. */
  type Row = seq<string>

  /** One attempt: the page, the wait for data rows or the table search
      failed (an exception), or the table was found with these rows, the
      header row first. */
  datatype PageLoad = LoadFailed | TableFound(rows: seq<Row>)

  /** The result of scanning the data rows: the symbols, or the `IndexError`
      of a row whose first cell has no token. */
  datatype Scan = Parsed(symbols: seq<string>) | BlankCell

  /** `table.find_all("tr")[1:]`: all rows but the header. */
  function DataRows(table: seq<Row>): (rows: seq<Row>)
    ensures |table| > 0 ==> table == table[..1] + rows
    ensures |table| == 0 ==> rows == []
  {
    if |table| == 0 then [] else table[1..]
  }

  /** The scan of `rows` after `acc` was collected: rows without cells are
      skipped, a blank first cell aborts, and the scan stops once `limit`
      symbols are collected (checked after each append). */
  function ScanRows(rows: seq<Row>, acc: seq<string>, limit: int): Scan
    decreases |rows|
  {
    if rows == [] then Parsed(acc)
    else if |rows[0]| == 0 then ScanRows(rows[1..], acc, limit)
    else match FirstToken(rows[0][0])
      case None => BlankCell
      case Some(t) =>
        if |acc| + 1 >= limit then Parsed(acc + [t]) else ScanRows(rows[1..], acc + [t], limit)
  }

  /** The row loop of one attempt. */
  method ScrapeTable(table: seq<Row>, limit: int) returns (r: Scan)
    ensures r == ScanRows(DataRows(table), [], limit)
  {
    var rows := DataRows(table);
    var symbols: seq<string> := [];
    var i := 0;
    while i < |rows|
      invariant 0 <= i <= |rows|
      invariant ScanRows(rows, [], limit) == ScanRows(rows[i..], symbols, limit)
    {
      var cols := rows[i];
      assert rows[i..][1..] == rows[i + 1..];
      if |cols| > 0 {
        var token := FirstToken(cols[0]);
        if token.None? {
          return BlankCell;
        }
        symbols := symbols + [token.value];
        if |symbols| >= limit {
          return Parsed(symbols);
        }
      }
      i := i + 1;
    }
    return Parsed(symbols);
  }

  /** A row from which the scan can take a symbol or that it skips. */
  predicate HasToken(row: Row)
  {
    |row| > 0 ==> FirstToken(row[0]).Some?
  }

  /** The reference: the first token of the first cell of every row that
      has cells, in row order. */
  function Tokens(rows: seq<Row>): seq<string>
    requires forall i :: 0 <= i < |rows| ==> HasToken(rows[i])
  {
    if rows == [] then []
    else
      assert HasToken(rows[0]);
      assert forall i :: 0 <= i < |rows[1..]| ==> HasToken(rows[1..][i]) by {
        forall i | 0 <= i < |rows[1..]| ensures HasToken(rows[1..][i]) {
          assert rows[1..][i] == rows[i + 1];
        }
      }
      (if |rows[0]| == 0 then [] else [FirstToken(rows[0][0]).value]) + Tokens(rows[1..])
  }

  /** The first `n` elements of `s`, or all of them when there are fewer. */
  function Take(s: seq<string>, n: nat): (r: seq<string>)
    ensures |r| == if n < |s| then n else |s|
    ensures r == s[..|r|]
  {
    if n < |s| then s[..n] else s
  }

  /** How many more symbols the scan takes after `collected`: up to the limit,
      but always at least one, since the limit is checked only after an append. */
  function Quota(limit: int, collected: nat): nat
  {
    if limit - collected >= 1 then limit - collected else 1
  }

  /** When no row has a blank first cell, the scan yields the first tokens of
      the rows with cells, in order, cut at the limit (at least one). */
  lemma {:induction false} ScanIsTakeOfTokens(rows: seq<Row>, acc: seq<string>, limit: int)
    requires forall i :: 0 <= i < |rows| ==> HasToken(rows[i])
    requires acc == [] || |acc| < limit
    ensures ScanRows(rows, acc, limit) == Parsed(acc + Take(Tokens(rows), Quota(limit, |acc|)))
  {
    if rows != [] {
      var tail := rows[1..];
      assert forall i :: 0 <= i < |tail| ==> HasToken(tail[i]) by {
        forall i | 0 <= i < |tail| ensures HasToken(tail[i]) {
          assert tail[i] == rows[i + 1];
        }
      }
      assert HasToken(rows[0]);
      if |rows[0]| == 0 {
        assert Tokens(rows) == Tokens(tail);
        ScanIsTakeOfTokens(tail, acc, limit);
      } else {
        var t := FirstToken(rows[0][0]).value;
        var rest := Tokens(tail);
        assert Tokens(rows) == [t] + rest;
        if |acc| + 1 >= limit {
          assert ScanRows(rows, acc, limit) == Parsed(acc + [t]);
          TakeFirst([t] + rest, Quota(limit, |acc|));
        } else {
          var q := Quota(limit, |acc|);
          assert Quota(limit, |acc + [t]|) == q - 1;
          ScanIsTakeOfTokens(tail, acc + [t], limit);
          TakeFirst([t] + rest, q);
          assert ([t] + rest)[1..] == rest;
          calc {
            ScanRows(rows, acc, limit);
            ScanRows(tail, acc + [t], limit);
            Parsed(acc + [t] + Take(rest, q - 1));
            { AppendAssoc(acc, [t], Take(rest, q - 1)); }
            Parsed(acc + Take([t] + rest, q));
          }
        }
      }
    }
  }

  lemma AppendAssoc<T>(a: seq<T>, b: seq<T>, c: seq<T>)
    ensures a + b + c == a + (b + c)
  {
  }

  /** Taking `n >= 1` elements keeps the first and takes `n - 1` of the rest. */
  lemma TakeFirst(s: seq<string>, n: nat)
    requires s != [] && n >= 1
    ensures Take(s, n) == [s[0]] + Take(s[1..], n - 1)
  {
  }

  /** A scan that aborts met a row whose first cell is blank, and met it
      before the limit: every earlier row has a token or no cells, and those
      rows supply fewer tokens than the scan takes. */
  lemma ScanAbortsOnlyOnBlankCell(rows: seq<Row>, limit: int)
    requires ScanRows(rows, [], limit) == BlankCell
    ensures exists i ::
              && 0 <= i < |rows| && |rows[i]| > 0 && FirstToken(rows[i][0]).None?
              && (forall j :: 0 <= j < i ==> HasToken(rows[j]))
              && |Tokens(rows[..i])| < Quota(limit, 0)
  {
    var i := AbortedAt(rows, [], limit);
  }

  /** The row at which an aborted scan stopped, with what the scan had
      collected before reaching it. */
  lemma {:induction false} AbortedAt(rows: seq<Row>, acc: seq<string>, limit: int) returns (i: nat)
    requires acc == [] || |acc| < limit
    requires ScanRows(rows, acc, limit) == BlankCell
    ensures i < |rows| && |rows[i]| > 0 && FirstToken(rows[i][0]).None?
    ensures forall j :: 0 <= j < i ==> HasToken(rows[j])
    ensures |Tokens(rows[..i])| < Quota(limit, |acc|)
  {
    var tail := rows[1..];
    if |rows[0]| == 0 {
      var k := AbortedAt(tail, acc, limit);
      i := k + 1;
      assert rows[..i] == [rows[0]] + tail[..k];
      assert forall j :: 0 < j < i ==> rows[j] == tail[j - 1];
      assert Tokens(rows[..i]) == Tokens(tail[..k]);
    } else if FirstToken(rows[0][0]).None? {
      i := 0;
      assert rows[..0] == [];
    } else {
      var t := FirstToken(rows[0][0]).value;
      assert |acc| + 1 < limit;
      var k := AbortedAt(tail, acc + [t], limit);
      i := k + 1;
      assert rows[..i] == [rows[0]] + tail[..k];
      assert forall j :: 0 < j < i ==> rows[j] == tail[j - 1];
      assert Tokens(rows[..i]) == [t] + Tokens(tail[..k]);
    }
  }

  /** Conversely, a row with a blank first cell aborts the scan when the scan
      reaches it: every earlier row has a token or no cells, and the earlier
      rows supply fewer tokens than the scan still takes. */
  lemma {:induction false} BlankReachedAborts(rows: seq<Row>, acc: seq<string>, limit: int, i: nat)
    requires i < |rows|
    requires forall j :: 0 <= j < i ==> HasToken(rows[j])
    requires |rows[i]| > 0 && FirstToken(rows[i][0]).None?
    requires acc == [] || |acc| < limit
    requires |Tokens(rows[..i])| < Quota(limit, |acc|)
    ensures ScanRows(rows, acc, limit) == BlankCell
  {
    if i > 0 {
      var tail := rows[1..];
      assert rows[..i] == [rows[0]] + tail[..i - 1];
      assert forall j :: 0 <= j < i - 1 ==> tail[j] == rows[j + 1];
      assert HasToken(rows[0]);
      if |rows[0]| == 0 {
        assert Tokens(rows[..i]) == Tokens(tail[..i - 1]);
        BlankReachedAborts(tail, acc, limit, i - 1);
      } else {
        var t := FirstToken(rows[0][0]).value;
        assert Tokens(rows[..i]) == [t] + Tokens(tail[..i - 1]);
        assert |acc| + 1 < limit;
        BlankReachedAborts(tail, acc + [t], limit, i - 1);
      }
    }
  }

  /** Once the rows before row `i`, all with a token or no cells, supply as
      many tokens as the scan takes, the scan stops there: whatever follows,
      blank cells included, is never read. */
  lemma {:induction false} LimitReachedFirst(rows: seq<Row>, acc: seq<string>, limit: int, i: nat)
    requires i <= |rows|
    requires forall j :: 0 <= j < i ==> HasToken(rows[j])
    requires acc == [] || |acc| < limit
    requires |Tokens(rows[..i])| >= Quota(limit, |acc|)
    ensures ScanRows(rows, acc, limit) == Parsed(acc + Take(Tokens(rows[..i]), Quota(limit, |acc|)))
  {
    var tail := rows[1..];
    PrefixTokens(rows, i);
    var q := Quota(limit, |acc|);
    if |rows[0]| == 0 {
      LimitReachedFirst(tail, acc, limit, i - 1);
    } else {
      var t := FirstToken(rows[0][0]).value;
      var rest := Tokens(tail[..i - 1]);
      TakeFirst([t] + rest, q);
      assert ([t] + rest)[1..] == rest;
      if |acc| + 1 < limit {
        assert Quota(limit, |acc + [t]|) == q - 1;
        LimitReachedFirst(tail, acc + [t], limit, i - 1);
        calc {
          ScanRows(rows, acc, limit);
          ScanRows(tail, acc + [t], limit);
          Parsed(acc + [t] + Take(rest, q - 1));
          { AppendAssoc(acc, [t], Take(rest, q - 1)); }
          Parsed(acc + Take([t] + rest, q));
        }
      }
    }
  }

  /** The tokens of a non-empty prefix: those of its first row, then those of
      the rest. */
  lemma PrefixTokens(rows: seq<Row>, i: nat)
    requires 0 < i <= |rows|
    requires forall j :: 0 <= j < i ==> HasToken(rows[j])
    ensures forall j :: 0 <= j < i - 1 ==> HasToken(rows[1..][j])
    ensures Tokens(rows[..i]) == (if |rows[0]| == 0 then [] else [FirstToken(rows[0][0]).value]) + Tokens(rows[1..][..i - 1])
  {
    assert rows[..i][1..] == rows[1..][..i - 1];
    assert forall j :: 0 <= j < i - 1 ==> rows[1..][j] == rows[j + 1];
  }

  /** The example of the `break`: a blank row after the limit is never read. */
  lemma BlankAfterLimitIgnored()
    ensures ScanRows([["A"], ["  "]], [], 1) == Parsed(["A"])
  {
    assert LeadingSpace("A") == 0;
    assert Word("A") == "A" by {
      assert "A"[1..] == "";
    }
  }

  /** A successful scan keeps what was collected, adds only whitespace-free,
      non-empty tokens, and never exceeds the limit (or one, for a limit
      below one). */
  lemma {:induction false} ScanBound(rows: seq<Row>, acc: seq<string>, limit: int)
    requires acc == [] || |acc| < limit
    requires ScanRows(rows, acc, limit).Parsed?
    ensures var s := ScanRows(rows, acc, limit).symbols;
      |acc| <= |s| <= (if limit >= 1 then limit else 1) && s[..|acc|] == acc
      && forall i :: |acc| <= i < |s| ==> s[i] != [] && NoSpace(s[i])
  {
    if rows != [] {
      if |rows[0]| == 0 {
        ScanBound(rows[1..], acc, limit);
      } else {
        var t := FirstToken(rows[0][0]).value;
        if |acc| + 1 < limit {
          ScanBound(rows[1..], acc + [t], limit);
          var s := ScanRows(rows, acc, limit).symbols;
          assert s[..|acc|] == (acc + [t])[..|acc|];
        }
      }
    }
  }

  /** The symbols one attempt yields: none when the page failed, a cell was
      blank or no symbol was parsed (all three raise inside the attempt). An
      attempt on a found table yields nothing exactly when the scan met a blank
      first cell or no data row has any cell. */
  function Yield(load: PageLoad, limit: int): (r: seq<string>)
    ensures load.LoadFailed? ==> r == []
    ensures load.TableFound? ==>
      var rows := DataRows(load.rows);
      (r == [] <==> ScanRows(rows, [], limit).BlankCell? || forall i :: 0 <= i < |rows| ==> rows[i] == [])
  {
    match load
    case LoadFailed => []
    case TableFound(table) =>
      ScanNothing(DataRows(table), limit);
      match ScanRows(DataRows(table), [], limit)
      case BlankCell => []
      case Parsed(s) => s
  }

  /** A scan that starts with nothing collected and ends without a blank cell
      yields nothing exactly when no row has a cell. */
  lemma {:induction false} ScanNothing(rows: seq<Row>, limit: int)
    ensures ScanRows(rows, [], limit) == Parsed([]) <==> forall i :: 0 <= i < |rows| ==> rows[i] == []
  {
    if rows != [] {
      var tail := rows[1..];
      ScanNothing(tail, limit);
      if |rows[0]| == 0 {
        assert ScanRows(rows, [], limit) == ScanRows(tail, [], limit);
        assert (forall i :: 0 <= i < |rows| ==> rows[i] == []) <==> (forall i :: 0 <= i < |tail| ==> tail[i] == []) by {
          if forall i :: 0 <= i < |tail| ==> tail[i] == [] {
            forall i | 0 <= i < |rows| ensures rows[i] == [] {
              if i > 0 { assert rows[i] == tail[i - 1]; }
            }
          }
        }
      } else {
        assert rows[0] != [];
        match FirstToken(rows[0][0])
        case None =>
        case Some(t) =>
          if 1 < limit {
            var r := ScanRows(tail, [t], limit);
            assert [] + [t] == [t];
            assert ScanRows(rows, [], limit) == r;
            if r.Parsed? {
              ScanBound(tail, [t], limit);
              assert r.symbols[..1] == [t];
            }
          }
      }
    }
  }

  /** `find_all("tr")[1:]`: the first row of the table, the header, has no
      effect on what an attempt yields. */
  lemma HeaderIgnored(h1: Row, h2: Row, rows: seq<Row>, limit: int)
    ensures Yield(TableFound([h1] + rows), limit) == Yield(TableFound([h2] + rows), limit)
  {
  }

  /** The result of the first attempt that yields symbols, or none. */
  function FirstYield(loads: seq<PageLoad>, limit: int): (r: seq<string>)
    ensures r == [] <==> forall i :: 0 <= i < |loads| ==> Yield(loads[i], limit) == []
    ensures r != [] ==>
      exists i :: 0 <= i < |loads| && r == Yield(loads[i], limit)
        && (forall j :: 0 <= j < i ==> Yield(loads[j], limit) == [])
  {
    if loads == [] then []
    else if Yield(loads[0], limit) != [] then Yield(loads[0], limit)
    else
      var r := FirstYield(loads[1..], limit);
      assert forall i :: 1 <= i < |loads| ==> loads[i] == loads[1..][i - 1];
      assert r != [] ==>
        exists i :: 0 <= i < |loads| && r == Yield(loads[i], limit)
          && (forall j :: 0 <= j < i ==> Yield(loads[j], limit) == [])
      by {
        if r != [] {
          var i :| 0 <= i < |loads[1..]| && r == Yield(loads[1..][i], limit)
            && (forall j :: 0 <= j < i ==> Yield(loads[1..][j], limit) == []);
          assert forall j :: 0 <= j < i + 1 ==> Yield(loads[j], limit) == [];
        }
      }
      r
  }

  /** At most `limit` symbols (for a positive limit) come out of one attempt. */
  lemma YieldBound(load: PageLoad, limit: int)
    ensures |Yield(load, limit)| <= if limit >= 1 then limit else 1
  {
    if load.TableFound? && ScanRows(DataRows(load.rows), [], limit).Parsed? {
      ScanBound(DataRows(load.rows), [], limit);
    }
  }

  /** `get_top_symbols(limit)`: `loads[i]` is the outcome of attempt i. The
      result is that of the first attempt that yields symbols, and empty
      exactly when all three attempts failed. */
  method GetTopSymbols(loads: seq<PageLoad>, limit: int) returns (symbols: seq<string>)
    requires |loads| == MaxAttempts
    ensures symbols == FirstYield(loads, limit)
    ensures symbols == [] <==> forall i :: 0 <= i < MaxAttempts ==> Yield(loads[i], limit) == []
    ensures symbols != [] ==>
      exists i :: 0 <= i < MaxAttempts && symbols == Yield(loads[i], limit)
        && (forall j :: 0 <= j < i ==> Yield(loads[j], limit) == [])
    ensures |symbols| <= if limit >= 1 then limit else 1
  {
    for attempt := 0 to MaxAttempts
      invariant forall j :: 0 <= j < attempt ==> Yield(loads[j], limit) == []
      invariant FirstYield(loads, limit) == FirstYield(loads[attempt..], limit)
    {
      assert loads[attempt..][1..] == loads[attempt + 1..];
      match loads[attempt]
      case LoadFailed =>
      case TableFound(table) =>
        var scan := ScrapeTable(table, limit);
        if scan.Parsed? && scan.symbols != [] {
          YieldBound(loads[attempt], limit);
          return scan.symbols;
        }
    }
    return [];
  }
}
