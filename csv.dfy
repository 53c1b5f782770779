/**
 * The effect record shared by the grep-based and the MIRAI-based backends of
 * scan.py, and its fixed eight-column CSV row.
 */
module Csv {
  import opened Strings

  /** One effect found in a crate. */
  datatype Effect = Effect(
    crate: string,    // name of the crate, e.g. num_cpus
    modulePath: string,  // full module path, e.g. num_cpus::linux
    caller: string,   // calling function
    callee: string,   // the effect function, e.g. libc::sched_getaffinity
    pattern: string,  // the watchlist prefix of the callee, e.g. libc
    dir: string,      // directory of the file holding the call
    file: string,     // file holding the call
    loc: string)      // location of the call in that file

  /** Every comma removed (the source also logs a warning when there was one). */
  function SanitizeComma(s: string): (r: string)
    ensures ',' !in r
    ensures ',' !in s ==> r == s
    ensures |r| == |s| - CountChar(s, ',')
  {
    assert ',' !in s ==> RemoveChar(s, ',') == s by {
      if ',' !in s {
        RemoveCharIdentity(s, ',');
      }
    }
    RemoveChar(s, ',')
  }

  /**
   * Exactly the commas are removed: on a concatenation the sanitised pieces
   * are concatenated, and a single character is kept unless it is a comma.
   */
  lemma SanitizeCommaPieces(a: string, b: string, x: char)
    ensures SanitizeComma(a + b) == SanitizeComma(a) + SanitizeComma(b)
    ensures SanitizeComma([x]) == if x == ',' then [] else [x]
  {
    RemoveCharConcat(a, b, ',');
    RemoveCharSingle(x, ',');
  }

  const Separator: string := ", "

  const ColumnNames: seq<string> :=
    ["crate", "module", "caller", "callee", "pattern", "dir", "file", "loc"]

  function CsvHeader(): string {
    Join(Separator, ColumnNames)
  }

  /** The eight fields of an effect, in column order, each with its commas removed. */
  function SanitizedFields(e: Effect): (r: seq<string>)
    ensures |r| == |ColumnNames|
    ensures forall i :: 0 <= i < |r| ==> ',' !in r[i]
  {
    [SanitizeComma(e.crate), SanitizeComma(e.modulePath), SanitizeComma(e.caller),
     SanitizeComma(e.callee), SanitizeComma(e.pattern), SanitizeComma(e.dir),
     SanitizeComma(e.file), SanitizeComma(e.loc)]
  }

  function ToCsv(e: Effect): string {
    Join(Separator, SanitizedFields(e))
  }

  /** The header row splits back into its eight column names. */
  lemma CsvHeaderColumns()
    ensures SplitOn(CsvHeader(), Separator) == ColumnNames
    ensures CountChar(CsvHeader(), ',') == |ColumnNames| - 1
  {
    var names := ColumnNames;
    ColumnNamesCommaFree();
    SplitOnJoin(names, Separator);
    CountCharJoin(Separator, names, ',');
    assert CountCharAll(names, ',') == 0 by {
      CountCharAllAbsent(names, ',');
    }
  }

  lemma ColumnNamesCommaFree()
    ensures forall i :: 0 <= i < |ColumnNames| ==> ',' !in ColumnNames[i]
  {
    assert CommaFree("crate") && CommaFree("module") && CommaFree("caller") && CommaFree("callee");
    assert CommaFree("pattern") && CommaFree("dir") && CommaFree("file") && CommaFree("loc");
  }

  /** No character of `s` is a comma. */
  predicate CommaFree(s: string)
    ensures CommaFree(s) ==> ',' !in s
  {
    forall i :: 0 <= i < |s| ==> s[i] != ','
  }

  /**
   * A row splits back at ", " into exactly the eight sanitised fields, one per
   * column of the header, and holds exactly seven commas.
   */
  lemma ToCsvColumns(e: Effect)
    ensures SplitOn(ToCsv(e), Separator) == SanitizedFields(e)
    ensures |SplitOn(ToCsv(e), Separator)| == |SplitOn(CsvHeader(), Separator)|
    ensures CountChar(ToCsv(e), ',') == 7
  {
    var fields := SanitizedFields(e);
    SplitOnJoin(fields, Separator);
    CsvHeaderColumns();
    CountCharJoin(Separator, fields, ',');
    CountCharAllAbsent(fields, ',');
  }

  /** A field without commas is written unchanged, so the row equals its join. */
  lemma ToCsvCommaFree(e: Effect)
    requires ',' !in e.crate && ',' !in e.modulePath && ',' !in e.caller && ',' !in e.callee
    requires ',' !in e.pattern && ',' !in e.dir && ',' !in e.file && ',' !in e.loc
    ensures SplitOn(ToCsv(e), Separator)
         == [e.crate, e.modulePath, e.caller, e.callee, e.pattern, e.dir, e.file, e.loc]
  {
    ToCsvColumns(e);
  }

  lemma {:induction false} CountCharAllAbsent(parts: seq<string>, c: char)
    requires forall i :: 0 <= i < |parts| ==> c !in parts[i]
    ensures CountCharAll(parts, c) == 0
  {
    if parts != [] {
      CountCharAbsent(parts[0], c);
      CountCharAllAbsent(parts[1..], c);
    }
  }

  /** `truncate_str`: strings longer than `n` keep `n - 3` characters and get "...". */
  function TruncateStr(s: string, n: int): (r: string)
    requires n >= 3
    ensures |r| <= n
    ensures r == s <==> |s| <= n
  {
    if |s| <= n then s else s[..n - 3] + "..."
  }

  /**
   * The result is never longer than `n`, is `s` itself when `s` fits,
   * and otherwise is exactly `n` long, starting with what fits of `s` and ending in "...".
   * Truncating again changes nothing.
   */
  lemma TruncateStrProperties(s: string, n: int)
    requires n >= 3
    ensures |TruncateStr(s, n)| <= n
    ensures |s| <= n <==> TruncateStr(s, n) == s
    ensures |s| > n ==>
      |TruncateStr(s, n)| == n && TruncateStr(s, n)[..n - 3] == s[..n - 3] && TruncateStr(s, n)[n - 3..] == "..."
    ensures TruncateStr(TruncateStr(s, n), n) == TruncateStr(s, n)
  {
  }
}
