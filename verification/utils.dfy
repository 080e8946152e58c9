/**
 Helpers of src/utils.py that the pipeline and the batch front end rely on:
 the file-extension check, the batch statistics, and the detection and
 combination of address columns in a table. (`clean_string` lives in module
 Text, next to the whitespace functions it is built from.)

 A table is modelled as its column names and its rows, each row a map from
 column name to cell; a missing cell (pandas' NaN) is `None`, and every other
 cell is given by its string form.
 */
module Utils {
  import opened Outcomes
  import opened Text
  import opened Formatter

  // ---------------------------------------------------------------------------
  // validate_file_extension
  // ---------------------------------------------------------------------------

  /** Python's `str.rfind` for one character: the index of the last `c`, or -1. */
  function RFind(s: string, c: char): (i: int)
    ensures -1 <= i < |s|
    ensures i >= 0 ==> s[i] == c
    ensures forall k :: i < k < |s| ==> s[k] != c
  {
    if |s| == 0 then -1
    else if s[|s| - 1] == c then |s| - 1
    else RFind(s[..|s| - 1], c)
  }

  predicate AllDots(s: string) {
    forall k :: 0 <= k < |s| ==> s[k] == '.'
  }

  /** The last path component of `path` (everything after the last `/`). */
  function FinalComponent(path: string): string {
    path[RFind(path, '/') + 1..]
  }

  /**
   `path` splits into `stem` and the extension `ext`: a dot followed by
   characters that are neither dots nor slashes, after a final component
   that is not made of dots alone.
   */
  predicate IsExtensionSplit(path: string, stem: string, ext: string) {
    path == stem + ext
    && |ext| > 0 && ext[0] == '.'
    && (forall k :: 1 <= k < |ext| ==> ext[k] != '.' && ext[k] != '/')
    && !AllDots(FinalComponent(stem))
  }

  /**
   `os.path.splitext(path)[1]` for POSIX paths (`posixpath`, where only `/`
   separates components): from the last dot on, when
   that dot lies in the last component and something other than a dot comes
   before it there (so `.bashrc` and `..csv` have no extension).
   */
  function Extension(path: string): (ext: string)
    ensures |ext| <= |path|
  {
    var sep := RFind(path, '/');
    var dot := RFind(path, '.');
    if dot > sep && !AllDots(path[sep + 1..dot]) then path[dot..] else ""
  }

  /**
   `ntpath.splitext(path)[1]`, which `os.path.splitext` is on Windows: the
   same rule, with `\` as a path separator beside `/`.
   */
  function NtExtension(path: string): (ext: string)
    ensures |ext| <= |path|
    ensures ext != "" ==>
      ext[0] == '.' && (forall k :: 1 <= k < |ext| ==> ext[k] != '.' && ext[k] != '/' && ext[k] != '\\')
  {
    var slash := RFind(path, '/');
    var backslash := RFind(path, '\\');
    var sep := if slash > backslash then slash else backslash;
    var dot := RFind(path, '.');
    if dot > sep && !AllDots(path[sep + 1..dot]) then
      assert forall k :: dot < k < |path| ==> path[k] != '.' && path[k] != '/' && path[k] != '\\';
      path[dot..]
    else ""
  }

  /** On a path without `\`, the Windows and the POSIX extension agree. */
  lemma NtExtensionWithoutBackslash(path: string)
    requires forall k :: 0 <= k < |path| ==> path[k] != '\\'
    ensures NtExtension(path) == Extension(path)
  {
    assert RFind(path, '\\') == -1;
  }

  /**
   Where they differ: POSIX reads `C:\in\.csv` as one file name with the
   extension `.csv`; Windows reads a file named `.csv`, which has none.
   */
  lemma BackslashPathExtensions(path: string)
    requires path == "C:\\in\\.csv"
    ensures Extension(path) == ".csv"
    ensures NtExtension(path) == ""
  {
    BackslashPathShape(path);
    DotAfterNameExtension(path, 6);
    DotAfterBackslashNoNtExtension(path, 5);
  }

  lemma BackslashPathShape(path: string)
    requires path == "C:\\in\\.csv"
    ensures |path| == 10 && path[5] == '\\' && path[6] == '.' && path[0] == 'C' && path[6..] == ".csv"
    ensures forall k :: 0 <= k < |path| ==> path[k] != '/'
    ensures forall k :: 6 < k < |path| ==> path[k] != '.' && path[k] != '\\'
  {
  }

  /** With no `/`, the POSIX extension starts at the last dot when a non-dot comes before it. */
  lemma DotAfterNameExtension(path: string, dot: nat)
    requires 0 < dot < |path| && path[dot] == '.' && path[0] != '.'
    requires forall k :: 0 <= k < |path| ==> path[k] != '/'
    requires forall k :: dot < k < |path| ==> path[k] != '.'
    ensures Extension(path) == path[dot..]
  {
    var sep := RFind(path, '/');
    assert sep == -1;
    assert RFind(path, '.') == dot;
    assert path[sep + 1..dot][0] == path[0];
  }

  /** A dot right after the last `\` starts a name of dots only, so Windows sees no extension. */
  lemma DotAfterBackslashNoNtExtension(path: string, b: nat)
    requires b + 1 < |path| && path[b] == '\\' && path[b + 1] == '.'
    requires forall k :: b + 1 < k < |path| ==> path[k] != '.' && path[k] != '\\'
    ensures NtExtension(path) == ""
  {
    assert RFind(path, '\\') == b;
    assert RFind(path, '.') == b + 1;
    assert AllDots(path[b + 1..b + 1]);
  }

  /** What `splitext` finds is an extension split of the path; with `ExtensionOfSplit`, the only one. */
  lemma ExtensionIsSplit(path: string)
    ensures Extension(path) != "" ==> exists stem :: IsExtensionSplit(path, stem, Extension(path))
  {
    var sep := RFind(path, '/');
    var dot := RFind(path, '.');
    if dot > sep && !AllDots(path[sep + 1..dot]) {
      SplitAtLastDot(path, sep, dot);
      assert IsExtensionSplit(path, path[..dot], Extension(path));
    }
  }

  lemma SplitAtLastDot(path: string, sep: int, dot: int)
    requires sep == RFind(path, '/') && dot == RFind(path, '.')
    requires dot > sep && !AllDots(path[sep + 1..dot])
    ensures IsExtensionSplit(path, path[..dot], path[dot..])
  {
    var ext := path[dot..];
    var stem := path[..dot];
    assert path == stem + ext;
    assert forall k :: 1 <= k < |ext| ==> ext[k] != '.' && ext[k] != '/' by {
      forall k | 1 <= k < |ext|
        ensures ext[k] != '.' && ext[k] != '/'
      {
        assert ext[k] == path[dot + k];
      }
    }
    assert !AllDots(FinalComponent(stem)) by {
      RFindPrefix(path, '/', dot);
      assert FinalComponent(stem) == path[sep + 1..dot];
    }
  }

  /** Dropping a suffix that holds no `c` does not move the last `c`. */
  lemma {:induction false} RFindPrefix(s: string, c: char, n: nat)
    requires n <= |s|
    requires forall k :: n <= k < |s| ==> s[k] != c
    ensures RFind(s[..n], c) == RFind(s, c)
    decreases |s| - n
  {
    if n < |s| {
      assert s[..|s| - 1][..n] == s[..n];
      RFindPrefix(s[..|s| - 1], c, n);
    }
  }

  /** Every extension split is the one `splitext` finds: the extension is unique. */
  lemma ExtensionOfSplit(path: string, stem: string, ext: string)
    requires IsExtensionSplit(path, stem, ext)
    ensures Extension(path) == ext
  {
    var dot := |stem|;
    assert path[dot] == '.';
    assert forall k :: dot < k < |path| ==> path[k] == ext[k - dot];
    assert RFind(path, '.') == dot;
    assert forall k :: dot <= k < |path| ==> path[k] != '/';
    RFindPrefix(path, '/', dot);
    assert path[..dot] == stem;
    var sep := RFind(path, '/');
    assert FinalComponent(stem) == path[sep + 1..dot];
  }

  /**
   `validate_file_extension`: an empty path is rejected; otherwise the
   extension is compared with the allowed ones, ignoring case.
   */
  function ValidateFileExtension(path: string, allowed: seq<string>): (ok: bool)
    ensures path == "" ==> !ok
    ensures path != "" ==> (ok <==> exists i :: 0 <= i < |allowed| && Lower(allowed[i]) == Lower(Extension(path)))
  {
    if path == "" then false
    else
      var lowered := seq(|allowed|, i requires 0 <= i < |allowed| => Lower(allowed[i]));
      assert forall i :: 0 <= i < |allowed| ==> lowered[i] == Lower(allowed[i]);
      Lower(Extension(path)) in lowered
  }

  /** Leading dots do not start an extension: a name like `..csv` or `.bashrc` has none. */
  lemma LeadingDotsNoExtension(path: string, n: nat)
    requires 0 < n <= |path|
    requires forall k :: 0 <= k < |path| ==> path[k] != '/'
    requires forall k :: 0 <= k < n ==> path[k] == '.'
    requires forall k :: n <= k < |path| ==> path[k] != '.'
    ensures Extension(path) == ""
  {
    RFindPrefix(path, '/', 0);
    RFindPrefix(path, '.', n);
    assert AllDots(path[0..n - 1]);
  }

  // ---------------------------------------------------------------------------
  // calculate_processing_stats
  // ---------------------------------------------------------------------------

  datatype ProcessingStats = ProcessingStats(
    totalProcessed: nat,
    successful: nat,
    failed: nat,
    successRate: real,          // per cent, before rounding
    averageConfidence: real)    // before rounding

  /** How many results are valid. */
  function CountValid(results: seq<FormattedAddress>): (n: nat)
    ensures n <= |results|
    ensures n == |results| <==> forall i :: 0 <= i < |results| ==> results[i].valid
    ensures n == 0 <==> forall i :: 0 <= i < |results| ==> !results[i].valid
  {
    if |results| == 0 then 0
    else (if results[0].valid then 1 else 0) + CountValid(results[1..])
  }

  /** Counting distributes over concatenation, so a batch may be counted in pieces. */
  lemma {:induction false} CountValidAppend(a: seq<FormattedAddress>, b: seq<FormattedAddress>)
    ensures CountValid(a + b) == CountValid(a) + CountValid(b)
    decreases |a|
  {
    if |a| == 0 {
      assert a + b == b;
    } else {
      assert (a + b)[1..] == a[1..] + b;
      CountValidAppend(a[1..], b);
    }
  }

  function SumConfidence(results: seq<FormattedAddress>): real {
    if |results| == 0 then 0.0 else results[0].confidence + SumConfidence(results[1..])
  }

  /** A sum of confidences in [0, 100] lies between 0 and 100 times their number. */
  lemma {:induction false} SumConfidenceBounds(results: seq<FormattedAddress>)
    ensures (forall i :: 0 <= i < |results| ==> 0.0 <= results[i].confidence <= 100.0) ==>
      0.0 <= SumConfidence(results) <= 100.0 * |results| as real
  {
    if |results| > 0 {
      SumConfidenceBounds(results[1..]);
    }
  }

  lemma RateBounds(successful: nat, total: nat)
    requires 0 < total && successful <= total
    ensures 0.0 <= successful as real / total as real * 100.0 <= 100.0
    ensures successful as real / total as real * 100.0 == 100.0 <==> successful == total
  {
    var t := total as real;
    var q := successful as real / t;
    assert q * t == successful as real;
    if q == 1.0 {
      assert successful as real == t;
    }
  }

  lemma AverageBound(sum: real, total: nat)
    requires 0 < total
    ensures 0.0 <= sum <= 100.0 * total as real ==> 0.0 <= sum / total as real <= 100.0
  {
    var q := sum / total as real;
    assert q * total as real == sum;
  }

  /**
   `calculate_processing_stats`: every result carries a numeric confidence,
   so all of them enter the average.
   */
  function CalculateProcessingStats(results: seq<FormattedAddress>): (s: ProcessingStats)
    ensures |results| == 0 ==> s == ProcessingStats(0, 0, 0, 0.0, 0.0)
    ensures s.totalProcessed == |results| && s.successful + s.failed == |results|
    ensures s.successful == CountValid(results)
    ensures 0.0 <= s.successRate <= 100.0
    ensures s.successRate == 100.0 <==> |results| > 0 && forall i :: 0 <= i < |results| ==> results[i].valid
    ensures (forall i :: 0 <= i < |results| ==> 0.0 <= results[i].confidence <= 100.0) ==>
      0.0 <= s.averageConfidence <= 100.0
  {
    if |results| == 0 then ProcessingStats(0, 0, 0, 0.0, 0.0)
    else
      var total := |results|;
      var successful := CountValid(results);
      SumConfidenceBounds(results);
      RateBounds(successful, total);
      AverageBound(SumConfidence(results), total);
      ProcessingStats(total, successful, total - successful,
        successful as real / total as real * 100.0,
        SumConfidence(results) / total as real)
  }

  // ---------------------------------------------------------------------------
  // detect_address_columns
  // ---------------------------------------------------------------------------

  /** Python's `sub in s`: `sub` starts at some position of `s`. */
  predicate Contains(s: string, sub: string)
    decreases |s|
  {
    (|sub| <= |s| && s[..|sub|] == sub) || (|s| > 0 && Contains(s[1..], sub))
  }

  const AddressKeywords: seq<string> := [
    "address", "street", "city", "state", "zip", "postal",
    "location", "addr", "street_address", "shipping_address",
    "billing_address", "mailing_address"]

  /** The index of the first keyword that `s` contains, or the number of keywords. */
  function FirstMatch(s: string, keywords: seq<string>): (k: nat)
    ensures k <= |keywords|
    ensures k < |keywords| ==> Contains(s, keywords[k])
    ensures forall j :: 0 <= j < k ==> !Contains(s, keywords[j])
  {
    if |keywords| == 0 then 0
    else if Contains(s, keywords[0]) then 0
    else 1 + FirstMatch(s, keywords[1..])
  }

  /** The position of the first occurrence of `c`. */
  function FirstIndex(columns: seq<string>, c: string): (i: nat)
    requires c in columns
    ensures i < |columns| && columns[i] == c
    ensures forall j :: 0 <= j < i ==> columns[j] != c
  {
    if columns[0] == c then 0 else 1 + FirstIndex(columns[1..], c)
  }

  predicate NoDuplicates(s: seq<string>) {
    forall i, j :: 0 <= i < j < |s| ==> s[i] != s[j]
  }

  /** The rank of a column: the first keyword its lower-cased name contains, then its first position. */
  predicate RankedBefore(columns: seq<string>, keywords: seq<string>, a: string, b: string)
    requires a in columns && b in columns
  {
    var ka := FirstMatch(Lower(a), keywords);
    var kb := FirstMatch(Lower(b), keywords);
    ka < kb || (ka == kb && FirstIndex(columns, a) < FirstIndex(columns, b))
  }

  predicate Ranked(columns: seq<string>, keywords: seq<string>, detected: seq<string>)
    requires forall c :: c in detected ==> c in columns
  {
    forall i, j :: 0 <= i < j < |detected| ==> RankedBefore(columns, keywords, detected[i], detected[j])
  }

  /**
   The two loops of `detect_address_columns`, for any keyword list: the
   names of the columns that contain a keyword, once each, grouped by the
   first keyword they contain and in column order within a group.
   */
  method DetectColumns(columns: seq<string>, keywords: seq<string>) returns (detected: seq<string>)
    ensures forall c :: c in detected <==> c in columns && FirstMatch(Lower(c), keywords) < |keywords|
    ensures NoDuplicates(detected)
    ensures Ranked(columns, keywords, detected)
  {
    detected := [];
    for ki := 0 to |keywords|
      invariant forall c :: c in detected <==> c in columns && FirstMatch(Lower(c), keywords) < ki
      invariant NoDuplicates(detected)
      invariant Ranked(columns, keywords, detected)
    {
      for idx := 0 to |columns|
        invariant forall c :: c in detected <==> (c in columns &&
          (FirstMatch(Lower(c), keywords) < ki ||
           (FirstMatch(Lower(c), keywords) == ki && FirstIndex(columns, c) < idx)))
        invariant NoDuplicates(detected)
        invariant Ranked(columns, keywords, detected)
      {
        var c := columns[idx];
        if Contains(Lower(c), keywords[ki]) && c !in detected {
          DetectStep(columns, keywords, detected, ki, idx);
          detected := detected + [c];
        }
      }
    }
  }

  /** Appending the column at `idx` in round `ki` keeps the result ranked and free of duplicates. */
  lemma DetectStep(columns: seq<string>, keywords: seq<string>, detected: seq<string>, ki: nat, idx: nat)
    requires ki < |keywords| && idx < |columns|
    requires forall c :: c in detected <==> (c in columns &&
      (FirstMatch(Lower(c), keywords) < ki ||
       (FirstMatch(Lower(c), keywords) == ki && FirstIndex(columns, c) < idx)))
    requires NoDuplicates(detected) && Ranked(columns, keywords, detected)
    requires Contains(Lower(columns[idx]), keywords[ki]) && columns[idx] !in detected
    ensures FirstMatch(Lower(columns[idx]), keywords) == ki && FirstIndex(columns, columns[idx]) == idx
    ensures NoDuplicates(detected + [columns[idx]])
    ensures Ranked(columns, keywords, detected + [columns[idx]])
  {
    var c := columns[idx];
    var d := detected + [c];
    assert forall i :: 0 <= i < |detected| ==> RankedBefore(columns, keywords, d[i], c);
  }

  /** `detect_address_columns` on the column names of a table. */
  method DetectAddressColumns(columns: seq<string>) returns (detected: seq<string>)
    ensures forall c :: c in detected <==> c in columns && FirstMatch(Lower(c), AddressKeywords) < |AddressKeywords|
    ensures NoDuplicates(detected)
    ensures Ranked(columns, AddressKeywords, detected)
  {
    detected := DetectColumns(columns, AddressKeywords);
  }

  // ---------------------------------------------------------------------------
  // combine_address_columns
  // ---------------------------------------------------------------------------

  type Cell = Option<string>
  type Row = map<string, Cell>

  datatype Table = Table(columns: seq<string>, rows: seq<Row>)

  datatype Role = StreetColumn | CityColumn | StateColumn | ZipColumn | OtherColumn

  const StreetWords: seq<string> := [
    "street", "address", "addr", "road", "avenue", "lane", "drive",
    "blvd", "boulevard", "rd", "st", "ave", "ln", "dr"]
  const ZipWords: seq<string> := ["zip", "postal", "zipcode", "postcode"]

  predicate ContainsAny(s: string, words: seq<string>) {
    exists i :: 0 <= i < |words| && Contains(s, words[i])
  }

  /** The role of a column, from its lower-cased name; the street test runs first. */
  function ColumnRole(column: string): (r: Role)
    ensures r == StreetColumn <==> ContainsAny(Lower(column), StreetWords)
    ensures r == CityColumn <==> !ContainsAny(Lower(column), StreetWords) && Contains(Lower(column), "city")
    ensures r == OtherColumn ==>
      !Contains(Lower(column), "city") && !Contains(Lower(column), "state") && !ContainsAny(Lower(column), ZipWords)
  {
    var name := Lower(column);
    if ContainsAny(name, StreetWords) then StreetColumn
    else if Contains(name, "city") then CityColumn
    else if Contains(name, "state") then StateColumn
    else if ContainsAny(name, ZipWords) then ZipColumn
    else OtherColumn
  }

  /** The street test looks for "st" anywhere, so a column named `state` counts as a street column. */
  lemma StateColumnIsStreet()
    ensures ColumnRole("state") == StreetColumn
    ensures ColumnRole("Postal_Code") == StreetColumn
  {
    var a := Lower("state");
    assert a[..2] == "st";
    assert Contains(a, StreetWords[10]);
    var b := Lower("Postal_Code");
    assert b[2..][..2] == "st";
    assert Contains(b[2..], StreetWords[10]);
    assert b[1..][1..] == b[2..];
    assert Contains(b, StreetWords[10]);
  }

  /** The first of `columns` with the given role. */
  function FirstWithRole(columns: seq<string>, role: Role): (c: Option<string>)
    ensures c.None? <==> forall i :: 0 <= i < |columns| ==> ColumnRole(columns[i]) != role
    ensures c.Some? ==> exists i :: (0 <= i < |columns| && columns[i] == c.value && ColumnRole(columns[i]) == role
      && forall j :: 0 <= j < i ==> ColumnRole(columns[j]) != role)
  {
    if |columns| == 0 then None
    else if ColumnRole(columns[0]) == role then Some(columns[0])
    else
      var rest := FirstWithRole(columns[1..], role);
      assert rest.Some? ==> exists i :: (1 <= i < |columns| && columns[i] == rest.value && ColumnRole(columns[i]) == role
        && forall j :: 0 <= j < i ==> ColumnRole(columns[j]) != role) by {
        if rest.Some? {
          var i :| 0 <= i < |columns[1..]| && columns[1..][i] == rest.value && ColumnRole(columns[1..][i]) == role
            && forall j :: 0 <= j < i ==> ColumnRole(columns[1..][j]) != role;
          assert columns[i + 1] == rest.value;
        }
      }
      rest
  }

  /**
   The columns used for the street, city, state and ZIP parts, in that
   order: the first of each role, with the first unclassified column standing
   in for a missing street column.
   */
  function ChosenColumns(addressColumns: seq<string>): (chosen: seq<Option<string>>)
    ensures |chosen| == 4
  {
    var street := FirstWithRole(addressColumns, StreetColumn);
    [if street.Some? then street else FirstWithRole(addressColumns, OtherColumn),
     FirstWithRole(addressColumns, CityColumn),
     FirstWithRole(addressColumns, StateColumn),
     FirstWithRole(addressColumns, ZipColumn)]
  }

  /**
   The text one chosen column contributes to a row: its stripped value, or
   nothing when the column is unset, has an empty name, is not a column of
   the table, or the cell is missing.
   */
  function CellText(table: Table, row: Row, column: Option<string>): string {
    match column
    case None => ""
    case Some(c) =>
      if c == "" || c !in table.columns || c !in row || row[c].None? then ""
      else Strip(row[c].value)
  }

  /** The non-empty entries of `parts`, in order. */
  function NonEmpty(parts: seq<string>): (r: seq<string>)
    ensures forall k :: 0 <= k < |r| ==> r[k] != ""
    ensures forall s :: s in r ==> s in parts
    ensures |r| == 0 <==> forall k :: 0 <= k < |parts| ==> parts[k] == ""
    ensures |parts| == 1 ==> r == Part(parts[0])
  {
    if |parts| == 0 then []
    else if parts[0] == "" then NonEmpty(parts[1..])
    else [parts[0]] + NonEmpty(parts[1..])
  }

  /** `parts.append(value)` guarded by `if value:`. */
  function Part(value: string): seq<string> {
    if value == "" then [] else [value]
  }

  /**
   Filtering distributes over concatenation. With the one-entry case above this
   pins `NonEmpty` down: each non-empty entry once, in order.
   */
  lemma {:induction false} NonEmptyAppend(a: seq<string>, b: seq<string>)
    ensures NonEmpty(a + b) == NonEmpty(a) + NonEmpty(b)
    decreases |a|
  {
    if |a| == 0 {
      assert a + b == b;
    } else {
      assert (a + b)[0] == a[0];
      assert (a + b)[1..] == a[1..] + b;
      NonEmptyAppend(a[1..], b);
    }
  }

  /** Four texts filtered are the guarded appends of each, in order. */
  lemma NonEmptyOfFour(t: seq<string>)
    ensures |t| == 4 ==> NonEmpty(t) == Part(t[0]) + Part(t[1]) + Part(t[2]) + Part(t[3])
  {
    if |t| == 4 {
      assert t == [t[0]] + [t[1]] + [t[2]] + [t[3]];
      NonEmptyAppend([t[0]] + [t[1]] + [t[2]], [t[3]]);
      NonEmptyAppend([t[0]] + [t[1]], [t[2]]);
      NonEmptyAppend([t[0]], [t[1]]);
    }
  }

  /**
   The `parts` list the loop body of `combine_address_columns` builds for one
   row: the street, city, state and ZIP texts, each appended when non-empty.
   */
  function RowParts(table: Table, row: Row, chosen: seq<Option<string>>): seq<string>
    requires |chosen| == 4
  {
    Part(CellText(table, row, chosen[0])) + Part(CellText(table, row, chosen[1]))
      + Part(CellText(table, row, chosen[2])) + Part(CellText(table, row, chosen[3]))
  }

  /** The texts of the chosen columns in one row, in order. */
  function RowTexts(table: Table, row: Row, chosen: seq<Option<string>>): (texts: seq<string>)
    ensures |texts| == |chosen|
    ensures forall k :: 0 <= k < |chosen| ==> texts[k] == CellText(table, row, chosen[k])
  {
    seq(|chosen|, k requires 0 <= k < |chosen| => CellText(table, row, chosen[k]))
  }

  /** One combined row: the non-empty parts, in street, city, state, ZIP order, joined by ", ". */
  function CombineRow(table: Table, row: Row, chosen: seq<Option<string>>): (r: string)
    ensures Trimmed(r)
    ensures r == "" <==> forall k :: 0 <= k < |chosen| ==> CellText(table, row, chosen[k]) == ""
    ensures |chosen| == 4 ==> r == Join(RowParts(table, row, chosen), ", ")
  {
    var texts := RowTexts(table, row, chosen);
    var parts := NonEmpty(texts);
    NonEmptyOfFour(texts);
    forall s | s in parts
      ensures Trimmed(s)
    {
      CellTextTrimmed(table, row, chosen, s);
    }
    JoinTrimmed(parts, ", ");
    JoinEmpty(parts, ", ");
    Join(parts, ", ")
  }

  lemma CellTextTrimmed(table: Table, row: Row, chosen: seq<Option<string>>, s: string)
    requires exists k :: 0 <= k < |chosen| && CellText(table, row, chosen[k]) == s
    ensures Trimmed(s)
  {
    var k :| 0 <= k < |chosen| && CellText(table, row, chosen[k]) == s;
    match chosen[k]
    case None =>
    case Some(c) =>
      if !(c == "" || c !in table.columns || c !in row || row[c].None?) {
        StripTrims(row[c].value);
      }
  }

  /** Joining non-empty trimmed parts with a separator that starts and ends in a non-space gives a trimmed string. */
  lemma {:induction false} JoinTrimmed(parts: seq<string>, sep: string)
    requires forall k :: 0 <= k < |parts| ==> parts[k] != ""
    requires forall s :: s in parts ==> Trimmed(s)
    requires |sep| > 0 && !IsSpace(sep[0])
    ensures Trimmed(Join(parts, sep))
    ensures |parts| > 0 ==> |Join(parts, sep)| > 0 && Join(parts, sep)[0] == parts[0][0]
    ensures |parts| > 0 ==> Join(parts, sep)[|Join(parts, sep)| - 1] == parts[|parts| - 1][|parts[|parts| - 1]| - 1]
  {
    if |parts| > 1 {
      assert parts[1..][0] == parts[1];
      JoinTrimmed(parts[1..], sep);
      var rest := Join(parts[1..], sep);
      assert Join(parts, sep) == parts[0] + sep + rest;
      assert parts[0] in parts;
    } else if |parts| == 1 {
      assert parts[0] in parts;
    }
  }

  /**
   `combine_address_columns`: one combined string per row. With no address
   columns every row is empty.
   */
  function CombineAddressColumns(table: Table, addressColumns: seq<string>): (combined: seq<string>)
    ensures |combined| == |table.rows|
    ensures |addressColumns| == 0 ==> forall i :: 0 <= i < |combined| ==> combined[i] == ""
    ensures forall i :: 0 <= i < |combined| ==> Trimmed(combined[i])
    ensures |addressColumns| > 0 ==> forall i :: 0 <= i < |combined| ==>
      combined[i] == Join(RowParts(table, table.rows[i], ChosenColumns(addressColumns)), ", ")
  {
    if |addressColumns| == 0 then seq(|table.rows|, i => "")
    else
      var chosen := ChosenColumns(addressColumns);
      seq(|table.rows|, i requires 0 <= i < |table.rows| => CombineRow(table, table.rows[i], chosen))
  }

  /**
   A row whose four chosen cells all hold text is those four values, stripped,
   in street, city, state, ZIP order, separated by ", ".
   */
  lemma CombineRowFull(table: Table, row: Row, chosen: seq<Option<string>>)
    requires |chosen| == 4
    requires forall k :: 0 <= k < 4 ==> CellText(table, row, chosen[k]) != ""
    ensures CombineRow(table, row, chosen)
         == CellText(table, row, chosen[0]) + ", " + CellText(table, row, chosen[1]) + ", "
            + CellText(table, row, chosen[2]) + ", " + CellText(table, row, chosen[3])
  {
    var t := RowTexts(table, row, chosen);
    JoinFour(t);
    assert CombineRow(table, row, chosen) == Join(NonEmpty(t), ", ");
  }

  /** A row without a city is the street, state and ZIP texts separated by ", ". */
  lemma CombineRowWithoutCity(table: Table, row: Row, chosen: seq<Option<string>>)
    requires |chosen| == 4
    requires CellText(table, row, chosen[1]) == ""
    requires CellText(table, row, chosen[0]) != "" && CellText(table, row, chosen[2]) != ""
    requires CellText(table, row, chosen[3]) != ""
    ensures CombineRow(table, row, chosen)
         == CellText(table, row, chosen[0]) + ", " + CellText(table, row, chosen[2]) + ", "
            + CellText(table, row, chosen[3])
  {
    JoinSkipsSecond(CellText(table, row, chosen[0]), CellText(table, row, chosen[1]),
      CellText(table, row, chosen[2]), CellText(table, row, chosen[3]));
  }

  lemma JoinSkipsSecond(a: string, b: string, c: string, d: string)
    requires a != "" && b == "" && c != "" && d != ""
    ensures Join(Part(a) + Part(b) + Part(c) + Part(d), ", ") == a + ", " + c + ", " + d
  {
    var parts := Part(a) + Part(b) + Part(c) + Part(d);
    assert parts == [a, c, d];
    assert Join([d], ", ") == d;
    assert [c, d][1..] == [d];
    assert Join([c, d], ", ") == c + ", " + d;
    assert [a, c, d][1..] == [c, d];
    assert Join([a, c, d], ", ") == a + ", " + (c + ", " + d);
  }

  lemma JoinFour(t: seq<string>)
    requires |t| == 4
    requires forall k :: 0 <= k < 4 ==> t[k] != ""
    ensures Join(NonEmpty(t), ", ") == t[0] + ", " + t[1] + ", " + t[2] + ", " + t[3]
  {
    NonEmptyKeepsAll(t);
    assert Join(t[3..], ", ") == t[3];
    assert t[2..][1..] == t[3..];
    assert Join(t[2..], ", ") == t[2] + ", " + t[3];
    assert t[1..][1..] == t[2..];
    assert Join(t[1..], ", ") == t[1] + ", " + (t[2] + ", " + t[3]);
  }

  /** Filtering parts that are all non-empty keeps them all. */
  lemma {:induction false} NonEmptyKeepsAll(parts: seq<string>)
    requires forall k :: 0 <= k < |parts| ==> parts[k] != ""
    ensures NonEmpty(parts) == parts
  {
    if |parts| > 0 {
      NonEmptyKeepsAll(parts[1..]);
    }
  }
}
