/**
 The two processing routines of cli.py: the pipeline one address goes
 through, and the loop that runs it over the address column of a CSV file
 in chunks. Reading the file is left to the caller: the table arrives as a
 map from column names to cells, a missing cell (pandas' NaN) being `None`.
 */
module Cli {
  import opened Outcomes
  import opened Text
  import opened Fields
  import opened Parser
  import opened Validator
  import opened Formatter
  import opened Utils

  // ---------------------------------------------------------------------------
  // process_single_address
  // ---------------------------------------------------------------------------

  /**
   What follows parsing: the parsed labels are normalized and validated, and
   the result is built around the address as the user typed it. The validity
   and issues reported are those of exactly the components the result shows.
   */
  function Assemble(address: string, parse: ParseResult): (r: FormattedAddress)
    ensures r.original == address && r.confidence == parse.confidence
    ensures r.parsed == NormalizeComponents(parse.parsed)
    ensures r.valid == ValidateAddress(r.parsed).valid && r.issues == ValidateAddress(r.parsed).issues
    ensures |parse.parsed| == 0 ==> r.parsed == map[] && r.singleLine == "" && r.issues == EmptyValidation.issues
    ensures parse.addressType.None? ==> r.addressType == "Unknown"
  {
    CreateFormattedAddressResult(address, parse, ValidateAddress(NormalizeComponents(parse.parsed)))
  }

  /**
   The command-line pipeline: the address is tidied by `handle_edge_cases`
   before parsing; the result keeps the untouched address as its original.
   An empty address parses to an error and so to an invalid, empty result.
   */
  function ProcessSingleAddress(address: string, tag: Tagger): (r: FormattedAddress)
    ensures r.original == address
    ensures r.valid == ValidateAddress(r.parsed).valid && r.issues == ValidateAddress(r.parsed).issues
    ensures r.parsed == NormalizeComponents(ParseAddress(HandleEdgeCases(address), tag).parsed)
    ensures address == "" ==>
      !r.valid && r.issues == EmptyValidation.issues && r.parsed == map[] && r.singleLine == ""
      && r.confidence == 0.0 && r.addressType == "Unknown"
  {
    Assemble(address, ParseAddress(HandleEdgeCases(address), tag))
  }

  // ---------------------------------------------------------------------------
  // process_csv_file
  // ---------------------------------------------------------------------------

  /** A table read from CSV: each column's cells, top to bottom; `None` is a missing cell. */
  type Frame = map<string, seq<Option<string>>>

  /** The present cells of a column, in order (`dropna().tolist()`). */
  function DropMissing(cells: seq<Option<string>>): (r: seq<string>)
    ensures |r| <= |cells|
    ensures forall i :: 0 <= i < |r| ==> Some(r[i]) in cells
    ensures forall i :: 0 <= i < |cells| && cells[i].Some? ==> cells[i].value in r
    ensures (forall i :: 0 <= i < |cells| ==> cells[i].Some?) ==>
      |r| == |cells| && forall i :: 0 <= i < |r| ==> cells[i] == Some(r[i])
    ensures |cells| == 1 ==> r == (if cells[0].Some? then [cells[0].value] else [])
    decreases |cells|
  {
    if |cells| == 0 then []
    else
      var rest := DropMissing(cells[1..]);
      assert forall x :: x in cells[1..] ==> x in cells;
      match cells[0]
      case None => rest
      case Some(a) =>
        assert forall i :: 1 <= i < |cells| ==> cells[i] == cells[1..][i - 1];
        [a] + rest
  }

  /**
   Dropping distributes over concatenation. With the one-cell cases above this
   pins `DropMissing` down: each present cell once, in column order.
   */
  lemma {:induction false} DropMissingAppend(a: seq<Option<string>>, b: seq<Option<string>>)
    ensures DropMissing(a + b) == DropMissing(a) + DropMissing(b)
    decreases |a|
  {
    if |a| == 0 {
      assert a + b == b;
    } else {
      assert (a + b)[0] == a[0];
      assert (a + b)[1..] == a[1..] + b;
      DropMissingAppend(a[1..], b);
    }
  }

  /** The record written in place of an address whose processing raised `message`. */
  function ErrorRecord(address: string, message: string): (r: FormattedAddress)
    ensures r.original == address && !r.valid && r.confidence == 0.0
    ensures r.issues == ["Processing error: " + message] && r.addressType == "Error"
  {
    FormattedAddress(address, map[], map[], "", [], 0.0, false, ["Processing error: " + message], "Error")
  }

  /** The record one address yields: the processor's result, or the error record when it raised. */
  function Outcome(address: string, process: string -> Result<FormattedAddress>): (r: FormattedAddress)
    ensures process(address).Ok? ==> r == process(address).value
    ensures process(address).Err? ==> r == ErrorRecord(address, process(address).error)
  {
    match process(address)
    case Ok(result) => result
    case Err(message) => ErrorRecord(address, message)
  }

  /** The reference: every address processed on its own, in order, with no chunks. */
  function RunAll(addresses: seq<string>, process: string -> Result<FormattedAddress>): (rs: seq<FormattedAddress>)
    ensures |rs| == |addresses|
    ensures forall i :: 0 <= i < |addresses| ==> rs[i] == Outcome(addresses[i], process)
    decreases |addresses|
  {
    if |addresses| == 0 then []
    else RunAll(addresses[..|addresses| - 1], process) + [Outcome(addresses[|addresses| - 1], process)]
  }

  /** Processing two runs one after the other is processing them together. */
  lemma {:induction false} RunAllAppend(a: seq<string>, b: seq<string>, process: string -> Result<FormattedAddress>)
    ensures RunAll(a + b, process) == RunAll(a, process) + RunAll(b, process)
    decreases |b|
  {
    if |b| > 0 {
      var b' := b[..|b| - 1];
      assert (a + b)[..|a + b| - 1] == a + b';
      RunAllAppend(a, b', process);
    } else {
      assert a + b == a;
    }
  }

  const MissingColumnPrefix := "Address column '"

  /** The message of `range` when its step is zero. */
  const ZeroStep := "range() arg 3 must not be zero"

  /** One chunk, address by address: its records are those of the addresses processed in order. */
  method ProcessChunk(chunk: seq<string>, process: string -> Result<FormattedAddress>)
    returns (chunkResults: seq<FormattedAddress>)
    ensures chunkResults == RunAll(chunk, process)
  {
    chunkResults := [];
    for j := 0 to |chunk|
      invariant chunkResults == RunAll(chunk[..j], process)
    {
      assert chunk[..j + 1][..j] == chunk[..j];
      chunkResults := chunkResults + [Outcome(chunk[j], process)];
    }
    assert chunk[..|chunk|] == chunk;
  }

  /**
   `process_csv_file`: a missing address column is an error; otherwise the
   present cells are processed chunk by chunk, each chunk address by
   address, an address that raises giving an error record. A zero chunk
   size makes `range` raise; a negative one makes it empty, so nothing is
   processed. For a positive chunk size the result does not depend on it:
   it is every address processed in order.
   */
  method ProcessCsvFile(frame: Frame, addressColumn: string, chunkSize: int,
                        process: string -> Result<FormattedAddress>)
    returns (r: Result<seq<FormattedAddress>>)
    ensures addressColumn !in frame ==> r == Err(MissingColumnPrefix + addressColumn + "' not found")
    ensures addressColumn in frame && chunkSize == 0 ==> r == Err(ZeroStep)
    ensures addressColumn in frame && chunkSize < 0 ==> r == Ok([])
    ensures addressColumn in frame && chunkSize > 0 ==> r == Ok(RunAll(DropMissing(frame[addressColumn]), process))
  {
    if addressColumn !in frame {
      return Err(MissingColumnPrefix + addressColumn + "' not found");
    }
    if chunkSize == 0 {
      return Err(ZeroStep);
    }
    var addresses := DropMissing(frame[addressColumn]);
    if chunkSize < 0 {
      return Ok([]);
    }
    var results: seq<FormattedAddress> := [];
    var start := 0;
    while start < |addresses|
      invariant 0 <= start <= |addresses|
      invariant results == RunAll(addresses[..start], process)
      decreases |addresses| - start
    {
      var stop := if start + chunkSize < |addresses| then start + chunkSize else |addresses|;
      var chunk := addresses[start..stop];
      var chunkResults := ProcessChunk(chunk, process);
      RunAllAppend(addresses[..start], chunk, process);
      assert addresses[..start] + chunk == addresses[..stop];
      results := results + chunkResults;
      start := stop;
    }
    assert addresses[..|addresses|] == addresses;
    return Ok(results);
  }

  /** The processor the command line uses: the pipeline above, which never raises. */
  function Pipeline(tag: Tagger): (process: string -> Result<FormattedAddress>)
    ensures forall a :: process(a) == Ok(ProcessSingleAddress(a, tag))
  {
    a => Ok(ProcessSingleAddress(a, tag))
  }

  /** A processor that keeps each address as its result's original yields, with the error records, one record per input address. */
  lemma RunAllOriginals(addresses: seq<string>, process: string -> Result<FormattedAddress>)
    requires forall a :: process(a).Ok? ==> process(a).value.original == a
    ensures forall i :: 0 <= i < |addresses| ==> RunAll(addresses, process)[i].original == addresses[i]
  {
    forall i | 0 <= i < |addresses|
      ensures RunAll(addresses, process)[i].original == addresses[i]
    {
      var a := addresses[i];
      assert process(a).Ok? ==> process(a).value.original == a;
    }
  }

  /** With the command-line pipeline, each record of a CSV run keeps its input address as the original. */
  lemma CsvRecordsMatchInputs(addresses: seq<string>, tag: Tagger)
    ensures forall i :: 0 <= i < |addresses| ==> RunAll(addresses, Pipeline(tag))[i].original == addresses[i]
  {
    RunAllOriginals(addresses, Pipeline(tag));
  }

  /**
   The same test on Windows, where `os.path` is `ntpath`. It agrees with
   `AcceptsInput` on every path without a backslash.
   */
  function AcceptsInputOnWindows(input: string): (ok: bool)
    ensures ok <==> input != "" && Lower(NtExtension(input)) == Lower(".csv")
    ensures (forall k :: 0 <= k < |input| ==> input[k] != '\\') ==> ok == AcceptsInput(input)
  {
    var ok := input != "" && Lower(NtExtension(input)) == Lower(".csv");
    if forall k :: 0 <= k < |input| ==> input[k] != '\\' then
      NtExtensionWithoutBackslash(input);
      ok
    else ok
  }

  /** `C:\in\.csv` passes the POSIX test but is refused on Windows, where it names a file `.csv`. */
  lemma BackslashInputExample(input: string)
    requires input == "C:\\in\\.csv"
    ensures AcceptsInput(input)
    ensures !AcceptsInputOnWindows(input)
  {
    BackslashPathExtensions(input);
    assert Lower("") == "";
  }

  /** The `batch` command accepts an input path exactly when its extension is `.csv`, in any case. */
  function AcceptsInput(input: string): (ok: bool)
    ensures ok <==> input != "" && Lower(Extension(input)) == Lower(".csv")
  {
    assert [".csv"][0] == ".csv";
    ValidateFileExtension(input, [".csv"])
  }
}
