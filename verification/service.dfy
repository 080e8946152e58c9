/**
 The address service of src/api/service.py: the processing statistics it
 keeps across calls, the response it builds for one address, and the summary
 of a batch. The service object's mutable statistics are threaded through
 the operations as a value.
 */
module Service {
  import opened Outcomes
  import opened Fields
  import opened Parser
  import opened Validator
  import opened Formatter

  // ---------------------------------------------------------------------------
  // Statistics
  // ---------------------------------------------------------------------------

  datatype Stats = Stats(
    totalProcessed: nat,
    totalValid: nat,
    totalInvalid: nat,
    totalErrors: nat,
    confidenceScores: seq<real>)

  const InitialStats := Stats(0, 0, 0, 0, [])

  /** How many confidence scores the service keeps. */
  const MaxScores := 1000

  /** The at most `n` last elements of `xs`, in order (Python's `xs[-n:]` when `xs` is longer). */
  function Recent(xs: seq<real>, n: nat): (r: seq<real>)
    ensures |r| <= n && |r| <= |xs|
    ensures r == xs[|xs| - |r|..]
    ensures |xs| <= n ==> r == xs
  {
    if |xs| > n then xs[|xs| - n..] else xs
  }

  /** What the statistics promise at every point: the counters agree and every kept score is positive. */
  predicate Consistent(s: Stats) {
    s.totalValid + s.totalInvalid == s.totalProcessed
    && s.totalErrors <= s.totalProcessed
    && |s.confidenceScores| <= MaxScores
    && forall i :: 0 <= i < |s.confidenceScores| ==> s.confidenceScores[i] > 0.0
  }

  /**
   `_update_stats`: one more address, counted as valid or invalid and
   possibly as an error; a positive confidence is appended to the scores,
   of which the last 1000 are kept.
   */
  function UpdateStats(s: Stats, isValid: bool, confidence: real, hasError: bool): (r: Stats)
    ensures r.totalProcessed == s.totalProcessed + 1
    ensures r.totalValid == s.totalValid + (if isValid then 1 else 0)
    ensures r.totalInvalid == s.totalInvalid + (if isValid then 0 else 1)
    ensures r.totalErrors == s.totalErrors + (if hasError then 1 else 0)
    ensures confidence <= 0.0 ==> r.confidenceScores == s.confidenceScores
    ensures confidence > 0.0 ==> r.confidenceScores == Recent(s.confidenceScores + [confidence], MaxScores)
    ensures Consistent(s) ==> Consistent(r)
  {
    var scores := if confidence > 0.0 then Recent(s.confidenceScores + [confidence], MaxScores) else s.confidenceScores;
    Stats(s.totalProcessed + 1,
      if isValid then s.totalValid + 1 else s.totalValid,
      if isValid then s.totalInvalid else s.totalInvalid + 1,
      if hasError then s.totalErrors + 1 else s.totalErrors,
      scores)
  }

  /** The arguments of one `_update_stats` call. */
  datatype Update = Update(isValid: bool, confidence: real, hasError: bool)

  /** The statistics after a run of calls, in order. */
  function ApplyUpdates(s: Stats, us: seq<Update>): Stats
    decreases |us|
  {
    if |us| == 0 then s
    else
      var u := us[|us| - 1];
      UpdateStats(ApplyUpdates(s, us[..|us| - 1]), u.isValid, u.confidence, u.hasError)
  }

  /** The positive confidences of a run of calls, in order. */
  function Positives(us: seq<Update>): (ps: seq<real>)
    ensures forall i :: 0 <= i < |ps| ==> ps[i] > 0.0
    decreases |us|
  {
    if |us| == 0 then []
    else
      var u := us[|us| - 1];
      Positives(us[..|us| - 1]) + (if u.confidence > 0.0 then [u.confidence] else [])
  }

  function CountValidUpdates(us: seq<Update>): nat
    decreases |us|
  {
    if |us| == 0 then 0 else CountValidUpdates(us[..|us| - 1]) + (if us[|us| - 1].isValid then 1 else 0)
  }

  function CountErrorUpdates(us: seq<Update>): nat
    decreases |us|
  {
    if |us| == 0 then 0 else CountErrorUpdates(us[..|us| - 1]) + (if us[|us| - 1].hasError then 1 else 0)
  }

  /** Keeping the last `n` and then appending and keeping the last `n` is keeping the last `n` of the whole. */
  lemma RecentAppend(xs: seq<real>, x: real, n: nat)
    requires n > 0
    ensures Recent(Recent(xs, n) + [x], n) == Recent(xs + [x], n)
  {
    var ys := Recent(xs, n) + [x];
    var zs := xs + [x];
    if |xs| > n {
      assert Recent(ys, n) == ys[1..];
      assert Recent(zs, n) == zs[|zs| - n..];
      assert ys[1..] == zs[|zs| - n..];
    }
  }

  /**
   From a fresh service, the statistics count every call, and the scores are
   the most recent 1000 positive confidences, in the order they came.
   */
  lemma {:induction false} UpdatesFromStart(us: seq<Update>)
    ensures ApplyUpdates(InitialStats, us).totalProcessed == |us|
    ensures ApplyUpdates(InitialStats, us).totalValid == CountValidUpdates(us)
    ensures ApplyUpdates(InitialStats, us).totalErrors == CountErrorUpdates(us)
    ensures ApplyUpdates(InitialStats, us).confidenceScores == Recent(Positives(us), MaxScores)
    ensures Consistent(ApplyUpdates(InitialStats, us))
    decreases |us|
  {
    if |us| > 0 {
      var prefix := us[..|us| - 1];
      var u := us[|us| - 1];
      UpdatesFromStart(prefix);
      var prev := ApplyUpdates(InitialStats, prefix);
      assert ApplyUpdates(InitialStats, us) == UpdateStats(prev, u.isValid, u.confidence, u.hasError);
      assert Positives(us) == Positives(prefix) + (if u.confidence > 0.0 then [u.confidence] else []);
      if u.confidence > 0.0 {
        RecentAppend(Positives(prefix), u.confidence, MaxScores);
      } else {
        assert Positives(us) == Positives(prefix);
      }
    }
  }

  function Sum(xs: seq<real>): real
    decreases |xs|
  {
    if |xs| == 0 then 0.0 else Sum(xs[..|xs| - 1]) + xs[|xs| - 1]
  }

  /** A sum of positive reals is positive, and at most `hi` times their number when each is at most `hi`. */
  lemma {:induction false} SumBounds(xs: seq<real>, hi: real)
    requires forall i :: 0 <= i < |xs| ==> xs[i] > 0.0
    ensures |xs| > 0 ==> Sum(xs) > 0.0
    ensures (forall i :: 0 <= i < |xs| ==> xs[i] <= hi) ==> Sum(xs) <= hi * |xs| as real
    decreases |xs|
  {
    if |xs| > 0 {
      SumBounds(xs[..|xs| - 1], hi);
    }
  }

  datatype StatsReport = StatsReport(
    totalProcessed: nat,
    totalValid: nat,
    totalInvalid: nat,
    totalErrors: nat,
    averageConfidence: real,    // before rounding to two places
    recentErrorCount: nat)

  /**
   `get_stats`: the counters, the mean of the kept scores (0 with none), and
   a recent-error count that is never stored and so is always 0.
   */
  function GetStats(s: Stats): (r: StatsReport)
    ensures r.totalProcessed == s.totalProcessed && r.totalValid == s.totalValid
    ensures r.totalInvalid == s.totalInvalid && r.totalErrors == s.totalErrors
    ensures r.recentErrorCount == 0
    ensures |s.confidenceScores| == 0 ==> r.averageConfidence == 0.0
    ensures Consistent(s) ==> (r.averageConfidence > 0.0 <==> |s.confidenceScores| > 0)
    ensures Consistent(s) && (forall i :: 0 <= i < |s.confidenceScores| ==> s.confidenceScores[i] <= 100.0) ==>
      r.averageConfidence <= 100.0
  {
    var scores := s.confidenceScores;
    var average := if |scores| == 0 then 0.0 else Sum(scores) / |scores| as real;
    if Consistent(s) && |scores| > 0 then
      SumBounds(scores, 100.0);
      MeanBounds(Sum(scores), |scores|);
      StatsReport(s.totalProcessed, s.totalValid, s.totalInvalid, s.totalErrors, average, 0)
    else
      StatsReport(s.totalProcessed, s.totalValid, s.totalInvalid, s.totalErrors, average, 0)
  }

  lemma MeanBounds(sum: real, n: nat)
    requires n > 0
    ensures sum > 0.0 ==> sum / n as real > 0.0
    ensures sum <= 100.0 * n as real ==> sum / n as real <= 100.0
  {
    var q := sum / n as real;
    assert q * n as real == sum;
  }

  // ---------------------------------------------------------------------------
  // process_single_address
  // ---------------------------------------------------------------------------

  /** Which optional parts a response carries. */
  datatype Options = Options(returnParsed: bool, returnConfidence: bool, returnOriginal: bool)

  datatype Flags = Flags(state: bool, zip: bool, isComplete: bool)

  datatype Response = Response(
    formatted: string,
    valid: Flags,
    errors: seq<string>,
    parsed: Option<Components>,
    confidence: Option<real>,
    original: Option<string>)

  const NoComponents := "No parsed components"

  /** The response to an empty address. */
  const InvalidResponse := Response("", Flags(false, false, false), [InvalidInput], None, None, None)

  /**
   The stages the service calls: `parse_address`, `normalize_components`,
   `validate_address` and the single line of `create_formatted_address_result`.
   The service is written against any such stages; `Usps` below supplies the
   ones of this model.
   */
  datatype Pipeline = Pipeline(
    parse: string -> ParseResult,
    normalize: Labels -> Components,
    validate: Components -> Validation,
    format: (string, ParseResult, Validation) -> string)

  function Usps(tag: Tagger): (pl: Pipeline)
    ensures pl.validate == ValidateAddress
  {
    Pipeline(address => ParseAddress(address, tag), NormalizeComponents, ValidateAddress, SingleLine)
  }

  function SingleLine(address: string, parse: ParseResult, validation: Validation): string {
    CreateFormattedAddressResult(address, parse, validation).singleLine
  }

  /** A validation lists no issues exactly when the address is valid, and valid means all three checks pass. */
  predicate SoundValidation(v: Validation) {
    (v.issues == [] <==> v.valid) && (v.valid <==> v.stateValid && v.zipValid && v.isComplete)
  }

  ghost predicate Sound(pl: Pipeline) {
    forall d :: |d| > 0 ==> SoundValidation(pl.validate(d))
  }

  lemma UspsSound(tag: Tagger)
    ensures Sound(Usps(tag))
  {
    forall d: Components | |d| > 0
      ensures SoundValidation(ValidateAddress(d))
    {
      ValidSound(d);
    }
  }

  lemma ValidSound(d: Components)
    requires |d| > 0
    ensures SoundValidation(ValidateAddress(d))
  {
  }

  /**
   The verdict the service reads back: the validation of the normalized
   components, or, with none, an invalid verdict whose only issue is
   "No parsed components" (and whose flags default to false).
   */
  datatype Judgement = Judgement(valid: bool, flags: Flags, issues: seq<string>)

  function Judge(pl: Pipeline, normalized: Components): (v: Judgement)
    requires Sound(pl)
    ensures v.valid <==> v.flags.state && v.flags.zip && v.flags.isComplete
    ensures v.issues == [] <==> v.valid
    ensures |normalized| == 0 ==> v == Judgement(false, Flags(false, false, false), [NoComponents])
    ensures |normalized| > 0 ==>
      var r := pl.validate(normalized);
      v == Judgement(r.valid, Flags(r.stateValid, r.zipValid, r.isComplete), r.issues)
  {
    if |normalized| == 0 then Judgement(false, Flags(false, false, false), [NoComponents])
    else
      var r := pl.validate(normalized);
      assert SoundValidation(r);
      Judgement(r.valid, Flags(r.stateValid, r.zipValid, r.isComplete), r.issues)
  }

  /** The components the service validates: the normalized parse, or none for an empty parse. */
  function Normalized(pl: Pipeline, parse: ParseResult): Components {
    if |parse.parsed| > 0 then pl.normalize(parse.parsed) else map[]
  }

  /** What one call contributes: its response and the arguments of its `_update_stats` call. */
  datatype Answer = Answer(response: Response, update: Update)

  /**
   The body of `process_single_address` for a non-empty address, given what
   `parse_address` returned for it: normalize a non-empty parse, validate,
   and format only when there is something to format.
   */
  function Respond(pl: Pipeline, address: string, parse: ParseResult, opts: Options): (a: Answer)
    requires Sound(pl)
    ensures a.response.errors == [] <==> a.response.valid.state && a.response.valid.zip && a.response.valid.isComplete
    ensures a.update == Update(a.response.errors == [], parse.confidence, a.response.errors != [])
    ensures a.response.confidence == (if opts.returnConfidence then Some(parse.confidence) else None)
    ensures a.response.original == (if opts.returnOriginal then Some(address) else None)
    ensures a.response.parsed.Some? <==> opts.returnParsed && |parse.parsed| > 0
    ensures a.response.parsed.Some? ==> a.response.parsed.value == pl.normalize(parse.parsed)
    ensures |parse.parsed| == 0 ==> a.response.formatted == "" && a.response.errors == [NoComponents]
    ensures |Normalized(pl, parse)| == 0 ==>
      a.response.formatted == "" && a.response.valid == Flags(false, false, false) && a.response.errors == [NoComponents]
    ensures |Normalized(pl, parse)| > 0 ==>
      var r := pl.validate(Normalized(pl, parse));
      a.response.formatted == pl.format(address, parse, r)
      && a.response.valid == Flags(r.stateValid, r.zipValid, r.isComplete)
      && a.response.errors == r.issues
  {
    var normalized := Normalized(pl, parse);
    var verdict := Judge(pl, normalized);
    var formatted := if |normalized| > 0 then pl.format(address, parse, pl.validate(normalized)) else "";
    var response := Response(
      formatted, verdict.flags, verdict.issues,
      if opts.returnParsed && |parse.parsed| > 0 then Some(normalized) else None,
      if opts.returnConfidence then Some(parse.confidence) else None,
      if opts.returnOriginal then Some(address) else None);
    Answer(response, Update(verdict.valid, parse.confidence, |response.errors| > 0))
  }

  /** The answer to one address; an empty one is refused before parsing. */
  function AnswerFor(pl: Pipeline, address: string, opts: Options): (a: Answer)
    requires Sound(pl)
    ensures address == "" ==> a == Answer(InvalidResponse, Update(false, 0.0, true))
    ensures a.update.isValid <==> a.response.errors == []
    ensures a.update.hasError <==> a.response.errors != []
  {
    if address == "" then Answer(InvalidResponse, Update(false, 0.0, true))
    else Respond(pl, address, pl.parse(address), opts)
  }

  /**
   `process_single_address`: an empty address is answered at once and
   counted as an invalid call with an error; any other address is processed
   and counted as valid exactly when its response lists no errors.
   */
  function ProcessSingleAddress(pl: Pipeline, s: Stats, address: string, opts: Options): (r: (Response, Stats))
    requires Sound(pl)
    ensures address == "" ==> r.0 == InvalidResponse && r.1 == UpdateStats(s, false, 0.0, true)
    ensures r.1.totalProcessed == s.totalProcessed + 1
    ensures r.1.totalErrors == s.totalErrors + (if r.0.errors == [] then 0 else 1)
    ensures r.1.totalValid == s.totalValid + (if r.0.errors == [] then 1 else 0)
    ensures Consistent(s) ==> Consistent(r.1)
  {
    var a := AnswerFor(pl, address, opts);
    (a.response, UpdateStats(s, a.update.isValid, a.update.confidence, a.update.hasError))
  }

  // ---------------------------------------------------------------------------
  // process_batch
  // ---------------------------------------------------------------------------

  datatype Summary = Summary(total: nat, valid: nat, invalid: nat, errors: nat)

  function CountComplete(rs: seq<Response>): (n: nat)
    ensures n <= |rs|
    decreases |rs|
  {
    if |rs| == 0 then 0 else CountComplete(rs[..|rs| - 1]) + (if rs[|rs| - 1].valid.isComplete then 1 else 0)
  }

  function CountWithErrors(rs: seq<Response>): (n: nat)
    ensures n <= |rs|
    decreases |rs|
  {
    if |rs| == 0 then 0 else CountWithErrors(rs[..|rs| - 1]) + (if rs[|rs| - 1].errors != [] then 1 else 0)
  }

  /** The reference: each address answered on its own, in order. */
  function Answers(pl: Pipeline, addresses: seq<string>, opts: Options): (rs: seq<Response>)
    requires Sound(pl)
    ensures |rs| == |addresses|
    ensures forall i :: 0 <= i < |addresses| ==> rs[i] == AnswerFor(pl, addresses[i], opts).response
    decreases |addresses|
  {
    if |addresses| == 0 then []
    else Answers(pl, addresses[..|addresses| - 1], opts) + [AnswerFor(pl, addresses[|addresses| - 1], opts).response]
  }

  /**
   `process_batch`: one response per address, in order; the summary counts
   complete addresses as valid (not overall validity) and responses that
   list errors. Parsed components and confidences are left out unless asked
   for; the original is always included.
   */
  method ProcessBatch(pl: Pipeline, s: Stats, addresses: seq<string>, returnParsed: bool, returnConfidence: bool)
    returns (results: seq<Response>, summary: Summary, s': Stats)
    requires Sound(pl)
    ensures |results| == |addresses|
    ensures forall i :: 0 <= i < |addresses| ==>
      results[i] == AnswerFor(pl, addresses[i], Options(returnParsed, returnConfidence, true)).response
    ensures summary.total == |addresses| && summary.valid + summary.invalid == summary.total
    ensures summary.valid == CountComplete(results) && summary.errors == CountWithErrors(results)
    ensures s'.totalProcessed == s.totalProcessed + |addresses|
    ensures s'.totalErrors == s.totalErrors + summary.errors
    ensures Consistent(s) ==> Consistent(s')
  {
    var opts := Options(returnParsed, returnConfidence, true);
    results := [];
    summary := Summary(|addresses|, 0, 0, 0);
    s' := s;
    for i := 0 to |addresses|
      invariant results == Answers(pl, addresses[..i], opts)
      invariant summary.total == |addresses| && summary.valid + summary.invalid == i
      invariant summary.valid == CountComplete(results) && summary.errors == CountWithErrors(results)
      invariant s'.totalProcessed == s.totalProcessed + i
      invariant s'.totalErrors == s.totalErrors + summary.errors
      invariant Consistent(s) ==> Consistent(s')
    {
      assert addresses[..i + 1][..i] == addresses[..i];
      results, summary, s' := BatchStep(pl, s', summary, results, addresses[i], opts);
    }
    assert addresses[..|addresses|] == addresses;
  }

  /** One address of a batch: its response is appended, counted in the summary and in the statistics. */
  method BatchStep(pl: Pipeline, st: Stats, summary: Summary, results: seq<Response>, address: string, opts: Options)
    returns (results': seq<Response>, summary': Summary, st': Stats)
    requires Sound(pl)
    requires summary.valid == CountComplete(results) && summary.errors == CountWithErrors(results)
    ensures results' == results + [AnswerFor(pl, address, opts).response]
    ensures summary'.total == summary.total && summary'.valid + summary'.invalid == summary.valid + summary.invalid + 1
    ensures summary'.valid == CountComplete(results') && summary'.errors == CountWithErrors(results')
    ensures st'.totalProcessed == st.totalProcessed + 1
    ensures st'.totalErrors + summary.errors == st.totalErrors + summary'.errors
    ensures Consistent(st) ==> Consistent(st')
  {
    var out := ProcessSingleAddress(pl, st, address, opts);
    var result := out.0;
    st' := out.1;
    results' := results + [result];
    assert results'[..|results'| - 1] == results;
    summary' := summary;
    if result.valid.isComplete {
      summary' := summary'.(valid := summary'.valid + 1);
    } else {
      summary' := summary'.(invalid := summary'.invalid + 1);
    }
    if result.errors != [] {
      summary' := summary'.(errors := summary'.errors + 1);
    }
  }
}
