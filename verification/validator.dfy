/**
 Offline validation of US address components (src/validator.py): ZIP code and
 state checks, completeness of the component dictionary, the confidence score
 that combines them, and the street-number and city checks.

 Every check answers with a `Verdict`, the `(is_valid, error_message)` pair
 that `validate_zip_code`, `validate_state` and the other checks return.
 */
module Validator {
  import opened Outcomes
  import opened Text
  import opened Fields

  /** `(is_valid, error_message)`; the message is empty exactly when the check passes. */
  datatype Verdict = Verdict(valid: bool, error: string)

  const Pass := Verdict(true, "")

  // ---------------------------------------------------------------------------
  // Character filters (`re.sub(r'[^...]', '', s)`)
  // ---------------------------------------------------------------------------

  /** The character classes the validators filter by: `[\d-]` for ZIP codes, `\d` for street numbers. */
  datatype CharClass = ZipClass | DigitClass

  predicate InClass(cls: CharClass, c: char) {
    match cls
    case ZipClass => IsDigit(c) || c == '-'
    case DigitClass => IsDigit(c)
  }

  /** The characters of `s` in class `cls`, in order. */
  function Keep(s: string, cls: CharClass): (r: string)
    ensures |r| <= |s|
    ensures forall i :: 0 <= i < |r| ==> InClass(cls, r[i])
  {
    if |s| == 0 then "" else (if InClass(cls, s[0]) then [s[0]] else "") + Keep(s[1..], cls)
  }

  lemma {:induction false} KeepConcat(a: string, b: string, cls: CharClass)
    ensures Keep(a + b, cls) == Keep(a, cls) + Keep(b, cls)
    decreases |a|
  {
    if |a| > 0 {
      assert (a + b)[0] == a[0];
      assert (a + b)[1..] == a[1..] + b;
      KeepConcat(a[1..], b, cls);
    } else {
      assert a + b == b;
    }
  }

  lemma {:induction false} KeepAll(s: string, cls: CharClass)
    requires forall i :: 0 <= i < |s| ==> InClass(cls, s[i])
    ensures Keep(s, cls) == s
    decreases |s|
  {
    if |s| > 0 {
      KeepAll(s[1..], cls);
    }
  }

  lemma {:induction false} KeepNone(s: string, cls: CharClass)
    requires forall i :: 0 <= i < |s| ==> !InClass(cls, s[i])
    ensures Keep(s, cls) == ""
    decreases |s|
  {
    if |s| > 0 {
      KeepNone(s[1..], cls);
    }
  }

  lemma {:induction false} KeepSpaces(s: string, cls: CharClass)
    requires AllSpace(s)
    ensures Keep(s, cls) == ""
    decreases |s|
  {
    if |s| > 0 {
      KeepSpaces(s[1..], cls);
    }
  }

  lemma KeepTrimLeft(s: string, cls: CharClass)
    ensures Keep(TrimLeft(s), cls) == Keep(s, cls)
  {
    var l := TrimLeft(s);
    var k := |s| - |l|;
    assert s == s[..k] + l;
    KeepConcat(s[..k], l, cls);
    KeepSpaces(s[..k], cls);
  }

  lemma KeepTrimRight(s: string, cls: CharClass)
    ensures Keep(TrimRight(s), cls) == Keep(s, cls)
  {
    var r := TrimRight(s);
    assert s == r + s[|r|..];
    KeepConcat(r, s[|r|..], cls);
    KeepSpaces(s[|r|..], cls);
  }

  /** Neither class holds whitespace, so filtering before or after `strip()` agrees. */
  lemma KeepStrip(s: string, cls: CharClass)
    ensures Keep(Strip(s), cls) == Keep(s, cls)
  {
    KeepTrimLeft(s, cls);
    KeepTrimRight(TrimLeft(s), cls);
  }

  predicate AllDigits(s: string) {
    forall i :: 0 <= i < |s| ==> IsDigit(s[i])
  }

  // ---------------------------------------------------------------------------
  // ZIP codes
  // ---------------------------------------------------------------------------

  /** `^\d{5}$` */
  predicate IsZip5(s: string) {
    |s| == 5 && AllDigits(s)
  }

  /** `^\d{5}-\d{4}$` */
  predicate IsZipPlus4(s: string) {
    |s| == 10 && AllDigits(s[..5]) && s[5] == '-' && AllDigits(s[6..])
  }

  function ValidateZipCode(zip: string): (r: Verdict)
    ensures r.valid <==> zip != "" && (IsZip5(Keep(zip, ZipClass)) || IsZipPlus4(Keep(zip, ZipClass)))
    ensures r.valid ==> r == Pass
    ensures zip == "" ==> r.error == "ZIP code is missing"
    ensures zip != "" && !r.valid ==>
      r.error == "Invalid ZIP code format: " + zip + ". Expected 5 digits or ZIP+4 format (12345-6789)"
  {
    if zip == "" then Verdict(false, "ZIP code is missing")
    else
      var cleaned := Keep(Strip(zip), ZipClass);
      KeepStrip(zip, ZipClass);
      if IsZip5(cleaned) || IsZipPlus4(cleaned) then Pass
      else Verdict(false, "Invalid ZIP code format: " + zip + ". Expected 5 digits or ZIP+4 format (12345-6789)")
  }

  /** Every five-digit code, and every five-plus-four code with its hyphen, is accepted. */
  lemma ZipAcceptsWellFormed(five: string, four: string)
    requires |five| == 5 && AllDigits(five)
    requires |four| == 4 && AllDigits(four)
    ensures ValidateZipCode(five).valid
    ensures ValidateZipCode(five + "-" + four).valid
  {
    KeepAll(five, ZipClass);
    var z := five + "-" + four;
    forall i | 0 <= i < |z|
      ensures InClass(ZipClass, z[i])
    {
      if i < 5 {
        assert z[i] == five[i];
      } else if i > 5 {
        assert z[i] == four[i - 6];
      }
    }
    KeepAll(z, ZipClass);
    assert z[..5] == five;
    assert z[6..] == four;
  }

  /** Characters other than digits and hyphens never change the verdict. */
  lemma ZipIgnoresNoise(a: string, c: char, b: string)
    requires !InClass(ZipClass, c)
    requires a + b != ""
    ensures ValidateZipCode(a + [c] + b).valid == ValidateZipCode(a + b).valid
  {
    assert [c][1..] == "";
    assert Keep([c], ZipClass) == "";
    KeepConcat(a + [c], b, ZipClass);
    KeepConcat(a, [c], ZipClass);
    KeepConcat(a, b, ZipClass);
    assert Keep(a, ZipClass) + "" == Keep(a, ZipClass);
    assert Keep(a + [c] + b, ZipClass) == Keep(a + b, ZipClass);
    assert a + [c] + b != "";
  }

  lemma {:induction false} KeepKeep(s: string)
    ensures Keep(Keep(s, ZipClass), DigitClass) == Keep(s, DigitClass)
    decreases |s|
  {
    if |s| > 0 {
      KeepKeep(s[1..]);
      var h := if InClass(ZipClass, s[0]) then [s[0]] else "";
      KeepConcat(h, Keep(s[1..], ZipClass), DigitClass);
      if InClass(ZipClass, s[0]) {
        assert h[1..] == "";
      }
    }
  }

  lemma DigitsOfZipShape(z: string)
    requires IsZip5(z) || IsZipPlus4(z)
    ensures |Keep(z, DigitClass)| == 5 || |Keep(z, DigitClass)| == 9
  {
    if IsZip5(z) {
      KeepAll(z, DigitClass);
    } else {
      assert z == z[..5] + [z[5]] + z[6..];
      KeepConcat(z[..5] + [z[5]], z[6..], DigitClass);
      KeepConcat(z[..5], [z[5]], DigitClass);
      KeepAll(z[..5], DigitClass);
      KeepAll(z[6..], DigitClass);
      assert [z[5]][1..] == "";
    }
  }

  /** An accepted code carries exactly five or exactly nine digits, wherever they sit. */
  lemma ZipNeedsFiveOrNineDigits(zip: string)
    requires ValidateZipCode(zip).valid
    ensures |Keep(zip, DigitClass)| == 5 || |Keep(zip, DigitClass)| == 9
  {
    KeepKeep(zip);
    DigitsOfZipShape(Keep(zip, ZipClass));
  }

  // ---------------------------------------------------------------------------
  // States
  // ---------------------------------------------------------------------------

  /** `VALID_STATES`: the fifty states, DC and five territories. */
  predicate IsStateCode(s: string) {
    match s
    case "AL" | "AK" | "AZ" | "AR" | "CA" | "CO" | "CT" | "DE" | "FL" | "GA" => true
    case "HI" | "ID" | "IL" | "IN" | "IA" | "KS" | "KY" | "LA" | "ME" | "MD" => true
    case "MA" | "MI" | "MN" | "MS" | "MO" | "MT" | "NE" | "NV" | "NH" | "NJ" => true
    case "NM" | "NY" | "NC" | "ND" | "OH" | "OK" | "OR" | "PA" | "RI" | "SC" => true
    case "SD" | "TN" | "TX" | "UT" | "VT" | "VA" | "WA" | "WV" | "WI" | "WY" => true
    case "DC" | "AS" | "GU" | "MP" | "PR" | "VI" => true
    case _ => false
  }

  /** `STATE_NAME_TO_ABBREV`, keyed by upper-case full name. */
  function StateNameToAbbrev(name: string): Option<string> {
    match name
    case "ALABAMA" => Some("AL")
    case "ALASKA" => Some("AK")
    case "ARIZONA" => Some("AZ")
    case "ARKANSAS" => Some("AR")
    case "CALIFORNIA" => Some("CA")
    case "COLORADO" => Some("CO")
    case "CONNECTICUT" => Some("CT")
    case "DELAWARE" => Some("DE")
    case "FLORIDA" => Some("FL")
    case "GEORGIA" => Some("GA")
    case "HAWAII" => Some("HI")
    case "IDAHO" => Some("ID")
    case "ILLINOIS" => Some("IL")
    case "INDIANA" => Some("IN")
    case "IOWA" => Some("IA")
    case "KANSAS" => Some("KS")
    case "KENTUCKY" => Some("KY")
    case "LOUISIANA" => Some("LA")
    case "MAINE" => Some("ME")
    case "MARYLAND" => Some("MD")
    case "MASSACHUSETTS" => Some("MA")
    case "MICHIGAN" => Some("MI")
    case "MINNESOTA" => Some("MN")
    case "MISSISSIPPI" => Some("MS")
    case "MISSOURI" => Some("MO")
    case "MONTANA" => Some("MT")
    case "NEBRASKA" => Some("NE")
    case "NEVADA" => Some("NV")
    case "NEW HAMPSHIRE" => Some("NH")
    case "NEW JERSEY" => Some("NJ")
    case "NEW MEXICO" => Some("NM")
    case "NEW YORK" => Some("NY")
    case "NORTH CAROLINA" => Some("NC")
    case "NORTH DAKOTA" => Some("ND")
    case "OHIO" => Some("OH")
    case "OKLAHOMA" => Some("OK")
    case "OREGON" => Some("OR")
    case "PENNSYLVANIA" => Some("PA")
    case "RHODE ISLAND" => Some("RI")
    case "SOUTH CAROLINA" => Some("SC")
    case "SOUTH DAKOTA" => Some("SD")
    case "TENNESSEE" => Some("TN")
    case "TEXAS" => Some("TX")
    case "UTAH" => Some("UT")
    case "VERMONT" => Some("VT")
    case "VIRGINIA" => Some("VA")
    case "WASHINGTON" => Some("WA")
    case "WEST VIRGINIA" => Some("WV")
    case "WISCONSIN" => Some("WI")
    case "WYOMING" => Some("WY")
    case "DISTRICT OF COLUMBIA" => Some("DC")
    case "AMERICAN SAMOA" => Some("AS")
    case "GUAM" => Some("GU")
    case "NORTHERN MARIANA ISLANDS" => Some("MP")
    case "PUERTO RICO" => Some("PR")
    case "VIRGIN ISLANDS" => Some("VI")
    case _ => None
  }

  /** Every full name maps to one of the valid codes. */
  lemma StateNamesMapToCodes(name: string)
    requires StateNameToAbbrev(name).Some?
    ensures IsStateCode(StateNameToAbbrev(name).value)
  {
  }

  /** No full name is also a code. */
  lemma StateNamesAreNotCodes(name: string)
    requires StateNameToAbbrev(name).Some?
    ensures !IsStateCode(name)
  {
    TwoLettersAreNoName(name);
    CodeLength(name);
  }

  lemma TwoLettersAreNoName(name: string)
    ensures |name| == 2 ==> StateNameToAbbrev(name) == None
  {
  }

  lemma CodeLength(c: string)
    ensures IsStateCode(c) ==> |c| == 2
  {
    if IsStateCode(c) {
      StateCodeShape(c);
    }
  }

  /** A valid code is two upper-case ASCII letters. */
  lemma StateCodeShape(c: string)
    requires IsStateCode(c)
    ensures |c| == 2 && 'A' <= c[0] <= 'Z' && 'A' <= c[1] <= 'Z'
  {
  }

  /** The lookup key of both state functions: `state.upper().strip()`. */
  function StateKey(state: string): string {
    Strip(Upper(state))
  }

  /** `get_state_abbreviation`: the code for a code or a full name, in any case, padded or not. */
  function GetStateAbbreviation(state: string): (r: Option<string>)
    ensures r.Some? ==> IsStateCode(r.value)
    ensures state == "" ==> r == None
    ensures state != "" && IsStateCode(StateKey(state)) ==> r == Some(StateKey(state))
    ensures state != "" && !IsStateCode(StateKey(state)) ==> r == StateNameToAbbrev(StateKey(state))
  {
    if state == "" then None
    else
      var key := StateKey(state);
      if IsStateCode(key) then Some(key)
      else
        var name := StateNameToAbbrev(key);
        if name.Some? then StateNamesMapToCodes(key); name else None
  }

  function ValidateState(state: string): (r: Verdict)
    ensures r.valid <==> GetStateAbbreviation(state).Some?
    ensures r.valid <==>
      state != "" && (IsStateCode(StateKey(state)) || StateNameToAbbrev(StateKey(state)).Some?)
    ensures r.valid ==> r == Pass
    ensures state == "" ==> r.error == "State is missing"
    ensures state != "" && !r.valid ==>
      r.error == "Invalid state: " + state + ". Must be a valid US state abbreviation or name"
  {
    if state == "" then Verdict(false, "State is missing")
    else
      var key := Strip(Upper(state));
      if IsStateCode(key) then Pass
      else if StateNameToAbbrev(key).Some? then Pass
      else Verdict(false, "Invalid state: " + state + ". Must be a valid US state abbreviation or name")
  }

  /** Every full name of the table, in any case and padding, is accepted and looks up its own code. */
  lemma StateNamesAccepted(state: string)
    requires StateNameToAbbrev(StateKey(state)).Some?
    ensures GetStateAbbreviation(state) == StateNameToAbbrev(StateKey(state))
    ensures ValidateState(state) == Pass
  {
    StateNamesAreNotCodes(StateKey(state));
    EmptyIsNoName(state);
  }

  lemma EmptyIsNoName(state: string)
    ensures state == "" ==> StateNameToAbbrev(StateKey(state)) == None
  {
    EmptyKey();
    NoNameForEmpty();
  }

  lemma EmptyKey()
    ensures StateKey("") == ""
  {
    assert Upper("") == "";
  }

  lemma NoNameForEmpty()
    ensures StateNameToAbbrev("") == None
  {
  }

  lemma StateNameExample()
    ensures GetStateAbbreviation("Texas") == Some("TX")
    ensures ValidateState("Texas") == Pass
  {
    TexasKey();
    TexasLooksUp();
  }

  /** An unknown code is rejected. */
  lemma UnknownStateExample()
    ensures GetStateAbbreviation("XX") == None
    ensures !ValidateState("XX").valid
  {
    UnknownKey();
    UnknownLooksUp();
  }

  lemma TexasLooksUp()
    ensures !IsStateCode("TEXAS") && StateNameToAbbrev("TEXAS") == Some("TX")
  {
  }

  lemma UnknownLooksUp()
    ensures !IsStateCode("XX") && StateNameToAbbrev("XX") == None
  {
  }

  lemma TexasKey()
    ensures StateKey("Texas") == "TEXAS"
  {
    assert Upper("Texas") == "TEXAS";
    StripOfTrimmed("TEXAS");
  }

  lemma UnknownKey()
    ensures StateKey("XX") == "XX"
  {
    assert Upper("XX") == "XX";
    StripOfTrimmed("XX");
  }

  lemma UpperCode(c: string)
    requires IsStateCode(c)
    ensures StateKey(c) == c
  {
    StateCodeShape(c);
    UpperOfNoLower(c);
    StripOfTrimmed(c);
  }

  /** Looking up an abbreviation again gives the same abbreviation. */
  lemma StateAbbreviationIdempotent(state: string)
    requires GetStateAbbreviation(state).Some?
    ensures GetStateAbbreviation(GetStateAbbreviation(state).value) == GetStateAbbreviation(state)
  {
    CodeLooksUpItself(GetStateAbbreviation(state).value);
  }

  /** A valid code is its own abbreviation. */
  lemma CodeLooksUpItself(c: string)
    requires IsStateCode(c)
    ensures GetStateAbbreviation(c) == Some(c)
  {
    StateCodeShape(c);
    UpperCode(c);
  }

  lemma UpperLower(s: string)
    ensures Upper(Lower(s)) == Upper(s)
  {
  }

  /** Case never matters: a lower-cased input has the same abbreviation and verdict. */
  lemma StateCaseInsensitive(state: string)
    ensures GetStateAbbreviation(Lower(state)) == GetStateAbbreviation(state)
    ensures ValidateState(Lower(state)).valid == ValidateState(state).valid
  {
    UpperLower(state);
  }

  // ---------------------------------------------------------------------------
  // Completeness
  // ---------------------------------------------------------------------------

  const RequiredFields: seq<Field> := [StreetNumber, StreetName, City, State]

  /** `xs` is `ys` with some elements left out, order kept. */
  predicate IsSubsequence(xs: seq<Field>, ys: seq<Field>)
    decreases |ys|
  {
    if |xs| == 0 then true
    else if |ys| == 0 then false
    else if xs[0] == ys[0] then IsSubsequence(xs[1..], ys[1..])
    else IsSubsequence(xs, ys[1..])
  }

  /** The entries of `fields` that `d` lacks, in the order of `fields`. */
  function Missing(d: Components, fields: seq<Field>): (m: seq<Field>)
    ensures forall f :: f in m <==> f in fields && !Present(d, f)
    ensures IsSubsequence(m, fields)
  {
    if |fields| == 0 then []
    else if Present(d, fields[0]) then Missing(d, fields[1..])
    else [fields[0]] + Missing(d, fields[1..])
  }

  lemma MissingNone(d: Components, fields: seq<Field>)
    ensures Missing(d, fields) == [] <==> forall f :: f in fields ==> Present(d, f)
  {
    if Missing(d, fields) != [] {
      assert Missing(d, fields)[0] in Missing(d, fields);
    }
  }

  /** `(is_complete, list_of_missing_fields)` */
  datatype Completeness = Completeness(complete: bool, missing: seq<Field>)

  /** A PO-box address needs only the box, the city and the state. */
  predicate PoBoxComplete(d: Components) {
    Present(d, PoBox) && Present(d, City) && Present(d, State)
  }

  function ValidateAddressCompleteness(d: Components): (r: Completeness)
    ensures r.complete <==>
      |d| > 0 && (PoBoxComplete(d) || forall f :: f in RequiredFields ==> Present(d, f))
    ensures r.complete ==> r.missing == []
    ensures !r.complete ==> forall f :: f in r.missing <==> f in RequiredFields && !Present(d, f)
    ensures !r.complete ==> r.missing != [] && IsSubsequence(r.missing, RequiredFields)
  {
    if |d| == 0 then Completeness(false, RequiredFields)
    else
      var missing := Missing(d, RequiredFields);
      MissingNone(d, RequiredFields);
      MissingNone(d, [PoBox, City, State]);
      assert PoBoxComplete(d) <==> forall f :: f in [PoBox, City, State] ==> Present(d, f);
      if Present(d, PoBox) && Missing(d, [PoBox, City, State]) == [] then Completeness(true, [])
      else Completeness(missing == [], missing)
  }

  // ---------------------------------------------------------------------------
  // Confidence
  // ---------------------------------------------------------------------------

  /** The bonus for a passed check, the penalty for a failed one. */
  function Adjustment(passed: bool, bonus: real, penalty: real): real {
    if passed then bonus else -penalty
  }

  /** `validations.get(k, False)` */
  function Flag(validations: map<string, bool>, k: string): bool {
    k in validations && validations[k]
  }

  /** `max(0.0, min(100.0, x))` */
  function Clamp(x: real): (r: real)
    ensures 0.0 <= r <= 100.0
    ensures 0.0 <= x <= 100.0 ==> r == x
  {
    if x > 100.0 then 100.0 else if x < 0.0 then 0.0 else x
  }

  /**
   `calculate_confidence_score`: the parse confidence (key `confidence`, 0 when
   absent) plus 10/-20 for the ZIP code, 10/-20 for the state and 15/-25 for
   completeness, clamped to 0..100.
   */
  function CalculateConfidenceScore(parsed: map<string, real>, validations: map<string, bool>): (r: real)
    ensures 0.0 <= r <= 100.0
    ensures |parsed| == 0 || |validations| == 0 ==> r == 0.0
  {
    if |parsed| == 0 || |validations| == 0 then 0.0
    else
      var base := if "confidence" in parsed then parsed["confidence"] else 0.0;
      Clamp(base
        + Adjustment(Flag(validations, "zip_valid"), 10.0, 20.0)
        + Adjustment(Flag(validations, "state_valid"), 10.0, 20.0)
        + Adjustment(Flag(validations, "is_complete"), 15.0, 25.0))
  }

  lemma ClampMonotone(x: real, y: real)
    requires x <= y
    ensures Clamp(x) <= Clamp(y)
  {
  }

  /** Passing one more check never lowers the score. */
  lemma ConfidenceMonotone(parsed: map<string, real>, validations: map<string, bool>, k: string)
    ensures CalculateConfidenceScore(parsed, validations) <= CalculateConfidenceScore(parsed, validations[k := true])
  {
    if |parsed| > 0 && |validations| > 0 {
      var v := validations[k := true];
      assert Flag(validations, "zip_valid") ==> Flag(v, "zip_valid");
      assert Flag(validations, "state_valid") ==> Flag(v, "state_valid");
      assert Flag(validations, "is_complete") ==> Flag(v, "is_complete");
      var base := if "confidence" in parsed then parsed["confidence"] else 0.0;
      ClampMonotone(
        base + Adjustment(Flag(validations, "zip_valid"), 10.0, 20.0)
          + Adjustment(Flag(validations, "state_valid"), 10.0, 20.0)
          + Adjustment(Flag(validations, "is_complete"), 15.0, 25.0),
        base + Adjustment(Flag(v, "zip_valid"), 10.0, 20.0)
          + Adjustment(Flag(v, "state_valid"), 10.0, 20.0)
          + Adjustment(Flag(v, "is_complete"), 15.0, 25.0));
    }
  }

  /** The three worked cases: capped at 100, clamped at 0, and 60 + 10 - 20 + 15. */
  lemma ConfidenceExamples()
    ensures CalculateConfidenceScore(map["confidence" := 80.0],
      map["zip_valid" := true, "state_valid" := true, "is_complete" := true]) == 100.0
    ensures CalculateConfidenceScore(map["confidence" := 50.0],
      map["zip_valid" := false, "state_valid" := false, "is_complete" := false]) == 0.0
    ensures CalculateConfidenceScore(map["confidence" := 60.0],
      map["zip_valid" := true, "state_valid" := false, "is_complete" := true]) == 65.0
  {
  }

  // ---------------------------------------------------------------------------
  // Whole-address validation
  // ---------------------------------------------------------------------------

  /**
   The score `validate_address` obtains: the components stand in for the parse
   result, and since no field is named `confidence` the base is 0.
   */
  function ValidationConfidence(fields: set<Field>, zipValid: bool, stateValid: bool, complete: bool): (r: real)
    requires fields != {}
    ensures r ==
      if zipValid && stateValid && complete then 35.0
      else if complete && zipValid != stateValid then 5.0
      else 0.0
  {
    var scores := map f | f in fields :: f.Name() := 0.0;
    var some :| some in fields;
    assert some.Name() in scores;
    assert "confidence" !in scores;
    CalculateConfidenceScore(scores,
      map["zip_valid" := zipValid, "state_valid" := stateValid, "is_complete" := complete])
  }

  /** The dictionary `validate_address` returns; `missing_fields` is absent for an empty input. */
  datatype Validation = Validation(
    valid: bool,
    zipValid: bool,
    stateValid: bool,
    isComplete: bool,
    confidence: real,
    issues: seq<string>,
    missingFields: Option<seq<Field>>)

  const EmptyValidation :=
    Validation(false, false, false, false, 0.0, ["Address dictionary is empty"], None)

  /** The completeness issue: the names of the missing fields after "Missing required fields: ". */
  function MissingMessage(missing: seq<Field>): string {
    "Missing required fields: " + Join(Names(missing), ", ")
  }

  /**
   `validate_address`. The missing fields are reported by name in the issue
   text and as fields in `missingFields`.
   */
  function ValidateAddress(d: Components): (r: Validation)
    ensures |d| == 0 ==> r == EmptyValidation
    ensures |d| > 0 ==> r.zipValid == ValidateZipCode(Get(d, ZipCode)).valid
    ensures |d| > 0 ==> r.stateValid == ValidateState(Get(d, State)).valid
    ensures |d| > 0 ==> r.isComplete == ValidateAddressCompleteness(d).complete
    ensures r.valid <==> r.zipValid && r.stateValid && r.isComplete
    ensures |d| > 0 ==> (r.issues == [] <==> r.valid)
    ensures |d| > 0 ==> |r.issues| == (if r.zipValid then 0 else 1) + (if r.stateValid then 0 else 1) + (if r.isComplete then 0 else 1)
    ensures |d| > 0 ==>
      r.issues ==
        (if r.zipValid then [] else [ValidateZipCode(Get(d, ZipCode)).error])
        + (if r.stateValid then [] else [ValidateState(Get(d, State)).error])
        + (if r.isComplete then [] else [MissingMessage(ValidateAddressCompleteness(d).missing)])
    ensures |d| > 0 && !r.isComplete ==> r.missingFields == Some(ValidateAddressCompleteness(d).missing)
    ensures r.confidence ==
      if r.valid then 35.0
      else if r.isComplete && r.zipValid != r.stateValid then 5.0
      else 0.0
    ensures |d| > 0 ==> r.missingFields.Some?
    ensures r.isComplete ==> r.missingFields == Some([])
  {
    if |d| == 0 then EmptyValidation
    else
      var zip := ValidateZipCode(Get(d, ZipCode));
      var state := ValidateState(Get(d, State));
      var completeness := ValidateAddressCompleteness(d);
      var issues :=
        (if zip.valid then [] else [zip.error])
        + (if state.valid then [] else [state.error])
        + (if completeness.complete then [] else [MissingMessage(completeness.missing)]);
      assert d.Keys != {};
      var confidence := ValidationConfidence(d.Keys, zip.valid, state.valid, completeness.complete);
      var valid := zip.valid && state.valid && completeness.complete;
      Validation(valid, zip.valid, state.valid, completeness.complete, confidence, issues,
        Some(if completeness.complete then [] else completeness.missing))
  }

  // ---------------------------------------------------------------------------
  // Street numbers
  // ---------------------------------------------------------------------------

  /** Python's `int()` on a string of ASCII digits. */
  function DecimalValue(ds: string): nat
    requires AllDigits(ds)
  {
    if |ds| == 0 then 0
    else 10 * DecimalValue(ds[..|ds| - 1]) + (ds[|ds| - 1] as int - '0' as int)
  }

  /** Python's `str()` on a natural number. */
  function ShowNat(n: nat): (s: string)
    ensures |s| > 0 && AllDigits(s)
  {
    var d := ['0' + (n % 10) as char];
    if n < 10 then d else ShowNat(n / 10) + d
  }

  lemma {:induction false} ShowNatValue(n: nat)
    ensures DecimalValue(ShowNat(n)) == n
  {
    var d := ['0' + (n % 10) as char];
    if n >= 10 {
      ShowNatValue(n / 10);
      var s := ShowNat(n / 10) + d;
      assert s[..|s| - 1] == ShowNat(n / 10);
    }
  }

  /**
   The most digits `int()` converts from a string: the default
   `sys.int_info.default_max_str_digits` of CPython 3.11 and later and of the
   patched 3.8 to 3.10 releases. Longer digit strings raise `ValueError`.
   */
  const MaxIntDigits := 4300

  function ValidateStreetNumber(number: string): (r: Verdict)
    ensures r.valid ==> r == Pass
    ensures r.valid <==>
      Keep(number, DigitClass) != "" && |Keep(number, DigitClass)| <= MaxIntDigits
      && 1 <= DecimalValue(Keep(number, DigitClass)) <= 99999
    ensures number == "" ==> r.error == "Street number is missing"
    ensures number != "" && Keep(number, DigitClass) == "" ==>
      r.error == "Invalid street number: " + number + ". Must contain digits"
    ensures |Keep(number, DigitClass)| > MaxIntDigits ==>
      r.error == "Invalid street number format: " + number
    ensures Keep(number, DigitClass) != "" && |Keep(number, DigitClass)| <= MaxIntDigits && !r.valid ==>
      r.error == "Street number out of range: " + number + ". Must be between 1 and 99999"
  {
    if number == "" then Verdict(false, "Street number is missing")
    else
      var cleaned := Keep(Strip(number), DigitClass);
      KeepStrip(number, DigitClass);
      if cleaned == "" then Verdict(false, "Invalid street number: " + number + ". Must contain digits")
      else if |cleaned| > MaxIntDigits then Verdict(false, "Invalid street number format: " + number)
      else if 1 <= DecimalValue(cleaned) <= 99999 then Pass
      else Verdict(false, "Street number out of range: " + number + ". Must be between 1 and 99999")
  }

  /** Powers of ten. */
  function Pow10(k: nat): nat {
    if k == 0 then 1 else 10 * Pow10(k - 1)
  }

  /** A number below 10^k has at most k decimal digits. */
  lemma {:induction false} ShowNatLength(n: nat, k: nat)
    requires 1 <= k && n < Pow10(k)
    ensures |ShowNat(n)| <= k
  {
    if n >= 10 {
      assert k >= 2;
      ShowNatLength(n / 10, k - 1);
    }
  }

  /** The decimal rendering of `n` is a valid street number exactly when 1 <= n <= 99999. */
  lemma StreetNumberRange(n: nat)
    ensures ValidateStreetNumber(ShowNat(n)).valid <==> 1 <= n <= 99999
  {
    KeepAll(ShowNat(n), DigitClass);
    ShowNatValue(n);
    if n <= 99999 {
      assert Pow10(5) == 100000;
      ShowNatLength(n, 5);
    }
  }

  /** A street number with more digits than `int()` converts is reported as badly formatted, whatever its value. */
  lemma StreetNumberTooLong(number: string)
    requires |Keep(number, DigitClass)| > MaxIntDigits
    ensures ValidateStreetNumber(number) == Verdict(false, "Invalid street number format: " + number)
  {
  }

  /** Letters and other non-digits around or between the digits do not change the verdict. */
  lemma StreetNumberIgnoresNoise(a: string, c: char, b: string)
    requires !IsDigit(c)
    ensures ValidateStreetNumber(a + [c] + b).valid == ValidateStreetNumber(a + b).valid
  {
    assert [c][1..] == "";
    assert Keep([c], DigitClass) == "";
    KeepConcat(a + [c], b, DigitClass);
    KeepConcat(a, [c], DigitClass);
    KeepConcat(a, b, DigitClass);
    assert Keep(a, DigitClass) + "" == Keep(a, DigitClass);
    assert Keep(a + [c] + b, DigitClass) == Keep(a + b, DigitClass);
  }

  // ---------------------------------------------------------------------------
  // Cities
  // ---------------------------------------------------------------------------

  /** `[A-Za-z\s\-']` */
  predicate IsCityChar(c: char) {
    IsLetter(c) || IsSpace(c) || c == '-' || c == '\''
  }

  predicate AllCityChars(s: string) {
    forall i :: 0 <= i < |s| ==> IsCityChar(s[i])
  }

  function ValidateCity(city: string): (r: Verdict)
    ensures r.valid ==> r == Pass
    ensures r.valid <==> city != "" && 2 <= |Strip(city)| <= 50 && AllCityChars(Strip(city))
    ensures city == "" ==> r.error == "City is missing"
    ensures city != "" && |Strip(city)| < 2 ==>
      r.error == "City name too short: " + city + ". Must be at least 2 characters"
    ensures |Strip(city)| > 50 ==>
      r.error == "City name too long: " + city + ". Must be 50 characters or less"
    ensures 2 <= |Strip(city)| <= 50 && !r.valid ==>
      r.error == "City name contains invalid characters: " + city
        + ". Only letters, spaces, hyphens, and apostrophes allowed"
  {
    if city == "" then Verdict(false, "City is missing")
    else
      var clean := Strip(city);
      if |clean| < 2 then Verdict(false, "City name too short: " + city + ". Must be at least 2 characters")
      else if |clean| > 50 then Verdict(false, "City name too long: " + city + ". Must be 50 characters or less")
      else if !AllCityChars(clean) then
        Verdict(false, "City name contains invalid characters: " + city
          + ". Only letters, spaces, hyphens, and apostrophes allowed")
      else Pass
  }

  lemma UpperCityChar(c: char)
    ensures IsCityChar(UpperChar(c)) == IsCityChar(c)
  {
  }

  /** Upper-casing a city never changes its verdict. */
  lemma CityCaseInsensitive(city: string)
    ensures ValidateCity(Upper(city)).valid == ValidateCity(city).valid
  {
    StripUpper(city);
    var s := Strip(city);
    assert AllCityChars(Upper(s)) == AllCityChars(s) by {
      forall i | 0 <= i < |s|
        ensures IsCityChar(Upper(s)[i]) == IsCityChar(s[i])
      {
        UpperCityChar(s[i]);
      }
    }
  }
}
