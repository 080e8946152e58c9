/**
 Parsing (src/parser.py): the call into the statistical tagger, the
 confidence given to its output, the fallback rewrites tried when the tagger
 reports a repeated label, the mapping of tagger labels to the pipeline's field
 names, and the rewrites applied to an address before it is parsed.

 The tagger itself is not modelled: `parse_address` takes it as a parameter.
 */
module Parser {
  import opened Outcomes
  import opened Text
  import opened Fields
  import opened Patterns

  // ---------------------------------------------------------------------------
  // The tagger and parse results
  // ---------------------------------------------------------------------------

  /** What one call of the tagger ends in: labelled components, or one of its two failure kinds. */
  datatype TagOutcome =
    | Tagged(labels: Labels, addressType: string)
    | RepeatedLabel(message: string)   // the tagger's `RepeatedLabelError`
    | TagFailed(message: string)       // any other exception

  type Tagger = string -> TagOutcome

  /**
   The dictionary `parse_address` returns. `addressType` is absent on every
   error path (the key is missing there); `strategy` is present only when a
   fallback rewrite succeeded.
   */
  datatype ParseResult = ParseResult(
    original: string,
    parsed: Labels,
    addressType: Option<string>,
    confidence: real,
    error: Option<string>,
    strategy: Option<string>)

  /** The shape of every error result. */
  function Failure(original: string, error: string): (r: ParseResult)
    ensures r.error == Some(error) && r.parsed == map[] && r.confidence == 0.0
  {
    ParseResult(original, map[], None, 0.0, Some(error), None)
  }

  const InvalidInput := "Invalid input: empty or non-string address"

  // ---------------------------------------------------------------------------
  // Parsing confidence
  // ---------------------------------------------------------------------------

  const RequiredLabels: seq<string> := ["AddressNumber", "StreetName", "PlaceName", "StateName"]
  const OptionalLabels: seq<string> := ["ZipCode", "StreetNamePostModifier"]

  /** How many of `keys` label a component (key presence only). */
  function CountKeys(labels: Labels, keys: seq<string>): (n: nat)
    ensures n <= |keys|
  {
    if |keys| == 0 then 0
    else (if keys[0] in labels then 1 else 0) + CountKeys(labels, keys[1..])
  }

  /**
   `_calculate_parsing_confidence`: 50, plus 30 scaled by the share of required
   labels, plus 20 scaled by the share of optional ones, plus 10 for a PO box
   with a place name, capped at 100.
   */
  function ParsingConfidence(labels: Labels, addressType: string): (c: real)
    ensures |labels| == 0 ==> c == 0.0
    ensures |labels| > 0 ==> 50.0 <= c <= 100.0
  {
    if |labels| == 0 then 0.0
    else
      var required := CountKeys(labels, RequiredLabels) as real;
      var optional := CountKeys(labels, OptionalLabels) as real;
      var bonus := if addressType == "PO Box" && "POBox" in labels && "PlaceName" in labels then 10.0 else 0.0;
      var score := 50.0 + (required / 4.0) * 30.0 + (optional / 2.0) * 20.0 + bonus;
      if score < 100.0 then score else 100.0
  }

  lemma {:induction false} CountKeysGrows(labels: Labels, k: string, v: string, keys: seq<string>)
    ensures CountKeys(labels, keys) <= CountKeys(labels[k := v], keys)
    decreases |keys|
  {
    if |keys| > 0 {
      CountKeysGrows(labels, k, v, keys[1..]);
    }
  }

  /** Tagging one more component never lowers the confidence. */
  lemma ParsingConfidenceMonotone(labels: Labels, k: string, v: string, addressType: string)
    ensures ParsingConfidence(labels, addressType) <= ParsingConfidence(labels[k := v], addressType)
  {
    CountKeysGrows(labels, k, v, RequiredLabels);
    CountKeysGrows(labels, k, v, OptionalLabels);
  }

  /** A street address with all four required labels and a ZIP code, but no post-modifier, scores 90. */
  lemma FullStreetAddressConfidence(labels: Labels, addressType: string)
    requires forall k :: k in RequiredLabels ==> k in labels
    requires "ZipCode" in labels && "StreetNamePostModifier" !in labels
    requires addressType != "PO Box"
    ensures ParsingConfidence(labels, addressType) == 90.0
  {
    assert CountKeys(labels, RequiredLabels[3..]) == 1;
    assert CountKeys(labels, RequiredLabels[2..]) == 2;
    assert CountKeys(labels, RequiredLabels[1..]) == 3;
    assert CountKeys(labels, OptionalLabels[1..]) == 0;
  }

  // ---------------------------------------------------------------------------
  // Fallback rewrites after a repeated label
  // ---------------------------------------------------------------------------

  /** `\b(AND|&)\b` */
  function AndPattern(): (p: Pattern)
    ensures Consuming(p)
  {
    var p := [[Boundary, Lit('A'), Lit('N'), Lit('D'), Boundary], [Boundary, Lit('&'), Boundary]];
    assert p[0][1].Lit? && p[1][1].Lit?;
    p
  }

  /** `\s*,\s*` */
  function CommaPattern(): (p: Pattern)
    ensures Consuming(p)
  {
    var p := [[Spaces, Lit(','), Spaces]];
    assert p[0][1].Lit?;
    p
  }

  /** `addr.split(',')[0] if ',' in addr else addr`: everything before the first comma. */
  function BeforeFirstComma(addr: string): (r: string)
    ensures |r| <= |addr| && r == addr[..|r|]
    ensures ',' !in r
    ensures |r| < |addr| ==> addr[|r|] == ','
  {
    if |addr| == 0 || addr[0] == ',' then ""
    else [addr[0]] + BeforeFirstComma(addr[1..])
  }

  const StrategyCount := 3

  /** The i-th rewrite (0-based): drop AND and `&`, keep the part before the first comma, tidy commas. */
  function Strategy(i: nat, addr: string): string
    requires i < StrategyCount
  {
    if i == 0 then Sub(AndPattern(), "", addr)
    else if i == 1 then BeforeFirstComma(addr)
    else Sub(CommaPattern(), ", ", addr)
  }

  function StrategyName(i: nat): string
    requires i < StrategyCount
  {
    if i == 0 then "alternative_1" else if i == 1 then "alternative_2" else "alternative_3"
  }

  /** Rewrites `i`, `i + 1`, ... are tagged in turn; the first one the tagger labels wins. */
  function TryStrategies(cleaned: string, original: string, message: string, tag: Tagger, i: nat): (r: ParseResult)
    requires i <= StrategyCount
    ensures r.error.None? <==> exists k :: i <= k < StrategyCount && tag(Strategy(k, cleaned)).Tagged?
    ensures r.error.Some? ==> r == Failure(original, "Could not parse address: " + message)
    ensures forall k :: i <= k < StrategyCount ==>
      (r.strategy == Some(StrategyName(k)) <==>
        tag(Strategy(k, cleaned)).Tagged? && forall j :: i <= j < k ==> !tag(Strategy(j, cleaned)).Tagged?)
    decreases StrategyCount - i
  {
    if i == StrategyCount then Failure(original, "Could not parse address: " + message)
    else
      match tag(Strategy(i, cleaned))
      case Tagged(labels, addressType) =>
        ParseResult(original, labels, Some(addressType), ParsingConfidence(labels, addressType) * 0.8,
          None, Some(StrategyName(i)))
      case _ => TryStrategies(cleaned, original, message, tag, i + 1)
  }

  /**
   `_handle_repeated_label_error`. Its attempts sit inside a handler for
   unexpected exceptions; the rewrites themselves cannot fail, so that
   handler is unreachable here.
   */
  function HandleRepeatedLabel(cleaned: string, original: string, message: string, tag: Tagger): (r: ParseResult)
    ensures r.original == original
    ensures r.error.None? <==> r.strategy.Some?
    ensures r.error.Some? ==> r == Failure(original, "Could not parse address: " + message)
    ensures r.error.None? ==> r.addressType.Some? && r.confidence == ParsingConfidence(r.parsed, r.addressType.value) * 0.8
    ensures forall k :: 0 <= k < StrategyCount ==>
      (r.strategy == Some(StrategyName(k)) <==>
        tag(Strategy(k, cleaned)).Tagged? && forall j :: 0 <= j < k ==> !tag(Strategy(j, cleaned)).Tagged?)
  {
    TryStrategiesShape(cleaned, original, message, tag, 0);
    TryStrategies(cleaned, original, message, tag, 0)
  }

  lemma {:induction false} TryStrategiesShape(cleaned: string, original: string, message: string, tag: Tagger, i: nat)
    requires i <= StrategyCount
    ensures var r := TryStrategies(cleaned, original, message, tag, i);
      r.original == original && (r.error.None? <==> r.strategy.Some?) &&
      (r.error.None? ==> r.addressType.Some? && r.confidence == ParsingConfidence(r.parsed, r.addressType.value) * 0.8)
    decreases StrategyCount - i
  {
    if i < StrategyCount && !tag(Strategy(i, cleaned)).Tagged? {
      TryStrategiesShape(cleaned, original, message, tag, i + 1);
    }
  }

  /** The second rewrite keeps the text before the first comma, so its result has no comma. */
  lemma SecondStrategyDropsCommas(addr: string)
    ensures ',' !in Strategy(1, addr)
    ensures ',' !in addr ==> Strategy(1, addr) == addr
  {
    if ',' !in addr {
      assert forall i :: 0 <= i < |addr| ==> addr[i] != ',';
    }
  }

  // ---------------------------------------------------------------------------
  // parse_address
  // ---------------------------------------------------------------------------

  /** `parse_address`: clean the text, tag it, and fall back to the rewrites on a repeated label. */
  function ParseAddress(raw: string, tag: Tagger): (r: ParseResult)
    ensures raw == "" ==> r == Failure("", InvalidInput)
    ensures r.original == raw
    ensures r.error.Some? ==> r.parsed == map[] && r.confidence == 0.0 && r.addressType == None
    ensures r.error.None? ==> r.addressType.Some? && 0.0 <= r.confidence <= 100.0
    ensures raw != "" && tag(CleanString(raw)).TagFailed? ==>
      r == Failure(raw, "Parsing error: " + tag(CleanString(raw)).message)
    ensures raw != "" && tag(CleanString(raw)).Tagged? ==>
      r.parsed == tag(CleanString(raw)).labels && r.strategy == None &&
      r.addressType == Some(tag(CleanString(raw)).addressType) &&
      r.confidence == ParsingConfidence(r.parsed, r.addressType.value)
  {
    if raw == "" then Failure("", InvalidInput)
    else
      var cleaned := CleanString(raw);
      match tag(cleaned)
      case Tagged(labels, addressType) =>
        ParseResult(raw, labels, Some(addressType), ParsingConfidence(labels, addressType), None, None)
      case RepeatedLabel(message) => HandleRepeatedLabel(cleaned, raw, message, tag)
      case TagFailed(message) => Failure(raw, "Parsing error: " + message)
  }

  lemma {:induction false} TryStrategiesOriginal(cleaned: string, a: string, b: string, message: string, tag: Tagger, i: nat)
    requires i <= StrategyCount
    ensures TryStrategies(cleaned, a, message, tag, i) == TryStrategies(cleaned, b, message, tag, i).(original := a)
    decreases StrategyCount - i
  {
    if i < StrategyCount && !tag(Strategy(i, cleaned)).Tagged? {
      TryStrategiesOriginal(cleaned, a, b, message, tag, i + 1);
    }
  }

  /** Only the cleaned text reaches the tagger: inputs that clean alike parse alike. */
  lemma ParseSeesOnlyCleanedText(a: string, b: string, tag: Tagger)
    requires a != "" && b != "" && CleanString(a) == CleanString(b)
    ensures ParseAddress(a, tag) == ParseAddress(b, tag).(original := a)
  {
    match tag(CleanString(a))
    case RepeatedLabel(message) => TryStrategiesOriginal(CleanString(a), a, b, message, tag, 0);
    case _ =>
  }

  /** Cleaning before parsing changes nothing but the recorded original. */
  lemma ParseOfCleaned(raw: string, tag: Tagger)
    requires CleanString(raw) != ""
    ensures ParseAddress(CleanString(raw), tag) == ParseAddress(raw, tag).(original := CleanString(raw))
  {
    CleanStringIdempotent(raw);
    ParseSeesOnlyCleanedText(CleanString(raw), raw, tag);
  }

  // ---------------------------------------------------------------------------
  // normalize_components
  // ---------------------------------------------------------------------------

  /** The value of a label, when it is a key and its value is truthy. */
  function Label(parsed: Labels, name: string): (o: Option<string>)
    ensures o.Some? <==> Present(parsed, name)
    ensures o.Some? ==> o.value == parsed[name]
  {
    if Present(parsed, name) then Some(parsed[name]) else None
  }

  /** The value stored under `field`, if any. */
  function Lookup(d: Components, field: Field): (o: Option<string>)
    ensures o.Some? <==> field in d
    ensures o.Some? ==> o.value == d[field]
  {
    if field in d then Some(d[field]) else None
  }

  function FirstOf(a: Option<string>, b: Option<string>): Option<string> {
    if a.Some? then a else b
  }

  /**
   How an entry of the mapping loop writes its field: an ordinary label and
   `USPSBoxID` always, `USPSBoxType` only while `po_box` is unset.
   */
  datatype Rule = Always | WhenUnset

  /** One entry of the field mapping: a tagger label and the field it fills. */
  datatype Entry = Entry(name: string, field: Field, rule: Rule)

  /**
   The field mapping of `normalize_components`, in its order. Both box labels
   write `po_box`; the box type's own target, `po_box_type`, is never written.
   */
  const FieldMapping: seq<Entry> := [
    Entry("AddressNumber", StreetNumber, Always),
    Entry("StreetName", StreetName, Always),
    Entry("StreetNamePreDirectional", StreetDirectionalPrefix, Always),
    Entry("StreetNamePostDirectional", StreetDirectionalSuffix, Always),
    Entry("StreetNamePostModifier", StreetType, Always),
    Entry("StreetNamePostType", StreetType, Always),
    Entry("OccupancyType", UnitType, Always),
    Entry("OccupancyIdentifier", UnitNumber, Always),
    Entry("PlaceName", City, Always),
    Entry("StateName", State, Always),
    Entry("ZipCode", ZipCode, Always),
    Entry("ZipPlus4", ZipPlus4, Always),
    Entry("POBox", PoBox, Always),
    Entry("USPSBoxID", PoBox, Always),
    Entry("USPSBoxType", PoBox, WhenUnset)]

  /** One iteration: a truthy label stores its cleaned value, unless its rule keeps an existing `po_box`. */
  function MapEntry(parsed: Labels, e: Entry, acc: Components): (r: Components)
    ensures r.Keys == acc.Keys || r.Keys == acc.Keys + {e.field}
  {
    if Present(parsed, e.name) && (e.rule == Always || e.field !in acc) then
      acc[e.field := CleanString(parsed[e.name])]
    else acc
  }

  /** The mapping loop over `entries`, in order, starting from `acc`. */
  function MapEntries(parsed: Labels, entries: seq<Entry>, acc: Components): (r: Components)
    ensures acc.Keys <= r.Keys
    decreases |entries|
  {
    if |entries| == 0 then acc else MapEntries(parsed, entries[1..], MapEntry(parsed, entries[0], acc))
  }

  /** The mapping loop of `normalize_components`, from an empty dictionary. */
  function MapLabels(parsed: Labels): Components {
    MapEntries(parsed, FieldMapping, map[])
  }

  /** What one entry does to the value of a single field. */
  function EntryValue(parsed: Labels, e: Entry, field: Field, v: Option<string>): Option<string> {
    if field == e.field && Present(parsed, e.name) && (e.rule == Always || v.None?) then
      Some(CleanString(parsed[e.name]))
    else v
  }

  /** What a run of entries does to the value of a single field. */
  function EntriesValue(parsed: Labels, entries: seq<Entry>, field: Field, v: Option<string>): Option<string>
    decreases |entries|
  {
    if |entries| == 0 then v else EntriesValue(parsed, entries[1..], field, EntryValue(parsed, entries[0], field, v))
  }

  /** An entry changes at most its own field, and that one only through the field's previous value. */
  lemma MapEntryPointwise(parsed: Labels, e: Entry, acc: Components, field: Field)
    ensures Lookup(MapEntry(parsed, e, acc), field) == EntryValue(parsed, e, field, Lookup(acc, field))
  {
  }

  /** The loop, seen one field at a time. */
  lemma {:induction false} MapEntriesPointwise(parsed: Labels, entries: seq<Entry>, acc: Components, field: Field)
    ensures Lookup(MapEntries(parsed, entries, acc), field) == EntriesValue(parsed, entries, field, Lookup(acc, field))
    decreases |entries|
  {
    if |entries| > 0 {
      MapEntryPointwise(parsed, entries[0], acc, field);
      MapEntriesPointwise(parsed, entries[1..], MapEntry(parsed, entries[0], acc), field);
    }
  }

  lemma {:induction false} EntriesAppend(parsed: Labels, a: seq<Entry>, b: seq<Entry>, field: Field, v: Option<string>)
    ensures EntriesValue(parsed, a + b, field, v) == EntriesValue(parsed, b, field, EntriesValue(parsed, a, field, v))
    decreases |a|
  {
    if |a| > 0 {
      assert (a + b)[1..] == a[1..] + b;
      EntriesAppend(parsed, a[1..], b, field, EntryValue(parsed, a[0], field, v));
    } else {
      assert a + b == b;
    }
  }

  lemma {:induction false} EntriesSkip(parsed: Labels, entries: seq<Entry>, field: Field, v: Option<string>)
    requires forall k :: 0 <= k < |entries| ==> entries[k].field != field
    ensures EntriesValue(parsed, entries, field, v) == v
    decreases |entries|
  {
    if |entries| > 0 {
      EntriesSkip(parsed, entries[1..], field, v);
    }
  }

  /** When only the entries at positions `lo` up to `hi` write `field`, the others can be dropped. */
  lemma OnlyWriters(parsed: Labels, m: seq<Entry>, field: Field, lo: nat, hi: nat)
    requires lo <= hi <= |m|
    requires forall k :: 0 <= k < |m| && !(lo <= k < hi) ==> m[k].field != field
    ensures EntriesValue(parsed, m, field, None) == EntriesValue(parsed, m[lo..hi], field, None)
  {
    assert m == m[..lo] + m[lo..hi] + m[hi..];
    EntriesAppend(parsed, m[..lo] + m[lo..hi], m[hi..], field, None);
    EntriesAppend(parsed, m[..lo], m[lo..hi], field, None);
    assert forall k :: 0 <= k < lo ==> m[..lo][k].field != field;
    EntriesSkip(parsed, m[..lo], field, None);
    assert forall k :: 0 <= k < |m| - hi ==> m[hi..][k].field == m[hi + k].field;
    EntriesSkip(parsed, m[hi..], field, EntriesValue(parsed, m[lo..hi], field, None));
  }

  /** A field with a single writer takes that entry's value. */
  lemma OneWriter(parsed: Labels, m: seq<Entry>, i: nat, field: Field)
    requires i < |m|
    requires forall k :: 0 <= k < |m| && k != i ==> m[k].field != field
    ensures EntriesValue(parsed, m, field, None) == EntryValue(parsed, m[i], field, None)
  {
    OnlyWriters(parsed, m, field, i, i + 1);
    assert m[i..i + 1] == [m[i]];
  }

  function CleanedValue(o: Option<string>): Option<string> {
    match o
    case Some(v) => Some(CleanString(v))
    case None => None
  }

  /** An `Always` entry, on its own field, yields its cleaned label whatever came before. */
  lemma EntryAlways(parsed: Labels, e: Entry, v: Option<string>)
    requires e.rule == Always
    ensures Present(parsed, e.name) ==> EntryValue(parsed, e, e.field, v) == CleanedValue(Label(parsed, e.name))
    ensures !Present(parsed, e.name) ==> EntryValue(parsed, e, e.field, v) == v
  {
  }

  /** The mapping loop of `normalize_components`, seen one field at a time. */
  lemma MapLabelsPointwise(parsed: Labels, field: Field)
    ensures Lookup(MapLabels(parsed), field) == EntriesValue(parsed, FieldMapping, field, None)
  {
    MapEntriesPointwise(parsed, FieldMapping, map[], field);
  }

  /** A field written by a single `Always` entry holds that label's cleaned value, or nothing. */
  lemma MappedByOne(parsed: Labels, m: seq<Entry>, i: nat, field: Field)
    requires i < |m| && m[i].field == field && m[i].rule == Always
    requires forall k :: 0 <= k < |m| && k != i ==> m[k].field != field
    ensures EntriesValue(parsed, m, field, None) == CleanedValue(Label(parsed, m[i].name))
  {
    OneWriter(parsed, m, i, field);
    EntryAlways(parsed, m[i], None);
  }

  /** A field written by two adjacent `Always` entries holds the later truthy label, cleaned. */
  lemma MappedByTwo(parsed: Labels, m: seq<Entry>, i: nat, field: Field)
    requires i + 2 <= |m| && m[i].field == field && m[i + 1].field == field
    requires m[i].rule == Always && m[i + 1].rule == Always
    requires forall k :: 0 <= k < |m| && !(i <= k < i + 2) ==> m[k].field != field
    ensures EntriesValue(parsed, m, field, None)
         == CleanedValue(FirstOf(Label(parsed, m[i + 1].name), Label(parsed, m[i].name)))
  {
    OnlyWriters(parsed, m, field, i, i + 2);
    assert m[i..i + 2] == [m[i]] + [m[i + 1]];
    EntriesAppend(parsed, [m[i]], [m[i + 1]], field, None);
    EntryAlways(parsed, m[i], None);
    EntryAlways(parsed, m[i + 1], EntryValue(parsed, m[i], field, None));
  }

  /**
   A field written by two adjacent `Always` entries and then a `WhenUnset`
   one: the later truthy `Always` label, else the last label, cleaned.
   */
  lemma MappedByThree(parsed: Labels, m: seq<Entry>, i: nat, field: Field)
    requires i + 3 <= |m| && m[i].field == field && m[i + 1].field == field && m[i + 2].field == field
    requires m[i].rule == Always && m[i + 1].rule == Always && m[i + 2].rule == WhenUnset
    requires forall k :: 0 <= k < |m| && !(i <= k < i + 3) ==> m[k].field != field
    ensures EntriesValue(parsed, m, field, None)
         == CleanedValue(FirstOf(Label(parsed, m[i + 1].name), FirstOf(Label(parsed, m[i].name), Label(parsed, m[i + 2].name))))
  {
    OnlyWriters(parsed, m, field, i, i + 3);
    assert m[i..i + 3] == [m[i]] + [m[i + 1]] + [m[i + 2]];
    EntriesAppend(parsed, [m[i]] + [m[i + 1]], [m[i + 2]], field, None);
    EntriesAppend(parsed, [m[i]], [m[i + 1]], field, None);
    EntryAlways(parsed, m[i], None);
    EntryAlways(parsed, m[i + 1], EntryValue(parsed, m[i], field, None));
  }

  lemma MapsStreetNumber(parsed: Labels)
    ensures Lookup(MapLabels(parsed), StreetNumber) == CleanedValue(Label(parsed, "AddressNumber"))
  {
    assert EntriesValue(parsed, FieldMapping, StreetNumber, None) == CleanedValue(Label(parsed, "AddressNumber")) by {
      MappedByOne(parsed, FieldMapping, 0, StreetNumber);
    }
    MapLabelsPointwise(parsed, StreetNumber);
  }

  lemma MapsStreetName(parsed: Labels)
    ensures Lookup(MapLabels(parsed), StreetName) == CleanedValue(Label(parsed, "StreetName"))
  {
    assert EntriesValue(parsed, FieldMapping, StreetName, None) == CleanedValue(Label(parsed, "StreetName")) by {
      MappedByOne(parsed, FieldMapping, 1, StreetName);
    }
    MapLabelsPointwise(parsed, StreetName);
  }

  lemma MapsPrefix(parsed: Labels)
    ensures Lookup(MapLabels(parsed), StreetDirectionalPrefix) == CleanedValue(Label(parsed, "StreetNamePreDirectional"))
  {
    assert EntriesValue(parsed, FieldMapping, StreetDirectionalPrefix, None) == CleanedValue(Label(parsed, "StreetNamePreDirectional")) by {
      MappedByOne(parsed, FieldMapping, 2, StreetDirectionalPrefix);
    }
    MapLabelsPointwise(parsed, StreetDirectionalPrefix);
  }

  lemma MapsSuffix(parsed: Labels)
    ensures Lookup(MapLabels(parsed), StreetDirectionalSuffix) == CleanedValue(Label(parsed, "StreetNamePostDirectional"))
  {
    assert EntriesValue(parsed, FieldMapping, StreetDirectionalSuffix, None) == CleanedValue(Label(parsed, "StreetNamePostDirectional")) by {
      MappedByOne(parsed, FieldMapping, 3, StreetDirectionalSuffix);
    }
    MapLabelsPointwise(parsed, StreetDirectionalSuffix);
  }

  lemma MapsUnitType(parsed: Labels)
    ensures Lookup(MapLabels(parsed), UnitType) == CleanedValue(Label(parsed, "OccupancyType"))
  {
    assert EntriesValue(parsed, FieldMapping, UnitType, None) == CleanedValue(Label(parsed, "OccupancyType")) by {
      MappedByOne(parsed, FieldMapping, 6, UnitType);
    }
    MapLabelsPointwise(parsed, UnitType);
  }

  lemma MapsUnitNumber(parsed: Labels)
    ensures Lookup(MapLabels(parsed), UnitNumber) == CleanedValue(Label(parsed, "OccupancyIdentifier"))
  {
    assert EntriesValue(parsed, FieldMapping, UnitNumber, None) == CleanedValue(Label(parsed, "OccupancyIdentifier")) by {
      MappedByOne(parsed, FieldMapping, 7, UnitNumber);
    }
    MapLabelsPointwise(parsed, UnitNumber);
  }

  lemma MapsCity(parsed: Labels)
    ensures Lookup(MapLabels(parsed), City) == CleanedValue(Label(parsed, "PlaceName"))
  {
    assert EntriesValue(parsed, FieldMapping, City, None) == CleanedValue(Label(parsed, "PlaceName")) by {
      MappedByOne(parsed, FieldMapping, 8, City);
    }
    MapLabelsPointwise(parsed, City);
  }

  lemma MapsState(parsed: Labels)
    ensures Lookup(MapLabels(parsed), State) == CleanedValue(Label(parsed, "StateName"))
  {
    assert EntriesValue(parsed, FieldMapping, State, None) == CleanedValue(Label(parsed, "StateName")) by {
      MappedByOne(parsed, FieldMapping, 9, State);
    }
    MapLabelsPointwise(parsed, State);
  }

  lemma MapsZipCode(parsed: Labels)
    ensures Lookup(MapLabels(parsed), ZipCode) == CleanedValue(Label(parsed, "ZipCode"))
  {
    assert EntriesValue(parsed, FieldMapping, ZipCode, None) == CleanedValue(Label(parsed, "ZipCode")) by {
      MappedByOne(parsed, FieldMapping, 10, ZipCode);
    }
    MapLabelsPointwise(parsed, ZipCode);
  }

  lemma MapsZipPlus4(parsed: Labels)
    ensures Lookup(MapLabels(parsed), ZipPlus4) == CleanedValue(Label(parsed, "ZipPlus4"))
  {
    assert EntriesValue(parsed, FieldMapping, ZipPlus4, None) == CleanedValue(Label(parsed, "ZipPlus4")) by {
      MappedByOne(parsed, FieldMapping, 11, ZipPlus4);
    }
    MapLabelsPointwise(parsed, ZipPlus4);
  }

  /** Two labels write the street type; the post-type label, later in the loop, overrides the post-modifier. */
  lemma MapsStreetType(parsed: Labels)
    ensures Lookup(MapLabels(parsed), StreetType)
         == CleanedValue(FirstOf(Label(parsed, "StreetNamePostType"), Label(parsed, "StreetNamePostModifier")))
  {
    assert EntriesValue(parsed, FieldMapping, StreetType, None)
        == CleanedValue(FirstOf(Label(parsed, "StreetNamePostType"), Label(parsed, "StreetNamePostModifier"))) by {
      MappedByTwo(parsed, FieldMapping, 4, StreetType);
    }
    MapLabelsPointwise(parsed, StreetType);
  }

  /**
   Three labels write `po_box`: the box ID overrides the box number, and the
   box type only fills it when neither was truthy.
   */
  lemma MapsPoBox(parsed: Labels)
    ensures Lookup(MapLabels(parsed), PoBox)
         == CleanedValue(FirstOf(Label(parsed, "USPSBoxID"), FirstOf(Label(parsed, "POBox"), Label(parsed, "USPSBoxType"))))
  {
    assert EntriesValue(parsed, FieldMapping, PoBox, None)
        == CleanedValue(FirstOf(Label(parsed, "USPSBoxID"), FirstOf(Label(parsed, "POBox"), Label(parsed, "USPSBoxType")))) by {
      MappedByThree(parsed, FieldMapping, 12, PoBox);
    }
    MapLabelsPointwise(parsed, PoBox);
  }

  /** No label writes `unit`: only the special cases do. */
  lemma MapsNoUnit(parsed: Labels)
    ensures Unit !in MapLabels(parsed)
  {
    assert EntriesValue(parsed, FieldMapping, Unit, None) == None by {
      EntriesSkip(parsed, FieldMapping, Unit, None);
    }
    MapLabelsPointwise(parsed, Unit);
  }

  /** `acc` and `r` agree on every field outside `written`. */
  predicate SameOutside(acc: Components, r: Components, written: set<Field>) {
    forall f :: f !in written ==> Lookup(r, f) == Lookup(acc, f)
  }

  /** The cleaned directionals and street name, in order, for those labels that are keys. */
  function StreetParts(parsed: Labels): (parts: seq<string>)
    ensures parts == [] ==> "StreetName" !in parsed
  {
    (if "StreetNamePreDirectional" in parsed then [CleanString(parsed["StreetNamePreDirectional"])] else [])
    + (if "StreetName" in parsed then [CleanString(parsed["StreetName"])] else [])
    + (if "StreetNamePostDirectional" in parsed then [CleanString(parsed["StreetNamePostDirectional"])] else [])
  }

  /** The first special case: the cleaned directionals and street name, joined, become `street_name`. */
  function JoinStreetName(n: Components, parsed: Labels): (r: Components)
    ensures SameOutside(n, r, {StreetName})
    ensures StreetParts(parsed) == [] ==> Lookup(r, StreetName) == Lookup(n, StreetName)
    ensures StreetParts(parsed) != [] ==> Lookup(r, StreetName) == Some(Join(StreetParts(parsed), " "))
  {
    var parts := StreetParts(parsed);
    if parts != [] then n[StreetName := Join(parts, " ")] else n
  }

  /** The second special case: the raw ZIP code, with the raw ZIP+4 after a hyphen when it is a key. */
  function CombineZip(n: Components, parsed: Labels): (r: Components)
    ensures SameOutside(n, r, {ZipCode})
  {
    if "ZipCode" in parsed && "ZipPlus4" in parsed then n[ZipCode := parsed["ZipCode"] + "-" + parsed["ZipPlus4"]]
    else if "ZipCode" in parsed then n[ZipCode := parsed["ZipCode"]]
    else n
  }

  /** The third special case: the cleaned unit type and the raw unit number become `unit`. */
  function CombineUnit(n: Components, parsed: Labels): (r: Components)
    ensures SameOutside(n, r, {Unit})
  {
    if "OccupancyType" in parsed && "OccupancyIdentifier" in parsed then
      n[Unit := CleanString(parsed["OccupancyType"]) + " " + parsed["OccupancyIdentifier"]]
    else if "OccupancyIdentifier" in parsed then n[Unit := parsed["OccupancyIdentifier"]]
    else n
  }

  /** `_normalize_special_cases`: the three cases in order; they test key presence, not truthiness. */
  function NormalizeSpecialCases(n: Components, parsed: Labels): (r: Components)
    ensures SameOutside(n, r, {StreetName, ZipCode, Unit})
  {
    CombineUnit(CombineZip(JoinStreetName(n, parsed), parsed), parsed)
  }

  function NormalizeComponents(parsed: Labels): (n: Components)
    ensures |parsed| == 0 ==> n == map[]
    ensures |parsed| > 0 ==> SameOutside(MapLabels(parsed), n, {StreetName, ZipCode, Unit})
  {
    if |parsed| == 0 then map[] else NormalizeSpecialCases(MapLabels(parsed), parsed)
  }

  /** The special cases, on any dictionary whose `street_name` is unset when no street part is a key. */
  lemma SpecialStreetName(n: Components, parsed: Labels)
    requires StreetParts(parsed) == [] ==> StreetName !in n
    ensures Lookup(NormalizeSpecialCases(n, parsed), StreetName)
         == if StreetParts(parsed) != [] then Some(Join(StreetParts(parsed), " ")) else None
  {
    var a := JoinStreetName(n, parsed);
    assert Lookup(NormalizeSpecialCases(n, parsed), StreetName) == Lookup(a, StreetName);
  }

  /** The special cases, on any dictionary whose `zip_code` is unset when the ZIP code is not a key. */
  lemma SpecialZipCode(n: Components, parsed: Labels)
    requires "ZipCode" !in parsed ==> ZipCode !in n
    ensures Lookup(NormalizeSpecialCases(n, parsed), ZipCode)
         == if "ZipCode" !in parsed then None
            else if "ZipPlus4" in parsed then Some(parsed["ZipCode"] + "-" + parsed["ZipPlus4"])
            else Some(parsed["ZipCode"])
  {
    var b := CombineZip(JoinStreetName(n, parsed), parsed);
    assert Lookup(NormalizeSpecialCases(n, parsed), ZipCode) == Lookup(b, ZipCode);
  }

  /** The special cases, on any dictionary without `unit`. */
  lemma SpecialUnit(n: Components, parsed: Labels)
    requires Unit !in n
    ensures Lookup(NormalizeSpecialCases(n, parsed), Unit)
         == if "OccupancyIdentifier" !in parsed then None
            else if "OccupancyType" in parsed then
              Some(CleanString(parsed["OccupancyType"]) + " " + parsed["OccupancyIdentifier"])
            else Some(parsed["OccupancyIdentifier"])
  {
    var b := CombineZip(JoinStreetName(n, parsed), parsed);
    assert Lookup(b, Unit) == None;
  }

  /**
   `street_name` after normalization: the cleaned directionals and street name
   joined by spaces, when any of the three is a key; nothing otherwise.
   */
  lemma NormalizeStreetName(parsed: Labels)
    requires |parsed| > 0
    ensures Lookup(NormalizeComponents(parsed), StreetName)
         == if StreetParts(parsed) != [] then Some(Join(StreetParts(parsed), " ")) else None
  {
    MapsStreetName(parsed);
    SpecialStreetName(MapLabels(parsed), parsed);
  }

  /**
   `zip_code` after normalization: the raw ZIP code, followed by a hyphen and
   the raw ZIP+4 when that is a key; nothing when the ZIP code is not a key.
   */
  lemma NormalizeZipCode(parsed: Labels)
    requires |parsed| > 0
    ensures Lookup(NormalizeComponents(parsed), ZipCode)
         == if "ZipCode" !in parsed then None
            else if "ZipPlus4" in parsed then Some(parsed["ZipCode"] + "-" + parsed["ZipPlus4"])
            else Some(parsed["ZipCode"])
  {
    MapsZipCode(parsed);
    SpecialZipCode(MapLabels(parsed), parsed);
  }

  /**
   `unit` after normalization: the cleaned unit type, a space and the raw unit
   number when both are keys; the raw number alone; nothing without a number.
   */
  lemma NormalizeUnit(parsed: Labels)
    requires |parsed| > 0
    ensures Lookup(NormalizeComponents(parsed), Unit)
         == if "OccupancyIdentifier" !in parsed then None
            else if "OccupancyType" in parsed then
              Some(CleanString(parsed["OccupancyType"]) + " " + parsed["OccupancyIdentifier"])
            else Some(parsed["OccupancyIdentifier"])
  {
    MapsNoUnit(parsed);
    SpecialUnit(MapLabels(parsed), parsed);
  }

  // ---------------------------------------------------------------------------
  // handle_edge_cases
  // ---------------------------------------------------------------------------

  /** The whole-word rewrites, applied in this order. */
  const WordRewrites: seq<(string, string)> := [
    ("STREET", "ST"), ("AVENUE", "AVE"), ("BOULEVARD", "BLVD"), ("ROAD", "RD"),
    ("DRIVE", "DR"), ("LANE", "LN"), ("COURT", "CT"), ("PLACE", "PL"),
    ("NORTH", "N"), ("SOUTH", "S"), ("EAST", "E"), ("WEST", "W"),
    ("APARTMENT", "APT"), ("SUITE", "STE"), ("UNIT", "UNIT"), ("FLOOR", "FL")]

  predicate UpperRules(rules: seq<(string, string)>) {
    forall k :: 0 <= k < |rules| ==> IsUpperWord(rules[k].0) && NoLower(rules[k].1)
  }

  lemma UpperRulesAppend(a: seq<(string, string)>, b: seq<(string, string)>)
    requires UpperRules(a) && UpperRules(b)
    ensures UpperRules(a + b)
  {
    forall k | 0 <= k < |a + b|
      ensures IsUpperWord((a + b)[k].0) && NoLower((a + b)[k].1)
    {
      if k >= |a| {
        assert (a + b)[k] == b[k - |a|];
      }
    }
  }

  lemma StreetRewritesUpper()
    ensures UpperRules(WordRewrites[..4])
  {
  }

  lemma MoreStreetRewritesUpper()
    ensures UpperRules(WordRewrites[4..8])
  {
  }

  lemma DirectionRewritesUpper()
    ensures UpperRules(WordRewrites[8..12])
  {
  }

  lemma UnitRewritesUpper()
    ensures UpperRules(WordRewrites[12..])
  {
  }

  lemma WordRewritesUpper()
    ensures UpperRules(WordRewrites)
  {
    var r := WordRewrites;
    StreetRewritesUpper();
    MoreStreetRewritesUpper();
    DirectionRewritesUpper();
    UnitRewritesUpper();
    UpperRulesAppend(r[..4], r[4..8]);
    UpperRulesAppend(r[8..12], r[12..]);
    assert r[..4] + r[4..8] == r[..8];
    assert r[8..12] + r[12..] == r[8..];
    UpperRulesAppend(r[..8], r[8..]);
    assert r[..8] + r[8..] == r;
  }

  /** `re.sub(r'\bWORD\b', repl, s, flags=re.IGNORECASE)` for each rule in turn. */
  function RewriteWords(s: string, rules: seq<(string, string)>): string
    requires UpperRules(rules)
    decreases |rules|
  {
    if |rules| == 0 then s
    else RewriteWords(Sub(WordPattern(rules[0].0), rules[0].1, s), rules[1..])
  }

  /** Regex-free reference: each rule replaces the maximal word runs equal to its word. */
  function ReplaceRuns(s: string, rules: seq<(string, string)>): string
    decreases |rules|
  {
    if |rules| == 0 then s
    else ReplaceRuns(ReplaceWordRuns(s, rules[0].0, rules[0].1), rules[1..])
  }

  lemma {:induction false} RewriteWordsIsReplaceRuns(s: string, rules: seq<(string, string)>)
    requires UpperRules(rules)
    ensures RewriteWords(s, rules) == ReplaceRuns(s, rules)
    decreases |rules|
  {
    if |rules| > 0 {
      WordSubReplacesRuns(rules[0].0, rules[0].1, s);
      RewriteWordsIsReplaceRuns(ReplaceWordRuns(s, rules[0].0, rules[0].1), rules[1..]);
    }
  }

  lemma {:induction false} RewriteWordsNoLower(s: string, rules: seq<(string, string)>)
    requires UpperRules(rules) && NoLower(s)
    ensures NoLower(RewriteWords(s, rules))
    decreases |rules|
  {
    if |rules| > 0 {
      SubFromNoLower(WordPattern(rules[0].0), rules[0].1, s, false);
      RewriteWordsNoLower(Sub(WordPattern(rules[0].0), rules[0].1, s), rules[1..]);
    }
  }

  /** `BOX\b`. */
  function BoxTail(): seq<Elem> {
    [Lit('B'), Lit('O'), Lit('X'), Boundary]
  }

  /** `\s*BOX\b`. */
  function GapBox(): seq<Elem> {
    [Spaces] + BoxTail()
  }

  /** `\.?\s*BOX\b`. */
  function DotGapBox(): seq<Elem> {
    [Opt('.')] + GapBox()
  }

  /** `O\.?\s*BOX\b`. */
  function ODotGapBox(): seq<Elem> {
    [Lit('O')] + DotGapBox()
  }

  /** `\.?O\.?\s*BOX\b`. */
  function DotODotGapBox(): seq<Elem> {
    [Opt('.')] + ODotGapBox()
  }

  /** `\bP\.?O\.?\s*BOX\b`. */
  function DottedPoBox(): (p: Pattern)
    ensures Consuming(p) && OpensWith(p, 'P')
  {
    var es := [Boundary] + ([Lit('P')] + DotODotGapBox());
    assert es[1].Lit?;
    [es]
  }

  /** `\bPOST\s*OFFICE\s*BOX\b`. */
  function PostOfficePoBox(): (p: Pattern)
    ensures Consuming(p) && OpensWith(p, 'P')
  {
    var es := [Boundary] + (Lits("POST") + ([Spaces] + (Lits("OFFICE") + GapBox())));
    assert es[1] == Lits("POST")[0];
    [es]
  }

  /** `\bPO\s*BOX\b`. */
  function PlainPoBox(): (p: Pattern)
    ensures Consuming(p) && OpensWith(p, 'P')
  {
    var es := [Boundary] + (Lits("PO") + GapBox());
    assert es[1] == Lits("PO")[0];
    [es]
  }

  /** The three PO-box patterns of `handle_edge_cases`, in the order they are applied. */
  function PoBoxPatterns(): (ps: seq<Pattern>)
    ensures |ps| == 3 && ps[0] == DottedPoBox() && ps[1] == PostOfficePoBox() && ps[2] == PlainPoBox()
    ensures forall k :: 0 <= k < |ps| ==> Consuming(ps[k])
  {
    [DottedPoBox(), PostOfficePoBox(), PlainPoBox()]
  }

  /** What `\.?` can match: a dot or nothing. */
  predicate OptionalDot(d: string) {
    |d| <= 1 && (|d| == 1 ==> d[0] == '.')
  }

  /** What `\bP\.?O\.?\s*BOX\b` matches in upper-case text: "PO BOX", "P.O. BOX", "P.O.BOX", "PO  BOX", … */
  function DottedSpelling(d1: string, d2: string, gap: string): string {
    "P" + (d1 + ("O" + (d2 + (gap + "BOX"))))
  }

  /** What `\bPOST\s*OFFICE\s*BOX\b` matches in upper-case text. */
  function PostOfficeSpelling(gap1: string, gap2: string): string {
    "POST" + (gap1 + ("OFFICE" + (gap2 + "BOX")))
  }

  /** `BOX\b` matches "BOX" at the end of a word. */
  lemma MatchBox(t: string, prevWord: bool)
    requires StartsOutsideWord(t)
    ensures Match(BoxTail(), "BOX" + t, prevWord) == Some(3)
  {
    var s := "BOX" + t;
    assert BoxTail() == Lits("BOX") + [Boundary];
    LitsMatch("BOX", [Boundary], s, prevWord);
    assert s[..3] == "BOX";
    UpperOfNoLower("BOX");
    assert s[3..] == t;
    BoundaryStep([], t, true);
    assert [Boundary] + [] == [Boundary];
  }

  /** `\s*BOX\b` takes the whole gap. */
  lemma MatchGapBox(gap: string, t: string, prevWord: bool)
    requires AllSpace(gap) && StartsOutsideWord(t)
    ensures Match(GapBox(), gap + ("BOX" + t), prevWord) == Some(|gap| + 3)
  {
    var s := gap + ("BOX" + t);
    SpaceLenPrefix(gap, "BOX" + t);
    assert s[|gap|..] == "BOX" + t;
    MatchBox(t, if |gap| > 0 then false else prevWord);
    SpacesStep(BoxTail(), s, prevWord);
  }

  /** `\.?` ahead of `rest`, with the dot present or absent. */
  lemma MatchDotThen(d: string, rest: seq<Elem>, x: string, prevWord: bool, n: nat)
    requires OptionalDot(d)
    requires Match(rest, x, false) == Some(n) && Match(rest, x, prevWord) == Some(n)
    requires |x| == 0 || UpperChar(x[0]) != '.'
    ensures Match([Opt('.')] + rest, d + x, prevWord) == Some(|d| + n)
  {
    if |d| == 1 {
      assert d + x == ['.'] + x;
      OptTaken('.', rest, x, prevWord);
    } else {
      assert d + x == x;
      OptSkipped('.', rest, x, prevWord);
    }
  }

  /** `O\.?\s*BOX\b`, whatever precedes it. */
  lemma MatchODotGapBox(d: string, x: string, prevWord: bool, n: nat)
    requires OptionalDot(d)
    requires Match(GapBox(), x, false) == Some(n) && Match(GapBox(), x, true) == Some(n)
    requires |x| == 0 || UpperChar(x[0]) != '.'
    ensures Match(ODotGapBox(), ['O'] + (d + x), prevWord) == Some(1 + |d| + n)
  {
    MatchDotGapBox(d, x, n);
    MatchOThen(d + x, prevWord);
  }

  /** `\.?\s*BOX\b` after a word character. */
  lemma MatchDotGapBox(d: string, x: string, n: nat)
    requires OptionalDot(d)
    requires Match(GapBox(), x, false) == Some(n) && Match(GapBox(), x, true) == Some(n)
    requires |x| == 0 || UpperChar(x[0]) != '.'
    ensures Match(DotGapBox(), d + x, true) == Some(|d| + n)
  {
    MatchDotThen(d, GapBox(), x, true, n);
    assert DotGapBox() == [Opt('.')] + GapBox();
  }

  /** `O` ahead of `\.?\s*BOX\b`. */
  lemma MatchOThen(y: string, prevWord: bool)
    requires Match(DotGapBox(), y, true).Some?
    ensures Match(ODotGapBox(), ['O'] + y, prevWord) == Shift(1, Match(DotGapBox(), y, true))
  {
    assert ODotGapBox() == [Lit('O')] + DotGapBox();
    LitStep('O', DotGapBox(), ['O'] + y, prevWord);
    assert (['O'] + y)[1..] == y;
  }

  lemma DottedSpellingThen(d1: string, d2: string, gap: string, t: string)
    ensures DottedSpelling(d1, d2, gap) + t == ['P'] + (d1 + (['O'] + (d2 + (gap + ("BOX" + t)))))
  {
    Assoc(gap, "BOX", t);
    Assoc(d2, gap + "BOX", t);
    Assoc(['O'], d2 + (gap + "BOX"), t);
    Assoc(d1, "O" + (d2 + (gap + "BOX")), t);
    Assoc(['P'], d1 + ("O" + (d2 + (gap + "BOX"))), t);
  }

  /** `\s*BOX\b` matches the same way whatever precedes it, and a dot cannot open it. */
  lemma MatchGapBoxAfterAny(gap: string, t: string)
    requires AllSpace(gap) && StartsOutsideWord(t)
    ensures Match(GapBox(), gap + ("BOX" + t), false) == Some(|gap| + 3)
    ensures Match(GapBox(), gap + ("BOX" + t), true) == Some(|gap| + 3)
    ensures |gap + ("BOX" + t)| == 0 || UpperChar((gap + ("BOX" + t))[0]) != '.'
  {
    var x := gap + ("BOX" + t);
    MatchGapBox(gap, t, false);
    MatchGapBox(gap, t, true);
    assert x[0] == (if |gap| > 0 then gap[0] else 'B');
  }

  /** `\.?` ahead of `O\.?\s*BOX\b`. */
  lemma MatchDotThenO(d: string, z: string, m: nat)
    requires OptionalDot(d)
    requires Match(ODotGapBox(), ['O'] + z, false) == Some(m) && Match(ODotGapBox(), ['O'] + z, true) == Some(m)
    ensures Match(DotODotGapBox(), d + (['O'] + z), true) == Some(|d| + m)
  {
    MatchDotThen(d, ODotGapBox(), ['O'] + z, true, m);
    assert DotODotGapBox() == [Opt('.')] + ODotGapBox();
  }

  /** `O\.?\s*BOX\b` matches the same way whatever precedes it. */
  lemma MatchODotGapBoxBoth(d: string, x: string, n: nat)
    requires OptionalDot(d)
    requires Match(GapBox(), x, false) == Some(n) && Match(GapBox(), x, true) == Some(n)
    requires |x| == 0 || UpperChar(x[0]) != '.'
    ensures Match(ODotGapBox(), ['O'] + (d + x), false) == Some(1 + |d| + n)
    ensures Match(ODotGapBox(), ['O'] + (d + x), true) == Some(1 + |d| + n)
  {
    MatchODotGapBox(d, x, false, n);
    MatchODotGapBox(d, x, true, n);
  }

  /** `\bP` opens the dotted pattern. */
  lemma MatchDottedAfterP(w: string, t: string, z: string, m: nat)
    requires w + t == ['P'] + z && |w| == 1 + m
    requires Match(DotODotGapBox(), z, true) == Some(m)
    ensures MatchAny(DottedPoBox(), w + t, false) == Some(|w|)
  {
    var s := ['P'] + z;
    assert s[1..] == z;
    LitStep('P', DotODotGapBox(), s, false);
    BoundaryStep([Lit('P')] + DotODotGapBox(), s, false);
  }

  /** The dotted pattern matches a whole dotted spelling that ends a word. */
  lemma MatchDotted(d1: string, d2: string, gap: string, t: string)
    requires OptionalDot(d1) && OptionalDot(d2) && AllSpace(gap) && StartsOutsideWord(t)
    ensures MatchAny(DottedPoBox(), DottedSpelling(d1, d2, gap) + t, false) == Some(|DottedSpelling(d1, d2, gap)|)
  {
    var x := gap + ("BOX" + t);
    var n := |gap| + 3;
    assert Match(ODotGapBox(), ['O'] + (d2 + x), false) == Some(1 + |d2| + n)
      && Match(ODotGapBox(), ['O'] + (d2 + x), true) == Some(1 + |d2| + n)
    by {
      MatchGapBoxAfterAny(gap, t);
      MatchODotGapBoxBoth(d2, x, n);
    }
    var z := d1 + (['O'] + (d2 + x));
    var m := |d1| + (1 + |d2| + n);
    assert Match(DotODotGapBox(), z, true) == Some(m) by {
      MatchDotThenO(d1, d2 + x, 1 + |d2| + n);
    }
    DottedSpellingThen(d1, d2, gap, t);
    MatchDottedAfterP(DottedSpelling(d1, d2, gap), t, z, m);
  }

  /** `\bW1\s*W2\s*BOX\b` for two upper-case words. */
  function TwoWordsBox(w1: string, w2: string): Pattern {
    [[Boundary] + (Lits(w1) + ([Spaces] + (Lits(w2) + GapBox())))]
  }

  /** "W1", a gap, "W2", a gap, "BOX". */
  function TwoWordsBoxSpelling(w1: string, gap1: string, w2: string, gap2: string): string {
    w1 + (gap1 + (w2 + (gap2 + "BOX")))
  }

  lemma TwoWordsBoxSpellingThen(w1: string, gap1: string, w2: string, gap2: string, t: string)
    ensures TwoWordsBoxSpelling(w1, gap1, w2, gap2) + t == w1 + (gap1 + (w2 + (gap2 + ("BOX" + t))))
  {
    Assoc(gap2, "BOX", t);
    Assoc(w2, gap2 + "BOX", t);
    Assoc(gap1, w2 + (gap2 + "BOX"), t);
    Assoc(w1, gap1 + (w2 + (gap2 + "BOX")), t);
  }

  /** A pattern opened by a word boundary matches where its body matches, at the start of a word. */
  lemma MatchAfterBoundary(es: seq<Elem>, w: string, t: string, s: string)
    requires w + t == s && |s| > 0 && IsWordChar(s[0])
    requires Match(es, s, false) == Some(|w|)
    ensures MatchAny([[Boundary] + es], w + t, false) == Some(|w|)
  {
    BoundaryStep(es, s, false);
  }

  /** `\bW1\s*W2\s*BOX\b` matches its whole spelling where the spelling ends a word. */
  lemma MatchTwoWordsBox(w1: string, gap1: string, w2: string, gap2: string, t: string)
    requires |w1| > 0 && NoLower(w1) && IsWordChar(w1[0]) && IsWordChar(w1[|w1| - 1])
    requires |w2| > 0 && NoLower(w2) && IsWordChar(w2[|w2| - 1]) && !IsSpace(w2[0])
    requires AllSpace(gap1) && AllSpace(gap2) && StartsOutsideWord(t)
    ensures MatchAny(TwoWordsBox(w1, w2), TwoWordsBoxSpelling(w1, gap1, w2, gap2) + t, false)
      == Some(|TwoWordsBoxSpelling(w1, gap1, w2, gap2)|)
  {
    var es := Lits(w1) + ([Spaces] + (Lits(w2) + GapBox()));
    var s := w1 + (gap1 + (w2 + (gap2 + ("BOX" + t))));
    var w := TwoWordsBoxSpelling(w1, gap1, w2, gap2);
    assert Match(es, s, false) == Some(|w1| + (|gap1| + (|w2| + (|gap2| + 3)))) by {
      MatchGapBox(gap2, t, true);
      MatchWordsThen(w1, gap1, w2, GapBox(), gap2 + ("BOX" + t), false, |gap2| + 3);
    }
    TwoWordsBoxSpellingThen(w1, gap1, w2, gap2, t);
    assert |w| == |w1| + (|gap1| + (|w2| + (|gap2| + 3)));
    assert s[0] == w1[0];
    MatchAfterBoundary(es, w, t, s);
  }

  /** The post-office pattern matches a whole "POST OFFICE BOX" spelling that ends a word. */
  lemma MatchPostOffice(gap1: string, gap2: string, t: string)
    requires AllSpace(gap1) && AllSpace(gap2) && StartsOutsideWord(t)
    ensures MatchAny(PostOfficePoBox(), PostOfficeSpelling(gap1, gap2) + t, false) == Some(|PostOfficeSpelling(gap1, gap2)|)
  {
    assert NoLower("POST") && IsWordChar("POST"[0]) && IsWordChar("POST"[3]);
    assert NoLower("OFFICE") && IsWordChar("OFFICE"[5]) && !IsSpace("OFFICE"[0]);
    MatchTwoWordsBox("POST", gap1, "OFFICE", gap2, t);
    assert PostOfficePoBox() == TwoWordsBox("POST", "OFFICE");
    assert PostOfficeSpelling(gap1, gap2) == TwoWordsBoxSpelling("POST", gap1, "OFFICE", gap2);
  }

  /** The plain pattern matches "PO BOX" where it ends a word. */
  lemma MatchPlain(t: string)
    requires StartsOutsideWord(t)
    ensures MatchAny(PlainPoBox(), "PO BOX" + t, false) == Some(6)
  {
    var x := " " + ("BOX" + t);
    SingleGapBox(t);
    var s := "PO" + x;
    MatchPlainAfterGap(x);
    assert "PO BOX" + t == s by {
      PlainSpelling();
      RegroupThree("PO", " ", "BOX", t);
    }
    assert s[0] == 'P';
    MatchAfterBoundary(Lits("PO") + GapBox(), "PO BOX", t, s);
    assert PlainPoBox() == [[Boundary] + (Lits("PO") + GapBox())];
  }

  lemma SingleGapBox(t: string)
    requires StartsOutsideWord(t)
    ensures Match(GapBox(), " " + ("BOX" + t), true) == Some(4)
  {
    assert AllSpace(" ");
    MatchGapBox(" ", t, true);
  }

  /** Past its boundary, the plain pattern consumes "PO" and then what its gap-and-"BOX" tail matches. */
  lemma MatchPlainAfterGap(x: string)
    requires Match(GapBox(), x, true) == Some(4)
    ensures Match(Lits("PO") + GapBox(), "PO" + x, false) == Some(6)
  {
    assert NoLower("PO") && IsWordChar("PO"[1]);
    MatchWordThenGapBox("PO", x, 4);
  }

  /** A word followed by text the gap-and-"BOX" tail matches is matched as a whole. */
  lemma MatchWordThenGapBox(w: string, x: string, n: nat)
    requires |w| > 0 && NoLower(w) && IsWordChar(w[|w| - 1])
    requires Match(GapBox(), x, true) == Some(n)
    ensures Match(Lits(w) + GapBox(), w + x, false) == Some(|w| + n)
  {
    MatchLitsThen(w, GapBox(), x, false, n);
  }

  lemma PlainSpelling()
    ensures "PO" + " " + "BOX" == "PO BOX"
  {
  }

  /** Regrouping a three-part spelling followed by the rest of the text. */
  lemma RegroupThree(a: string, b: string, c: string, t: string)
    ensures a + b + c + t == a + (b + (c + t))
  {
    Assoc(a + b, c, t);
    Assoc(a, b, c + t);
  }

  /** The dotted pattern fails on "PO" followed by "S", so it leaves "POST OFFICE BOX" alone. */
  lemma DottedMissesPOS(z: string)
    requires |z| > 0 && z[0] == 'S'
    ensures MatchAny(DottedPoBox(), ['P'] + (['O'] + z), false) == None
  {
    assert Match(DotGapBox(), z, true) == None by {
      assert BoxTail() == [Lit('B')] + [Lit('O'), Lit('X'), Boundary];
      LitMisses('B', [Lit('O'), Lit('X'), Boundary], z, true);
      assert SpaceLen(z) == 0;
      SpacesNoGap(BoxTail(), z, true);
      assert GapBox() == [Spaces] + BoxTail();
      OptSkipped('.', GapBox(), z, true);
      assert DotGapBox() == [Opt('.')] + GapBox();
    }
    assert Match(DotODotGapBox(), ['O'] + z, true) == None by {
      LitThenMisses('O', DotGapBox(), z, true);
      assert ODotGapBox() == [Lit('O')] + DotGapBox();
      OptSkipped('.', ODotGapBox(), ['O'] + z, true);
      assert DotODotGapBox() == [Opt('.')] + ODotGapBox();
    }
    var es := [Lit('P')] + DotODotGapBox();
    var s := ['P'] + (['O'] + z);
    LitThenMisses('P', DotODotGapBox(), ['O'] + z, false);
    BoundaryStep(es, s, false);
    assert DottedPoBox() == [[Boundary] + es];
  }

  lemma LitsPostThen(x: seq<Elem>)
    ensures Lits("POST") + x == [Lit('P')] + ([Lit('O')] + ([Lit('S')] + ([Lit('T')] + x)))
  {
    var l := Lits("POST");
    assert l == [Lit('P'), Lit('O'), Lit('S'), Lit('T')];
  }

  /** The post-office pattern fails on "PO" not followed by "S", so it leaves "PO BOX" alone. */
  lemma PostOfficeMissesPO(z: string)
    requires |z| > 0 && UpperChar(z[0]) != 'S'
    ensures MatchAny(PostOfficePoBox(), ['P'] + (['O'] + z), false) == None
  {
    var rest := [Lit('T')] + ([Spaces] + (Lits("OFFICE") + GapBox()));
    var es := [Lit('P')] + ([Lit('O')] + ([Lit('S')] + rest));
    assert Match(es, ['P'] + (['O'] + z), false) == None by {
      assert Match([Lit('O')] + ([Lit('S')] + rest), ['O'] + z, true) == None by {
        LitMisses('S', rest, z, true);
        LitThenMisses('O', [Lit('S')] + rest, z, true);
      }
      LitThenMisses('P', [Lit('O')] + ([Lit('S')] + rest), ['O'] + z, false);
    }
    BoundaryStep(es, ['P'] + (['O'] + z), false);
    assert PostOfficePoBox() == [[Boundary] + es] by {
      LitsPostThen([Spaces] + (Lits("OFFICE") + GapBox()));
    }
  }

  /** Each PO-box spelling in turn becomes "PO BOX". */
  function FoldPoBoxes(s: string, ps: seq<Pattern>): string
    requires forall k :: 0 <= k < |ps| ==> Consuming(ps[k])
    decreases |ps|
  {
    if |ps| == 0 then s else FoldPoBoxes(Sub(ps[0], "PO BOX", s), ps[1..])
  }

  lemma {:induction false} FoldPoBoxesNoLower(s: string, ps: seq<Pattern>)
    requires forall k :: 0 <= k < |ps| ==> Consuming(ps[k])
    requires NoLower(s)
    ensures NoLower(FoldPoBoxes(s, ps))
    decreases |ps|
  {
    if |ps| > 0 {
      SubFromNoLower(ps[0], "PO BOX", s, false);
      FoldPoBoxesNoLower(Sub(ps[0], "PO BOX", s), ps[1..]);
    }
  }

  /** The sixteen whole-word rewrites of `handle_edge_cases`, in order. */
  function ShortenWords(s: string): (r: string)
    ensures NoLower(s) ==> NoLower(r)
  {
    WordRewritesUpper();
    if NoLower(s) then RewriteWordsNoLower(s, WordRewrites); RewriteWords(s, WordRewrites)
    else RewriteWords(s, WordRewrites)
  }

  // ---------------------------------------------------------------------------
  // The word rewrites on cleaned text, token by token
  // ---------------------------------------------------------------------------

  /** A token the rewrites treat as a unit: one whole word run, or no word character at all. */
  predicate PlainToken(t: string) {
    IsWordRun(t) || forall i :: 0 <= i < |t| ==> !IsWordChar(t[i])
  }

  predicate IsWordRun(t: string) {
    |t| > 0 && forall i :: 0 <= i < |t| ==> IsWordChar(t[i])
  }

  /** Rules whose replacements are themselves whole words, so rewriting keeps tokens plain. */
  predicate WordReplacements(rules: seq<(string, string)>) {
    forall k :: 0 <= k < |rules| ==> IsWordRun(rules[k].1)
  }

  /** One rule applied to one token: a word equal to the rule's word up to case is replaced. */
  function RewriteToken(t: string, w: string, repl: string): string {
    if IsWordRun(t) && Upper(t) == w then repl else t
  }

  /** Every rule, in order, applied to one token. */
  function RewriteTokenAll(t: string, rules: seq<(string, string)>): string
    decreases |rules|
  {
    if |rules| == 0 then t
    else RewriteTokenAll(RewriteToken(t, rules[0].0, rules[0].1), rules[1..])
  }

  function RewriteEach(ws: seq<string>, w: string, repl: string): (vs: seq<string>)
    ensures |vs| == |ws|
  {
    seq(|ws|, k requires 0 <= k < |ws| => RewriteToken(ws[k], w, repl))
  }

  function RewriteEachAll(ws: seq<string>, rules: seq<(string, string)>): (vs: seq<string>)
    ensures |vs| == |ws|
  {
    seq(|ws|, k requires 0 <= k < |ws| => RewriteTokenAll(ws[k], rules))
  }

  lemma {:induction false} WordRunOfRun(t: string, x: string)
    requires forall i :: 0 <= i < |t| ==> IsWordChar(t[i])
    requires |x| == 0 || !IsWordChar(x[0])
    ensures WordRunLen(t + x) == |t|
    decreases |t|
  {
    if |t| > 0 {
      assert (t + x)[1..] == t[1..] + x;
      WordRunOfRun(t[1..], x);
    } else {
      assert t + x == x;
    }
  }

  lemma RunsAfterWord(t: string, x: string, w: string, repl: string)
    requires IsWordRun(t)
    requires |x| == 0 || !IsWordChar(x[0])
    ensures ReplaceWordRuns(t + x, w, repl) == RewriteToken(t, w, repl) + ReplaceWordRuns(x, w, repl)
  {
    WordRunOfRun(t, x);
    assert (t + x)[..|t|] == t;
    assert (t + x)[|t|..] == x;
  }

  lemma {:induction false} RunsAfterNonWord(t: string, x: string, w: string, repl: string)
    requires forall i :: 0 <= i < |t| ==> !IsWordChar(t[i])
    ensures ReplaceWordRuns(t + x, w, repl) == t + ReplaceWordRuns(x, w, repl)
    decreases |t|
  {
    if |t| > 0 {
      assert (t + x)[1..] == t[1..] + x;
      assert (t + x)[0] == t[0];
      RunsAfterNonWord(t[1..], x, w, repl);
      assert t == [t[0]] + t[1..];
    } else {
      assert t + x == x;
    }
  }

  lemma RunsAfterToken(t: string, x: string, w: string, repl: string)
    requires PlainToken(t)
    requires |x| == 0 || !IsWordChar(x[0])
    ensures ReplaceWordRuns(t + x, w, repl) == RewriteToken(t, w, repl) + ReplaceWordRuns(x, w, repl)
  {
    if IsWordRun(t) {
      RunsAfterWord(t, x, w, repl);
    } else {
      RunsAfterNonWord(t, x, w, repl);
    }
  }

  /** One whole-word rewrite of single-spaced tokens rewrites each token on its own. */
  lemma {:induction false} ReplaceWordRunsByTokens(ws: seq<string>, w: string, repl: string)
    requires forall k :: 0 <= k < |ws| ==> PlainToken(ws[k])
    ensures ReplaceWordRuns(Join(ws, " "), w, repl) == Join(RewriteEach(ws, w, repl), " ")
    decreases |ws|
  {
    var vs := RewriteEach(ws, w, repl);
    if |ws| == 1 {
      RunsAfterToken(ws[0], "", w, repl);
      assert ws[0] + "" == ws[0];
    } else if |ws| > 1 {
      var j := Join(ws[1..], " ");
      JoinSpacedHead(ws);
      RunsAfterToken(ws[0], " " + j, w, repl);
      RunsAfterNonWord(" ", j, w, repl);
      ReplaceWordRunsByTokens(ws[1..], w, repl);
      assert RewriteEach(ws[1..], w, repl) == vs[1..];
      JoinSpacedHead(vs);
    }
  }

  lemma JoinSpacedHead(ws: seq<string>)
    requires |ws| > 1
    ensures Join(ws, " ") == ws[0] + (" " + Join(ws[1..], " "))
  {
  }

  lemma RewriteKeepsPlain(t: string, w: string, repl: string)
    requires PlainToken(t) && IsWordRun(repl)
    ensures PlainToken(RewriteToken(t, w, repl))
  {
  }

  /**
   On single-spaced text whose tokens are whole words or free of word characters,
   the rewrites act token by token: each token goes through every rule in order.
   */
  lemma {:induction false} ReplaceRunsByTokens(ws: seq<string>, rules: seq<(string, string)>)
    requires forall k :: 0 <= k < |ws| ==> PlainToken(ws[k])
    requires WordReplacements(rules)
    ensures ReplaceRuns(Join(ws, " "), rules) == Join(RewriteEachAll(ws, rules), " ")
    decreases |rules|
  {
    if |rules| == 0 {
      assert RewriteEachAll(ws, rules) == ws;
    } else {
      var vs := RewriteEach(ws, rules[0].0, rules[0].1);
      ReplaceWordRunsByTokens(ws, rules[0].0, rules[0].1);
      forall k | 0 <= k < |vs|
        ensures PlainToken(vs[k])
      {
        RewriteKeepsPlain(ws[k], rules[0].0, rules[0].1);
      }
      ReplaceRunsByTokens(vs, rules[1..]);
      assert RewriteEachAll(vs, rules[1..]) == RewriteEachAll(ws, rules);
    }
  }

  lemma StreetReplacementsAreWords()
    ensures WordReplacements(WordRewrites[..8])
  {
  }

  lemma OtherReplacementsAreWords()
    ensures WordReplacements(WordRewrites[8..])
  {
  }

  /** Every replacement of the sixteen rewrites is a whole word. */
  lemma WordRewritesReplaceWithWords()
    ensures WordReplacements(WordRewrites)
  {
    StreetReplacementsAreWords();
    OtherReplacementsAreWords();
    forall k | 0 <= k < |WordRewrites|
      ensures IsWordRun(WordRewrites[k].1)
    {
      if k < 8 {
        assert WordRewrites[k] == WordRewrites[..8][k];
      } else {
        assert WordRewrites[k] == WordRewrites[8..][k - 8];
      }
    }
  }

  /** A token matching no rule's word goes through the rules unchanged. */
  lemma {:induction false} RewriteTokenAllMisses(t: string, rules: seq<(string, string)>)
    requires forall k :: 0 <= k < |rules| ==> Upper(t) != rules[k].0
    ensures RewriteTokenAll(t, rules) == t
    decreases |rules|
  {
    if |rules| > 0 {
      RewriteTokenAllMisses(t, rules[1..]);
    }
  }

  /** A token with no whole word in it goes through the rules unchanged. */
  lemma {:induction false} RewriteTokenAllNonWord(t: string, rules: seq<(string, string)>)
    requires !IsWordRun(t)
    ensures RewriteTokenAll(t, rules) == t
    decreases |rules|
  {
    if |rules| > 0 {
      RewriteTokenAllNonWord(t, rules[1..]);
    }
  }

  /** On single-spaced plain tokens, the sixteen rewrites act on each token on its own. */
  lemma ShortenWordsByTokens(ws: seq<string>)
    requires forall k :: 0 <= k < |ws| ==> PlainToken(ws[k])
    ensures ShortenWords(Join(ws, " ")) == Join(RewriteEachAll(ws, WordRewrites), " ")
  {
    ShortenWordsIsReplaceRuns(Join(ws, " "));
    WordRewritesReplaceWithWords();
    ReplaceRunsByTokens(ws, WordRewrites);
  }

  lemma ShortenWordsIsReplaceRuns(s: string)
    ensures ShortenWords(s) == ReplaceRuns(s, WordRewrites)
  {
    WordRewritesUpper();
    RewriteWordsIsReplaceRuns(s, WordRewrites);
  }

  // ---------------------------------------------------------------------------
  // `re.sub(r'\s*,\s*', ', ', s)` without the regex engine
  // ---------------------------------------------------------------------------

  /** Where `\s*,\s*` matches at the start of `s`: leading whitespace, a comma, the whitespace after it. */
  function CommaAt(s: string): Option<nat> {
    var n := SpaceLen(s);
    if n < |s| && s[n] == ',' then Some(n + 1 + SpaceLen(s[n + 1..])) else None
  }

  lemma CommaThenSpaces(t: string, prevWord: bool)
    ensures Match([Lit(','), Spaces], t, prevWord) ==
      if |t| > 0 && t[0] == ',' then Some(1 + SpaceLen(t[1..])) else None
  {
    LitStep(',', [Spaces], t, prevWord);
    if |t| > 0 && t[0] == ',' {
      var u := t[1..];
      SpacesStep([], u, false);
      assert [Spaces] + [] == [Spaces];
    }
  }

  lemma {:induction false} CommaAfterSpaces(s: string, prevWord: bool, k: nat)
    requires k <= SpaceLen(s)
    ensures MatchAfterSpaces([Lit(','), Spaces], s, prevWord, k) ==
      if k == SpaceLen(s) then CommaAt(s) else None
    decreases k
  {
    CommaAttempt(s, if k > 0 then false else prevWord, k);
    if k > 0 {
      CommaAfterSpaces(s, prevWord, k - 1);
    }
  }

  /** Trying `,\s*` after `k` of the leading blanks succeeds only after all of them. */
  lemma CommaAttempt(s: string, prevWord: bool, k: nat)
    requires k <= SpaceLen(s)
    ensures Shift(k, Match([Lit(','), Spaces], s[k..], prevWord)) ==
      if k == SpaceLen(s) then CommaAt(s) else None
  {
    CommaThenSpaces(s[k..], prevWord);
    if k < |s| {
      DropHead(s, k);
    }
  }

  lemma DropHead(s: string, k: nat)
    requires k < |s|
    ensures s[k..][0] == s[k] && s[k..][1..] == s[k + 1..]
  {
  }

  /** The engine finds `\s*,\s*` at the start of `s` exactly where `CommaAt` says, whatever came before. */
  lemma CommaMatch(s: string, prevWord: bool)
    ensures MatchAny(CommaPattern(), s, prevWord) == CommaAt(s)
  {
    var es := [Spaces, Lit(','), Spaces];
    assert CommaPattern() == [es];
    assert es[1..] == [Lit(','), Spaces];
    CommaAfterSpaces(s, prevWord, SpaceLen(s));
    assert MatchAny([es], s, prevWord) == Match(es, s, prevWord);
  }

  /** The character before never matters to `\s*,\s*`. */
  lemma CommaSubAnyPrev(s: string, prevWord: bool)
    ensures SubFrom(CommaPattern(), ", ", s, prevWord) == Sub(CommaPattern(), ", ", s)
  {
    CommaMatch(s, prevWord);
    CommaMatch(s, false);
  }

  /** Text without a comma passes through unchanged. */
  lemma {:induction false} CommaSubNoComma(a: string, prevWord: bool)
    requires ',' !in a
    ensures SubFrom(CommaPattern(), ", ", a, prevWord) == a
    decreases |a|
  {
    if |a| > 0 {
      CommaMissesNoComma(a, prevWord);
      SubFromSkip(CommaPattern(), ", ", a, prevWord);
      TailNoComma(a);
      CommaSubNoComma(a[1..], IsWordChar(a[0]));
      assert a == [a[0]] + a[1..];
    }
  }

  /** `\s*,\s*` finds no match in text without a comma. */
  lemma CommaMissesNoComma(a: string, prevWord: bool)
    requires ',' !in a
    ensures MatchAny(CommaPattern(), a, prevWord) == None
  {
    var n := SpaceLen(a);
    assert n < |a| ==> a[n] in a;
    assert CommaAt(a) == None;
    CommaMatch(a, prevWord);
  }

  lemma TailNoComma(a: string)
    requires |a| > 0 && ',' !in a
    ensures ',' !in a[1..]
  {
    assert forall c :: c in a[1..] ==> c in a;
  }

  /**
   Up to the first comma: the text before it loses its trailing whitespace, and
   the comma with the whitespace around it becomes ", ".
   */
  lemma {:induction false} CommaSubAtFirst(a: string, b: string, prevWord: bool)
    requires ',' !in a
    ensures SubFrom(CommaPattern(), ", ", a + [','] + b, prevWord) ==
      TrimRight(a) + ", " + Sub(CommaPattern(), ", ", TrimLeft(b))
    decreases |a|
  {
    if AllSpace(a) {
      CommaSubAtFirstBlank(a, b, prevWord);
    } else {
      TailNoComma(a);
      CommaSubAtFirst(a[1..], b, IsWordChar(a[0]));
      CommaSubCopiesFirst(a, b, prevWord, Sub(CommaPattern(), ", ", TrimLeft(b)));
    }
  }

  lemma CommaSubAtFirstBlank(a: string, b: string, prevWord: bool)
    requires AllSpace(a)
    ensures SubFrom(CommaPattern(), ", ", a + [','] + b, prevWord) ==
      TrimRight(a) + ", " + Sub(CommaPattern(), ", ", TrimLeft(b))
  {
    assert TrimRight(a) == [] by {
      assert a[0..] == a;
      TrimRightUnique(a, 0);
    }
    CommaSubAtBlank(a, b, prevWord);
    EmptyThen(", " + Sub(CommaPattern(), ", ", TrimLeft(b)));
  }

  lemma EmptyThen(x: string)
    ensures [] + x == x
  {
  }

  /** One step of the induction: copying the first character of the text before the comma. */
  lemma CommaSubCopiesFirst(a: string, b: string, prevWord: bool, x: string)
    requires ',' !in a && !AllSpace(a)
    requires SubFrom(CommaPattern(), ", ", a[1..] + [','] + b, IsWordChar(a[0])) == TrimRight(a[1..]) + ", " + x
    ensures SubFrom(CommaPattern(), ", ", a + [','] + b, prevWord) == TrimRight(a) + ", " + x
  {
    CommaSubSkipsFirst(a, b, prevWord);
    TrimRightCons(a);
    CopyThenJoin(SubFrom(CommaPattern(), ", ", a + [','] + b, prevWord),
      SubFrom(CommaPattern(), ", ", a[1..] + [','] + b, IsWordChar(a[0])),
      a[0], TrimRight(a[1..]), TrimRight(a), x);
  }

  lemma CopyThenJoin(whole: string, tail: string, c: char, t1: string, t: string, x: string)
    requires whole == [c] + tail && tail == t1 + ", " + x && t == [c] + t1
    ensures whole == t + ", " + x
  {
  }

  /** Only whitespace before the comma: the match starts right here. */
  lemma CommaMatchAtBlank(a: string, b: string, prevWord: bool)
    requires AllSpace(a)
    ensures MatchAny(CommaPattern(), a + [','] + b, prevWord) == Some(|a| + 1 + SpaceLen(b))
  {
    var s := a + [','] + b;
    assert SpaceLen(s) == |a| by {
      assert a + ([','] + b) == s;
      SpaceLenPrefix(a, [','] + b);
    }
    assert s[|a|] == ',' && s[|a| + 1..] == b;
    assert CommaAt(s) == Some(|a| + 1 + SpaceLen(b));
    CommaMatch(s, prevWord);
  }

  lemma CommaSubAtBlank(a: string, b: string, prevWord: bool)
    requires AllSpace(a)
    ensures SubFrom(CommaPattern(), ", ", a + [','] + b, prevWord) == ", " + Sub(CommaPattern(), ", ", TrimLeft(b))
  {
    var s := a + [','] + b;
    var m := |a| + 1 + SpaceLen(b);
    CommaMatchAtBlank(a, b, prevWord);
    SubFromAtMatch(CommaPattern(), ", ", s, prevWord, m);
    BlankCommaRest(a, b);
    CommaSubAnyPrev(TrimLeft(b), IsWordChar(s[m - 1]));
  }

  /** What follows a comma match: the text after the comma, without its leading whitespace. */
  lemma BlankCommaRest(a: string, b: string)
    ensures (a + [','] + b)[|a| + 1 + SpaceLen(b)..] == TrimLeft(b)
  {
    var s := a + [','] + b;
    TrimLeftUnique(b, SpaceLen(b));
    assert s[|a| + 1..] == b;
    assert s[|a| + 1 + SpaceLen(b)..] == b[SpaceLen(b)..];
  }

  /** Text before the comma that is not all whitespace: its first character is copied. */
  lemma CommaSubSkipsFirst(a: string, b: string, prevWord: bool)
    requires ',' !in a && !AllSpace(a)
    ensures SubFrom(CommaPattern(), ", ", a + [','] + b, prevWord) ==
      [a[0]] + SubFrom(CommaPattern(), ", ", a[1..] + [','] + b, IsWordChar(a[0]))
  {
    var s := a + [','] + b;
    assert s[1..] == a[1..] + [','] + b;
    CommaMatch(s, prevWord);
    var n := SpaceLen(s);
    assert forall i :: 0 <= i < |a| ==> s[i] == a[i];
    assert n < |a|;
    assert s[n] in a;
    SubFromSkip(CommaPattern(), ", ", s, prevWord);
  }

  /** `addr.split(',')[0]` is the only comma-free prefix that ends at a comma or at the end. */
  lemma BeforeFirstCommaUnique(s: string, n: nat)
    requires n <= |s| && ',' !in s[..n]
    requires n == |s| || s[n] == ','
    ensures BeforeFirstComma(s) == s[..n]
  {
    var r := BeforeFirstComma(s);
    var m := |r|;
    assert forall i :: 0 <= i < m ==> s[i] == r[i];
    assert forall i :: 0 <= i < n ==> s[i] == s[..n][i];
    assert m < |s| ==> s[m] == ',';
    assert m == n;
  }

  /** `s.split(',')`: the comma-free pieces between the commas, in order. */
  function Pieces(s: string): (ps: seq<string>)
    ensures |ps| > 0
    ensures forall k :: 0 <= k < |ps| ==> ',' !in ps[k]
    ensures Join(ps, ",") == s
    decreases |s|
  {
    var a := BeforeFirstComma(s);
    if |a| == |s| then [s]
    else
      var rest := Pieces(s[|a| + 1..]);
      JoinOfHead(a, rest, ",");
      assert s == a + "," + s[|a| + 1..];
      assert forall k :: 1 <= k < |rest| + 1 ==> ([a] + rest)[k] == rest[k - 1];
      [a] + rest
  }

  /**
   The regex-free reading of `re.sub(r'\s*,\s*', ', ', s)` on the pieces of
   `s.split(',')`: every piece loses the whitespace that touches a comma, and
   the pieces are joined by ", ". `afterComma` says whether a comma precedes
   the first piece.
   */
  function TidyPieces(ps: seq<string>, afterComma: bool): string
    requires |ps| > 0
  {
    var p := if afterComma then TrimLeft(ps[0]) else ps[0];
    if |ps| == 1 then p else TrimRight(p) + ", " + TidyPieces(ps[1..], true)
  }

  /** Dropping leading whitespace before splitting is trimming the first piece on the left. */
  lemma PiecesTrimLeft(b: string)
    ensures TidyPieces(Pieces(TrimLeft(b)), false) == TidyPieces(Pieces(b), true)
  {
    var t := TrimLeft(b);
    var k := |b| - |t|;
    assert k == |b| || b[k] == t[0];
    if |BeforeFirstComma(b)| < |b| {
      PiecesAfterBlanks(b, t, k);
    } else {
      PiecesAfterBlanksNoComma(b, t, k);
    }
  }

  /** The same with the `k` leading blanks of `b` named: the case with a comma. */
  lemma PiecesAfterBlanks(b: string, t: string, k: nat)
    requires |BeforeFirstComma(b)| < |b|
    requires k <= |b| && t == b[k..] && AllSpace(b[..k]) && (k == |b| || !IsSpace(b[k]))
    ensures TidyPieces(Pieces(t), false) == TidyPieces(Pieces(b), true)
  {
    var a := BeforeFirstComma(b);
    var rest := Pieces(b[|a| + 1..]);
    TrimmedFirstPiece(b, t, k);
    var m := |BeforeFirstComma(t)|;
    DropPastPiece(b, t, k, |a|, m);
    PiecesUnfold(t, m);
    PiecesUnfold(b, |a|);
    TidyPiecesTrimmedHead(a, rest);
  }

  /** ... and the case without one. */
  lemma PiecesAfterBlanksNoComma(b: string, t: string, k: nat)
    requires |BeforeFirstComma(b)| == |b|
    requires k <= |b| && t == b[k..] && AllSpace(b[..k]) && (k == |b| || !IsSpace(b[k]))
    ensures TidyPieces(Pieces(t), false) == TidyPieces(Pieces(b), true)
  {
    assert BeforeFirstComma(t) == t by {
      SpacePrefixFirstPiece(b, k);
    }
    TrimLeftUnique(b, k);
    assert Pieces(b) == [b];
    assert Pieces(t) == [t];
  }

  /**
   Dropping the leading whitespace of `b` (the `k` characters before `t`)
   trims its first piece on the left.
   */
  lemma TrimmedFirstPiece(b: string, t: string, k: nat)
    requires |BeforeFirstComma(b)| < |b|
    requires k <= |b| && t == b[k..] && AllSpace(b[..k]) && (k == |b| || !IsSpace(b[k]))
    ensures |BeforeFirstComma(t)| + k == |BeforeFirstComma(b)|
    ensures BeforeFirstComma(t) == TrimLeft(BeforeFirstComma(b))
  {
    var a := BeforeFirstComma(b);
    SpacePrefixFirstPiece(b, k);
    PrefixAgrees(a, b, k);
    TrimLeftUnique(a, k);
  }

  /** Past a piece of length `m` in `t == b[k..]` is past the same piece of length `m + k` in `b`. */
  lemma DropPastPiece(b: string, t: string, k: nat, n: nat, m: nat)
    requires k <= n < |b| && t == b[k..] && m + k == n
    ensures t[m + 1..] == b[n + 1..]
  {
  }

  lemma PiecesUnfold(s: string, n: nat)
    requires n == |BeforeFirstComma(s)| < |s|
    ensures Pieces(s) == [BeforeFirstComma(s)] + Pieces(s[n + 1..])
  {
  }

  lemma TidyPiecesTrimmedHead(y: string, rest: seq<string>)
    ensures TidyPieces([TrimLeft(y)] + rest, false) == TidyPieces([y] + rest, true)
  {
    assert ([TrimLeft(y)] + rest)[1..] == rest;
    assert ([y] + rest)[1..] == rest;
  }

  /** An all-whitespace prefix holds no comma, so dropping it shortens only the first piece. */
  lemma SpacePrefixFirstPiece(b: string, k: nat)
    requires k <= |b| && AllSpace(b[..k])
    ensures k <= |BeforeFirstComma(b)|
    ensures BeforeFirstComma(b[k..]) == BeforeFirstComma(b)[k..]
  {
    var p := b[..k];
    assert ',' !in p by {
      forall i | 0 <= i < |p|
        ensures p[i] != ','
      {
        assert IsSpace(p[i]);
      }
    }
    BeforeFirstCommaDrop(b, k);
  }

  /** Dropping a comma-free prefix drops the same characters from the first piece. */
  lemma {:induction false} BeforeFirstCommaDrop(b: string, k: nat)
    requires k <= |b| && ',' !in b[..k]
    ensures k <= |BeforeFirstComma(b)|
    ensures BeforeFirstComma(b[k..]) == BeforeFirstComma(b)[k..]
    decreases k
  {
    if k > 0 {
      NoCommaPrefixStep(b, k);
      BeforeFirstCommaDrop(b[1..], k - 1);
      assert BeforeFirstComma(b) == [b[0]] + BeforeFirstComma(b[1..]);
      ConsDrop(b[0], BeforeFirstComma(b[1..]), k);
    } else {
      assert b[0..] == b;
    }
  }

  lemma NoCommaPrefixStep(b: string, k: nat)
    requires 0 < k <= |b| && ',' !in b[..k]
    ensures b[0] != ',' && ',' !in b[1..][..k - 1] && b[1..][k - 1..] == b[k..]
  {
    assert b[..k][0] == b[0];
    assert b[1..][..k - 1] == b[..k][1..];
    assert forall c :: c in b[..k][1..] ==> c in b[..k];
  }

  lemma ConsDrop(c: char, x: string, k: nat)
    requires 0 < k <= |x| + 1
    ensures ([c] + x)[k..] == x[k - 1..]
  {
  }

  /** A prefix of `b` agrees with `b` on its own prefixes and positions. */
  lemma PrefixAgrees(a: string, b: string, k: nat)
    requires |a| <= |b| && a == b[..|a|] && k <= |a|
    ensures a[..k] == b[..k] && (k < |a| ==> a[k] == b[k])
  {
  }

  /** The regex pipeline equals the piece-wise definition, for every input. */
  lemma {:induction false} TidyCommasByPieces(s: string)
    ensures Sub(CommaPattern(), ", ", s) == TidyPieces(Pieces(s), false)
    decreases |s|
  {
    var a := BeforeFirstComma(s);
    if |a| == |s| {
      assert a == s;
      CommaSubNoComma(s, false);
    } else {
      var b := s[|a| + 1..];
      assert s == a + [','] + b;
      CommaSubAtFirst(a, b, false);
      TidyCommasByPieces(TrimLeft(b));
      PiecesTrimLeft(b);
    }
  }

  /** `re.sub(r'\s*,\s*', ', ', s)`: exactly ", " at every comma. */
  function TidyCommas(s: string): (r: string)
    ensures NoLower(s) ==> NoLower(r)
    ensures r == TidyPieces(Pieces(s), false)
  {
    TidyCommasByPieces(s);
    if NoLower(s) then SubFromNoLower(CommaPattern(), ", ", s, false); Sub(CommaPattern(), ", ", s)
    else Sub(CommaPattern(), ", ", s)
  }

  lemma PiecesNoComma(x: string)
    requires ',' !in x
    ensures Pieces(x) == [x]
  {
    BeforeFirstCommaUnique(x, |x|);
    assert x[..|x|] == x;
  }

  lemma PiecesAtComma(x: string, rest: string)
    requires ',' !in x
    ensures Pieces(x + "," + rest) == [x] + Pieces(rest)
  {
    var s := x + "," + rest;
    assert s[..|x|] == x;
    BeforeFirstCommaUnique(s, |x|);
    assert s[|x| + 1..] == rest;
  }

  /** One comma: the whitespace on both sides of it goes, and ", " takes its place. */
  lemma TidyCommasTwoPieces(x: string, y: string)
    requires ',' !in x && ',' !in y
    ensures TidyCommas(x + "," + y) == TrimRight(x) + ", " + TrimLeft(y)
  {
    var ps := Pieces(x + "," + y);
    assert ps == [x, y] by {
      PiecesAtComma(x, y);
      PiecesNoComma(y);
    }
    assert ps[1..] == [y];
    assert TidyPieces(ps[1..], true) == TrimLeft(y);
    assert TidyCommas(x + "," + y) == TidyPieces(ps, false);
  }

  lemma PiecesTwo(x: string, y: string)
    requires ',' !in x && ',' !in y
    ensures Pieces(x + "," + y) == [x, y]
  {
    PiecesAtComma(x, y);
    PiecesNoComma(y);
  }

  lemma PiecesThree(x: string, y: string, z: string)
    requires ',' !in x && ',' !in y && ',' !in z
    ensures Pieces(x + "," + y + "," + z) == [x, y, z]
  {
    var r := y + "," + z;
    assert x + "," + y + "," + z == x + "," + r;
    PiecesAtComma(x, r);
    PiecesTwo(y, z);
    assert [x] + [y, z] == [x, y, z];
  }

  lemma TidyPiecesThree(x: string, y: string, z: string)
    ensures TidyPieces([x, y, z], false) == TrimRight(x) + ", " + TrimRight(TrimLeft(y)) + ", " + TrimLeft(z)
  {
    var ps := [x, y, z];
    assert ps[1..] == [y, z] && ps[1..][1..] == [z];
    assert TidyPieces([z], true) == TrimLeft(z);
    var a, b, c := TrimRight(x) + ", ", TrimRight(TrimLeft(y)) + ", ", TrimLeft(z);
    assert TidyPieces([y, z], true) == b + c;
    assert TidyPieces(ps, false) == a + (b + c);
    Assoc(a, b, c);
    Assoc(a, TrimRight(TrimLeft(y)), ", ");
  }

  /** Two commas: the middle piece is stripped on both sides. */
  lemma TidyCommasThreePieces(x: string, y: string, z: string)
    requires ',' !in x && ',' !in y && ',' !in z
    ensures TidyCommas(x + "," + y + "," + z) == TrimRight(x) + ", " + TrimRight(TrimLeft(y)) + ", " + TrimLeft(z)
  {
    PiecesThree(x, y, z);
    TidyPiecesThree(x, y, z);
  }

  /** Text that opens and closes with a non-space character. */
  predicate Word(w: string) {
    |w| > 0 && !IsSpace(w[0]) && !IsSpace(w[|w| - 1])
  }

  lemma NoCommaJoin(a: string, b: string)
    requires ',' !in a && ',' !in b
    ensures ',' !in a + b
  {
    assert forall i :: 0 <= i < |a + b| ==> (a + b)[i] == if i < |a| then a[i] else b[i - |a|];
  }

  lemma SpacesNoComma(gap: string)
    requires AllSpace(gap)
    ensures ',' !in gap
  {
    assert !IsSpace(',');
  }

  /**
   Whatever whitespace surrounds the comma between two words, the comma
   stage leaves exactly ", ".
   */
  lemma TidyCommasSpacedTwo(w1: string, g1: string, g2: string, w2: string)
    requires Word(w1) && Word(w2) && ',' !in w1 && ',' !in w2
    requires AllSpace(g1) && AllSpace(g2)
    ensures TidyCommas(w1 + g1 + "," + (g2 + w2)) == w1 + ", " + w2
  {
    SpacesNoComma(g1);
    SpacesNoComma(g2);
    NoCommaJoin(w1, g1);
    NoCommaJoin(g2, w2);
    TidyCommasTwoPieces(w1 + g1, g2 + w2);
    TrimRightPadded(w1, g1);
    TrimLeftPadded(g2, w2);
  }

  lemma TrimPaddedWord(g1: string, w: string, g2: string)
    requires Word(w) && AllSpace(g1) && AllSpace(g2)
    ensures TrimRight(TrimLeft(g1 + w + g2)) == w
  {
    assert g1 + w + g2 == g1 + (w + g2);
    TrimLeftPadded(g1, w + g2);
    TrimRightPadded(w, g2);
  }

  lemma PaddedNoComma(g1: string, w: string, g2: string)
    requires ',' !in w && AllSpace(g1) && AllSpace(g2)
    ensures ',' !in g1 + w + g2
  {
    SpacesNoComma(g1);
    SpacesNoComma(g2);
    NoCommaJoin(g1, w);
    NoCommaJoin(g1 + w, g2);
  }

  /**
   Three comma-separated words, as in "123 MAIN ST  ,  AUSTIN  ,  TX 78701":
   every comma and the whitespace around it become ", ".
   */
  lemma TidyCommasSpacedThree(w1: string, g1: string, g2: string, w2: string, g3: string, g4: string, w3: string)
    requires Word(w1) && Word(w2) && Word(w3) && ',' !in w1 && ',' !in w2 && ',' !in w3
    requires AllSpace(g1) && AllSpace(g2) && AllSpace(g3) && AllSpace(g4)
    ensures TidyCommas(w1 + g1 + "," + (g2 + w2 + g3) + "," + (g4 + w3)) == w1 + ", " + w2 + ", " + w3
  {
    PaddedNoComma("", w1, g1);
    PaddedNoComma(g2, w2, g3);
    PaddedNoComma(g4, w3, "");
    assert "" + w1 + g1 == w1 + g1 && g4 + w3 + "" == g4 + w3;
    TidyCommasThreePieces(w1 + g1, g2 + w2 + g3, g4 + w3);
    TrimRightPadded(w1, g1);
    TrimPaddedWord(g2, w2, g3);
    TrimLeftPadded(g4, w3);
  }

  lemma CommaExampleText(s: string)
    requires s == "123 MAIN ST  ,  AUSTIN  ,  TX 78701"
    ensures s == "123 MAIN ST" + "  " + "," + ("  " + "AUSTIN" + "  ") + "," + ("  " + "TX 78701")
  {
  }

  lemma CommaExampleResult(r: string)
    requires r == "123 MAIN ST, AUSTIN, TX 78701"
    ensures r == "123 MAIN ST" + ", " + "AUSTIN" + ", " + "TX 78701"
  {
  }

  lemma CommaExampleWords()
    ensures Word("123 MAIN ST") && Word("AUSTIN") && Word("TX 78701") && AllSpace("  ")
    ensures ',' !in "123 MAIN ST" && ',' !in "AUSTIN" && ',' !in "TX 78701"
  {
  }

  /** "123 MAIN ST  ,  AUSTIN  ,  TX 78701" becomes "123 MAIN ST, AUSTIN, TX 78701". */
  lemma TidyCommasExample(s: string, r: string)
    requires s == "123 MAIN ST  ,  AUSTIN  ,  TX 78701" && r == "123 MAIN ST, AUSTIN, TX 78701"
    ensures TidyCommas(s) == r
  {
    CommaExampleText(s);
    CommaExampleResult(r);
    CommaExampleWords();
    TidyCommasSpacedThree("123 MAIN ST", "  ", "  ", "AUSTIN", "  ", "  ", "TX 78701");
  }

  /** The three PO-box spellings, in order, become "PO BOX". */
  function FoldPoBox(s: string): (r: string)
    ensures NoLower(s) ==> NoLower(r)
  {
    if NoLower(s) then FoldPoBoxesNoLower(s, PoBoxPatterns()); FoldPoBoxes(s, PoBoxPatterns())
    else FoldPoBoxes(s, PoBoxPatterns())
  }

  /** `FoldPoBox` is the three substitutions in turn. */
  lemma FoldPoBoxSteps(s: string)
    ensures FoldPoBox(s) == Sub(PlainPoBox(), "PO BOX", Sub(PostOfficePoBox(), "PO BOX", Sub(DottedPoBox(), "PO BOX", s)))
  {
    var ps := PoBoxPatterns();
    var s1 := Sub(ps[0], "PO BOX", s);
    var s2 := Sub(ps[1], "PO BOX", s1);
    var s3 := Sub(ps[2], "PO BOX", s2);
    assert ps[1..][0] == ps[1] && ps[1..][1..][0] == ps[2];
    assert ps[1..][1..][1..] == [];
    assert FoldPoBoxes(s2, ps[1..][1..]) == FoldPoBoxes(s3, ps[1..][1..][1..]);
  }

  /** Text without a "P" holds no PO-box spelling, and folding leaves it as it is. */
  lemma FoldPoBoxAvoiding(s: string)
    requires Avoids(s, 'P')
    ensures FoldPoBox(s) == s
  {
    FoldPoBoxSteps(s);
    SubAvoiding(DottedPoBox(), 'P', "PO BOX", s);
    SubAvoiding(PostOfficePoBox(), 'P', "PO BOX", s);
    SubAvoiding(PlainPoBox(), 'P', "PO BOX", s);
  }

  /** Text around a PO-box spelling that lets the fold lemmas apply. */
  predicate FoldableAround(a: string, t: string) {
    Avoids(a, 'P') && EndsOutsideWord(a) && Avoids(t, 'P') && StartsOutsideWord(t)
  }

  /** Once a spelling has become "PO BOX", the last two patterns keep it so. */
  lemma PoBoxSettled(a: string, t: string)
    requires FoldableAround(a, t)
    ensures Sub(PostOfficePoBox(), "PO BOX", a + "PO BOX" + t) == a + "PO BOX" + t
    ensures Sub(PlainPoBox(), "PO BOX", a + "PO BOX" + t) == a + "PO BOX" + t
  {
    var z := " BOX" + t;
    assert "PO BOX" + t == ['P'] + (['O'] + z);
    PostOfficeMissesPO(z);
    assert Avoids("PO BOX"[1..], 'P');
    SubKeepsOne(PostOfficePoBox(), 'P', "PO BOX", a, "PO BOX", t);
    MatchPlain(t);
    SubReplacesOne(PlainPoBox(), 'P', "PO BOX", a, "PO BOX", t);
  }

  /**
   A word-initial "P.O. BOX", "PO. BOX", "P.O BOX" or "PO  BOX" (dots
   optional, any whitespace run between) becomes "PO BOX"; the text around it
   is kept.
   */
  lemma FoldPoBoxDotted(a: string, d1: string, d2: string, gap: string, t: string)
    requires FoldableAround(a, t)
    requires OptionalDot(d1) && OptionalDot(d2) && AllSpace(gap)
    ensures FoldPoBox(a + DottedSpelling(d1, d2, gap) + t) == a + "PO BOX" + t
  {
    var w := DottedSpelling(d1, d2, gap);
    FoldPoBoxSteps(a + w + t);
    assert Sub(DottedPoBox(), "PO BOX", a + w + t) == a + "PO BOX" + t by {
      MatchDotted(d1, d2, gap, t);
      SubReplacesOne(DottedPoBox(), 'P', "PO BOX", a, w, t);
    }
    PoBoxSettled(a, t);
  }

  lemma PostOfficeAvoidsP(gap1: string, gap2: string)
    requires AllSpace(gap1) && AllSpace(gap2)
    ensures Avoids(PostOfficeSpelling(gap1, gap2)[1..], 'P')
  {
    SpacesAvoid(gap1, 'P');
    SpacesAvoid(gap2, 'P');
    AvoidsJoin(gap2, "BOX", 'P');
    AvoidsJoin("OFFICE", gap2 + "BOX", 'P');
    AvoidsJoin(gap1, "OFFICE" + (gap2 + "BOX"), 'P');
    AvoidsJoin("OST", gap1 + ("OFFICE" + (gap2 + "BOX")), 'P');
    assert PostOfficeSpelling(gap1, gap2)[1..] == "OST" + (gap1 + ("OFFICE" + (gap2 + "BOX")));
  }

  /** The dotted pattern does not match "POST OFFICE BOX". */
  lemma DottedMissesPostOffice(gap1: string, gap2: string, t: string)
    ensures MatchAny(DottedPoBox(), PostOfficeSpelling(gap1, gap2) + t, false) == None
  {
    var s := PostOfficeSpelling(gap1, gap2) + t;
    var z := s[2..];
    assert s[0] == 'P' && s[1] == 'O' && z[0] == 'S';
    assert s == ['P'] + (['O'] + z);
    DottedMissesPOS(z);
  }

  /** A word-initial "POST OFFICE BOX", with any whitespace runs between, becomes "PO BOX". */
  lemma FoldPoBoxPostOffice(a: string, gap1: string, gap2: string, t: string)
    requires FoldableAround(a, t)
    requires AllSpace(gap1) && AllSpace(gap2)
    ensures FoldPoBox(a + PostOfficeSpelling(gap1, gap2) + t) == a + "PO BOX" + t
  {
    var w := PostOfficeSpelling(gap1, gap2);
    FoldPoBoxSteps(a + w + t);
    assert Sub(DottedPoBox(), "PO BOX", a + w + t) == a + w + t by {
      DottedMissesPostOffice(gap1, gap2, t);
      PostOfficeAvoidsP(gap1, gap2);
      SubKeepsOne(DottedPoBox(), 'P', "PO BOX", a, w, t);
    }
    assert Sub(PostOfficePoBox(), "PO BOX", a + w + t) == a + "PO BOX" + t by {
      MatchPostOffice(gap1, gap2, t);
      SubReplacesOne(PostOfficePoBox(), 'P', "PO BOX", a, w, t);
    }
    PoBoxSettled(a, t);
  }

  lemma DottedExampleText(s: string, r: string)
    requires s == "P.O. BOX 123, AUSTIN" && r == "PO BOX 123, AUSTIN"
    ensures s == "" + DottedSpelling(".", ".", " ") + " 123, AUSTIN" && r == "" + "PO BOX" + " 123, AUSTIN"
  {
    assert DottedSpelling(".", ".", " ") == "P.O. BOX";
  }

  lemma DottedExampleAround()
    ensures FoldableAround("", " 123, AUSTIN") && OptionalDot(".") && AllSpace(" ")
  {
  }

  /** "P.O. BOX 123, AUSTIN" becomes "PO BOX 123, AUSTIN". */
  lemma FoldPoBoxDottedExample(s: string, r: string)
    requires s == "P.O. BOX 123, AUSTIN" && r == "PO BOX 123, AUSTIN"
    ensures FoldPoBox(s) == r
  {
    DottedExampleText(s, r);
    DottedExampleAround();
    FoldPoBoxDotted("", ".", ".", " ", " 123, AUSTIN");
  }

  lemma PostOfficeExampleText(s: string, r: string)
    requires s == "MAIL TO POST OFFICE BOX 45" && r == "MAIL TO PO BOX 45"
    ensures s == "MAIL TO " + PostOfficeSpelling(" ", " ") + " 45" && r == "MAIL TO " + "PO BOX" + " 45"
  {
    PostOfficeSingleSpaced();
    PostOfficeExampleResult(r);
  }

  lemma PostOfficeSingleSpaced()
    ensures PostOfficeSpelling(" ", " ") == "POST OFFICE BOX"
  {
  }

  lemma PostOfficeExampleResult(r: string)
    requires r == "MAIL TO PO BOX 45"
    ensures r == "MAIL TO " + "PO BOX" + " 45"
  {
  }

  lemma PostOfficeExampleAround()
    ensures FoldableAround("MAIL TO ", " 45") && AllSpace(" ")
  {
  }

  /** "MAIL TO POST OFFICE BOX 45" becomes "MAIL TO PO BOX 45". */
  lemma FoldPoBoxPostOfficeExample(s: string, r: string)
    requires s == "MAIL TO POST OFFICE BOX 45" && r == "MAIL TO PO BOX 45"
    ensures FoldPoBox(s) == r
  {
    PostOfficeExampleText(s, r);
    PostOfficeExampleAround();
    FoldPoBoxPostOffice("MAIL TO ", " ", " ", " 45");
  }

  lemma WideGapExampleText(s: string, r: string)
    requires s == "PO  BOX 7" && r == "PO BOX 7"
    ensures s == "" + DottedSpelling("", "", "  ") + " 7" && r == "" + "PO BOX" + " 7"
    ensures FoldableAround("", " 7") && OptionalDot("") && AllSpace("  ")
  {
    assert DottedSpelling("", "", "  ") == "PO  BOX";
  }

  /** "PO  BOX 7" becomes "PO BOX 7". */
  lemma FoldPoBoxWideGapExample(s: string, r: string)
    requires s == "PO  BOX 7" && r == "PO BOX 7"
    ensures FoldPoBox(s) == r
  {
    WideGapExampleText(s, r);
    FoldPoBoxDotted("", "", "", "  ", " 7");
  }

  /**
   `handle_edge_cases`: clean the text, shorten the common words, put exactly
   ", " at every comma, and fold the PO-box spellings.
   */
  function HandleEdgeCases(address: string): (r: string)
    ensures address == "" ==> r == ""
    ensures NoLower(r)
  {
    if address == "" then ""
    else FoldPoBox(TidyCommas(ShortenWords(CleanString(address))))
  }

  /** The word rewrites act on whole tokens: the regex pipeline equals the run-replacing one. */
  lemma HandleEdgeCasesByRuns(address: string)
    requires address != ""
    ensures HandleEdgeCases(address) == FoldPoBox(TidyCommas(ReplaceRuns(CleanString(address), WordRewrites)))
  {
    WordRewritesUpper();
    RewriteWordsIsReplaceRuns(CleanString(address), WordRewrites);
  }

  // ---------------------------------------------------------------------------
  // A worked example of the whole preprocessing
  // ---------------------------------------------------------------------------

  /** Two tokens between whitespace gaps split to exactly those two tokens. */
  lemma SplitTwoTokens(x: string, g1: string, t1: string, g2: string, t2: string, g3: string)
    requires x == g1 + t1 + (g2 + t2 + g3)
    requires AllSpace(g1) && AllSpace(g2) && AllSpace(g3) && |g2| > 0
    requires IsToken(t1) && IsToken(t2)
    ensures Split(x) == [t1, t2]
  {
    SplitAfterSpaces(g3, "");
    assert g3 + "" == g3;
    SplitGapToken(g2, t2, g3);
    SplitGapToken(g1, t1, g2 + t2 + g3);
  }

  /** Two texts meeting at whitespace split piece by piece. */
  lemma SplitPair(x: string, a: string, b: string)
    requires x == a + b && |b| > 0 && IsSpace(b[0])
    ensures Split(x) == Split(a) + Split(b)
  {
    SplitConcat(a, b);
  }

  lemma EdgeExampleNumber(p: string)
    requires p == "  123   Main"
    ensures Split(p) == ["123", "Main"]
  {
    SplitTwoTokens(p, "  ", "123", "   ", "Main", "");
  }

  lemma EdgeExampleStreetPiece(p: string)
    requires p == "   Street  ,"
    ensures Split(p) == ["Street", ","]
  {
    SplitTwoTokens(p, "   ", "Street", "  ", ",", "");
  }

  lemma EdgeExampleCity(p: string)
    requires p == "  Austin  ,"
    ensures Split(p) == ["Austin", ","]
  {
    SplitTwoTokens(p, "  ", "Austin", "  ", ",", "");
  }

  lemma EdgeExampleStateZip(p: string)
    requires p == "  TX  78701  "
    ensures Split(p) == ["TX", "78701"]
  {
    SplitTwoTokens(p, "  ", "TX", "  ", "78701", "  ");
  }

  lemma EdgeExampleFront(a: string)
    requires a == "  123   Main   Street  ,"
    ensures Split(a) == ["123", "Main", "Street", ","]
  {
    var p, q := "  123   Main", "   Street  ,";
    EdgeExampleFrontCut(a, p, q);
    EdgeExampleNumber(p);
    EdgeExampleStreetPiece(q);
    SplitPair(a, p, q);
    EdgeExampleFrontList(Split(p), Split(q));
  }

  lemma EdgeExampleFrontCut(a: string, p: string, q: string)
    requires a == "  123   Main   Street  ," && p == "  123   Main" && q == "   Street  ,"
    ensures a == p + q && IsSpace(q[0])
  {
  }

  lemma EdgeExampleFrontList(x: seq<string>, y: seq<string>)
    requires x == ["123", "Main"] && y == ["Street", ","]
    ensures x + y == ["123", "Main", "Street", ","]
  {
  }

  lemma EdgeExampleBack(b: string)
    requires b == "  Austin  ,  TX  78701  "
    ensures Split(b) == ["Austin", ",", "TX", "78701"]
  {
    var p, q := "  Austin  ,", "  TX  78701  ";
    EdgeExampleBackCut(b, p, q);
    EdgeExampleCity(p);
    EdgeExampleStateZip(q);
    SplitPair(b, p, q);
    EdgeExampleBackList(Split(p), Split(q));
  }

  lemma EdgeExampleBackCut(b: string, p: string, q: string)
    requires b == "  Austin  ,  TX  78701  " && p == "  Austin  ," && q == "  TX  78701  "
    ensures b == p + q && IsSpace(q[0])
  {
  }

  lemma EdgeExampleBackList(x: seq<string>, y: seq<string>)
    requires x == ["Austin", ","] && y == ["TX", "78701"]
    ensures x + y == ["Austin", ",", "TX", "78701"]
  {
  }

  lemma EdgeExampleTokens(s: string)
    requires s == "  123   Main   Street  ,  Austin  ,  TX  78701  "
    ensures Split(s) == ["123", "Main", "Street", ",", "Austin", ",", "TX", "78701"]
  {
    var a, b := "  123   Main   Street  ,", "  Austin  ,  TX  78701  ";
    EdgeExampleHalves(s, a, b);
    EdgeExampleFront(a);
    EdgeExampleBack(b);
    SplitPair(s, a, b);
    EdgeExampleList(Split(a), Split(b));
  }

  lemma EdgeExampleHalves(s: string, a: string, b: string)
    requires s == "  123   Main   Street  ,  Austin  ,  TX  78701  "
    requires a == "  123   Main   Street  ," && b == "  Austin  ,  TX  78701  "
    ensures s == a + b && IsSpace(b[0])
  {
  }

  lemma EdgeExampleList(x: seq<string>, y: seq<string>)
    requires x == ["123", "Main", "Street", ","] && y == ["Austin", ",", "TX", "78701"]
    ensures x + y == ["123", "Main", "Street", ",", "Austin", ",", "TX", "78701"]
  {
  }

  lemma EdgeExampleUpper(ws: seq<string>)
    requires ws == ["123", "Main", "Street", ",", "Austin", ",", "TX", "78701"]
    ensures UpperAll(ws) == ["123", "MAIN", "STREET", ",", "AUSTIN", ",", "TX", "78701"]
  {
    var us := ["123", "MAIN", "STREET", ",", "AUSTIN", ",", "TX", "78701"];
    forall k | 0 <= k < |ws|
      ensures UpperAll(ws)[k] == us[k]
    {
      EdgeExampleUpperToken(ws[k], us[k], k);
    }
  }

  lemma EdgeExampleUpperToken(t: string, u: string, k: nat)
    requires k < 8
    requires t == ["123", "Main", "Street", ",", "Austin", ",", "TX", "78701"][k]
    requires u == ["123", "MAIN", "STREET", ",", "AUSTIN", ",", "TX", "78701"][k]
    ensures Upper(t) == u
  {
    if k == 1 || k == 2 || k == 4 {
      assert |Upper(t)| == |u|;
      forall i | 0 <= i < |u|
        ensures Upper(t)[i] == u[i]
      {
      }
    } else {
      UpperOfNoLower(t);
    }
  }

  lemma EdgeExamplePlain(us: seq<string>)
    requires us == ["123", "MAIN", "STREET", ",", "AUSTIN", ",", "TX", "78701"]
    ensures forall k :: 0 <= k < |us| ==> PlainToken(us[k])
  {
  }

  lemma EdgeExampleKept(t: string)
    requires t == "123" || t == "MAIN" || t == "AUSTIN" || t == "TX" || t == "78701"
    ensures RewriteTokenAll(t, WordRewrites) == t
  {
    UpperOfNoLower(t);
    RewriteTokenAllMisses(t, WordRewrites);
  }

  lemma EdgeExampleStreet(t: string, u: string)
    requires t == "STREET" && u == "ST"
    ensures RewriteTokenAll(t, WordRewrites) == u
  {
    UpperOfNoLower(t);
    assert IsWordRun(t);
    assert RewriteToken(t, WordRewrites[0].0, WordRewrites[0].1) == u;
    UpperOfNoLower(u);
    RewriteTokenAllMisses(u, WordRewrites[1..]);
  }

  lemma EdgeExampleRewrites(us: seq<string>, vs: seq<string>)
    requires us == ["123", "MAIN", "STREET", ",", "AUSTIN", ",", "TX", "78701"]
    requires vs == ["123", "MAIN", "ST", ",", "AUSTIN", ",", "TX", "78701"]
    ensures RewriteEachAll(us, WordRewrites) == vs
  {
    forall k | 0 <= k < |us|
      ensures RewriteTokenAll(us[k], WordRewrites) == vs[k]
    {
      EdgeExampleToken(us[k], vs[k], k);
    }
  }

  lemma EdgeExampleToken(t: string, u: string, k: nat)
    requires k < 8
    requires t == ["123", "MAIN", "STREET", ",", "AUSTIN", ",", "TX", "78701"][k]
    requires u == ["123", "MAIN", "ST", ",", "AUSTIN", ",", "TX", "78701"][k]
    ensures RewriteTokenAll(t, WordRewrites) == u
  {
    if k == 2 {
      EdgeExampleStreet(t, u);
    } else if k == 3 || k == 5 {
      assert !IsWordChar(t[0]);
      RewriteTokenAllNonWord(t, WordRewrites);
    } else {
      EdgeExampleKept(t);
    }
  }

  /** Three runs of tokens separated by comma tokens, joined by single spaces. */
  lemma JoinCommaParts(a: seq<string>, b: seq<string>, c: seq<string>)
    requires |a| > 0 && |b| > 0 && |c| > 0
    ensures Join(a + [","] + b + [","] + c, " ") ==
      Join(a, " ") + " " + "," + (" " + Join(b, " ") + " ") + "," + (" " + Join(c, " "))
  {
    var ja, jb, jc := Join(a, " "), Join(b, " "), Join(c, " ");
    JoinAppend(a, [","], " ");
    JoinAppend(a + [","], b, " ");
    JoinAppend(a + [","] + b, [","], " ");
    JoinAppend(a + [","] + b + [","], c, " ");
    CommaPartsRegroup(ja, jb, jc);
  }

  lemma CommaPartsRegroup(ja: string, jb: string, jc: string)
    ensures ja + " " + "," + " " + jb + " " + "," + " " + jc ==
      ja + " " + "," + (" " + jb + " ") + "," + (" " + jc)
  {
  }

  lemma EdgeExampleParts(vs: seq<string>, a: seq<string>, b: seq<string>, c: seq<string>)
    requires vs == ["123", "MAIN", "ST", ",", "AUSTIN", ",", "TX", "78701"]
    requires a == ["123", "MAIN", "ST"] && b == ["AUSTIN"] && c == ["TX", "78701"]
    ensures vs == a + [","] + b + [","] + c
  {
  }

  lemma EdgeExamplePartsJoined()
    ensures Join(["123", "MAIN", "ST"], " ") == "123 MAIN ST"
    ensures Join(["AUSTIN"], " ") == "AUSTIN"
    ensures Join(["TX", "78701"], " ") == "TX 78701"
  {
  }

  lemma EdgeExampleResult(r: string)
    requires r == "123 MAIN ST, AUSTIN, TX 78701"
    ensures r == "123 MAIN ST" + ", " + "AUSTIN" + ", " + "TX 78701"
    ensures Avoids(r, 'P')
  {
  }

  lemma EdgeExampleCleaned(s: string, us: seq<string>)
    requires s == "  123   Main   Street  ,  Austin  ,  TX  78701  "
    requires us == ["123", "MAIN", "STREET", ",", "AUSTIN", ",", "TX", "78701"]
    ensures CleanString(s) == Join(us, " ")
  {
    EdgeExampleTokens(s);
    CleanStringBySplit(s);
    EdgeExampleUpper(Split(s));
  }

  lemma EdgeExampleShortened(us: seq<string>, vs: seq<string>)
    requires us == ["123", "MAIN", "STREET", ",", "AUSTIN", ",", "TX", "78701"]
    requires vs == ["123", "MAIN", "ST", ",", "AUSTIN", ",", "TX", "78701"]
    ensures ShortenWords(Join(us, " ")) == Join(vs, " ")
  {
    EdgeExamplePlain(us);
    ShortenWordsByTokens(us);
    EdgeExampleRewrites(us, vs);
  }

  lemma EdgeExampleTidied(vs: seq<string>, r: string)
    requires vs == ["123", "MAIN", "ST", ",", "AUSTIN", ",", "TX", "78701"]
    requires r == "123 MAIN ST, AUSTIN, TX 78701"
    ensures TidyCommas(Join(vs, " ")) == r
  {
    var a, b, c := ["123", "MAIN", "ST"], ["AUSTIN"], ["TX", "78701"];
    EdgeExampleParts(vs, a, b, c);
    JoinCommaParts(a, b, c);
    EdgeExamplePartsJoined();
    CommaExampleWords();
    TidyCommasSpacedThree("123 MAIN ST", " ", " ", "AUSTIN", " ", " ", "TX 78701");
    EdgeExampleResult(r);
  }

  /**
   The preprocessing of a padded mixed-case address: the padding goes, the
   text is upper-cased, STREET becomes ST and the commas are tidied.
   */
  lemma HandleEdgeCasesExample(s: string, r: string)
    requires s == "  123   Main   Street  ,  Austin  ,  TX  78701  "
    requires r == "123 MAIN ST, AUSTIN, TX 78701"
    ensures HandleEdgeCases(s) == r
  {
    var us := ["123", "MAIN", "STREET", ",", "AUSTIN", ",", "TX", "78701"];
    var vs := ["123", "MAIN", "ST", ",", "AUSTIN", ",", "TX", "78701"];
    EdgeExampleCleaned(s, us);
    EdgeExampleShortened(us, vs);
    EdgeExampleTidied(vs, r);
    EdgeExampleResult(r);
    FoldPoBoxAvoiding(r);
  }
}
