/**
 The component dictionaries every stage passes along.

 The tagger's output is keyed by its label names (`Labels`). Everything after
 normalization is keyed by the pipeline's own thirteen field names, which are
 an enumeration here (`Field`); `Name` gives the dictionary key the program
 uses for each.

 Two notions of "has a field" occur in the program and are kept apart: most
 code tests `d.get(k)` for truthiness (the key is there with a non-empty value),
 while the special cases of normalization test key membership alone.
 */
module Fields {

  datatype Field =
    | StreetNumber | StreetName | StreetDirectionalPrefix | StreetDirectionalSuffix | StreetType
    | UnitType | UnitNumber | City | State | ZipCode | ZipPlus4 | PoBox | Unit
  {
    function Name(): string {
      match this
      case StreetNumber => "street_number"
      case StreetName => "street_name"
      case StreetDirectionalPrefix => "street_directional_prefix"
      case StreetDirectionalSuffix => "street_directional_suffix"
      case StreetType => "street_type"
      case UnitType => "unit_type"
      case UnitNumber => "unit_number"
      case City => "city"
      case State => "state"
      case ZipCode => "zip_code"
      case ZipPlus4 => "zip_plus4"
      case PoBox => "po_box"
      case Unit => "unit"
    }
  }

  /** Normalized or formatted address components. */
  type Components = map<Field, string>

  /** The tagger's labelled components, keyed by label name. */
  type Labels = map<string, string>

  /** `d.get(k, '')` */
  function Get<K>(d: map<K, string>, k: K): string {
    if k in d then d[k] else ""
  }

  /** `d.get(k)` is truthy: the key is there and its value is not the empty string. */
  predicate Present<K>(d: map<K, string>, k: K) {
    k in d && d[k] != ""
  }

  function Names(fields: seq<Field>): (names: seq<string>)
    ensures |names| == |fields|
    ensures forall i :: 0 <= i < |fields| ==> names[i] == fields[i].Name()
  {
    seq(|fields|, i requires 0 <= i < |fields| => fields[i].Name())
  }
}
