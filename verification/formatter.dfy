/**
 USPS Publication 28 formatting (src/formatter.py): the three abbreviation
 tables, the standardization of single words and unit designators, the
 formatted component dictionary, and the single-line and multi-line renderings.
 */
module Formatter {
  import opened Outcomes
  import opened Text
  import opened Fields
  import opened Parser
  import opened Validator

  // ---------------------------------------------------------------------------
  // The abbreviation tables
  // ---------------------------------------------------------------------------

  /** A non-empty word of capital letters: the shape of every value in the tables. */
  predicate IsCapitalWord(v: string) {
    |v| > 0 && forall i :: 0 <= i < |v| ==> 'A' <= v[i] <= 'Z'
  }

  type CapitalWord = v: string | IsCapitalWord(v) witness "A"

  /** Street types starting with A, grouped by length. */
  function StreetTypesA(w: string): Option<CapitalWord> {
    match |w|
    case 4 =>
      (match w
      case "ANEX" => Some("ANX")
      case _ => None)
    case 5 =>
      (match w
      case "ALLEY" => Some("ALY")
      case "ANNEX" => Some("ANX")
      case _ => None)
    case 6 =>
      (match w
      case "ARCADE" => Some("ARC")
      case "AVENUE" => Some("AVE")
      case _ => None)
    case _ => None
  }

  /** Street types starting with B, grouped by length. */
  function StreetTypesB(w: string): Option<CapitalWord> {
    match |w|
    case 4 =>
      (match w
      case "BEND" => Some("BND")
      case "BURG" => Some("BG")
      case _ => None)
    case 5 =>
      (match w
      case "BAYOU" => Some("BYU")
      case "BEACH" => Some("BCH")
      case "BLUFF" => Some("BLF")
      case "BROOK" => Some("BRK")
      case "BURGS" => Some("BGS")
      case "BYWAY" => Some("BYW")
      case _ => None)
    case 6 =>
      (match w
      case "BLUFFS" => Some("BLFS")
      case "BOTTOM" => Some("BTM")
      case "BRANCH" => Some("BR")
      case "BRIDGE" => Some("BRG")
      case "BROOKS" => Some("BRKS")
      case "BYPASS" => Some("BYP")
      case _ => None)
    case 9 =>
      (match w
      case "BOULEVARD" => Some("BLVD")
      case _ => None)
    case _ => None
  }

  /** Street types starting with C, grouped by length. */
  function StreetTypesC(w: string): Option<CapitalWord> {
    match |w|
    case 4 =>
      (match w
      case "CAMP" => Some("CP")
      case "CAPE" => Some("CPE")
      case "CLUB" => Some("CLB")
      case "COVE" => Some("CV")
      case _ => None)
    case 5 =>
      (match w
      case "CLIFF" => Some("CLF")
      case "CLOSE" => Some("CL")
      case "COURT" => Some("CT")
      case "COVES" => Some("CVS")
      case "CREEK" => Some("CRK")
      case "CREST" => Some("CRST")
      case "CURVE" => Some("CURV")
      case _ => None)
    case 6 =>
      (match w
      case "CANYON" => Some("CYN")
      case "CENTER" => Some("CTR")
      case "CIRCLE" => Some("CIR")
      case "CLIFFS" => Some("CLFS")
      case "COMMON" => Some("CMN")
      case "CORNER" => Some("COR")
      case "COURSE" => Some("CRSE")
      case "COURTS" => Some("CTS")
      case _ => None)
    case 7 =>
      (match w
      case "CENTERS" => Some("CTRS")
      case "CIRCLES" => Some("CIRS")
      case "COMMONS" => Some("CMNS")
      case "CORNERS" => Some("CORS")
      case _ => None)
    case 8 =>
      (match w
      case "CAUSEWAY" => Some("CSWY")
      case "CRESCENT" => Some("CRES")
      case "CROSSING" => Some("XING")
      case _ => None)
    case 9 =>
      (match w
      case "CROSSROAD" => Some("XRD")
      case _ => None)
    case 10 =>
      (match w
      case "CROSSROADS" => Some("XRDS")
      case _ => None)
    case _ => None
  }

  /** Street types starting with D, grouped by length. */
  function StreetTypesD(w: string): Option<CapitalWord> {
    match |w|
    case 3 =>
      (match w
      case "DAM" => Some("DM")
      case _ => None)
    case 4 =>
      (match w
      case "DALE" => Some("DL")
      case _ => None)
    case 5 =>
      (match w
      case "DRIVE" => Some("DR")
      case _ => None)
    case 6 =>
      (match w
      case "DIVIDE" => Some("DV")
      case "DRIVES" => Some("DRS")
      case _ => None)
    case _ => None
  }

  /** Street types starting with E, grouped by length. */
  function StreetTypesE(w: string): Option<CapitalWord> {
    match |w|
    case 6 =>
      (match w
      case "ESTATE" => Some("EST")
      case _ => None)
    case 7 =>
      (match w
      case "ESTATES" => Some("ESTS")
      case _ => None)
    case 9 =>
      (match w
      case "EXTENSION" => Some("EXT")
      case _ => None)
    case 10 =>
      (match w
      case "EXPRESSWAY" => Some("EXPY")
      case "EXTENSIONS" => Some("EXTS")
      case _ => None)
    case _ => None
  }

  /** Street types starting with F, grouped by length. */
  function StreetTypesF(w: string): Option<CapitalWord> {
    match |w|
    case 4 =>
      (match w
      case "FALL" => Some("FALL")
      case "FLAT" => Some("FLT")
      case "FORD" => Some("FRD")
      case "FORK" => Some("FRK")
      case "FORT" => Some("FT")
      case _ => None)
    case 5 =>
      (match w
      case "FALLS" => Some("FLS")
      case "FERRY" => Some("FRY")
      case "FIELD" => Some("FLD")
      case "FLATS" => Some("FLTS")
      case "FORDS" => Some("FRDS")
      case "FORGE" => Some("FRG")
      case "FORKS" => Some("FRKS")
      case _ => None)
    case 6 =>
      (match w
      case "FIELDS" => Some("FLDS")
      case "FOREST" => Some("FRST")
      case "FORGES" => Some("FRGS")
      case _ => None)
    case 7 =>
      (match w
      case "FREEWAY" => Some("FWY")
      case _ => None)
    case _ => None
  }

  /** Street types starting with G, grouped by length. */
  function StreetTypesG(w: string): Option<CapitalWord> {
    match |w|
    case 4 =>
      (match w
      case "GLEN" => Some("GLN")
      case _ => None)
    case 5 =>
      (match w
      case "GLENS" => Some("GLNS")
      case "GREEN" => Some("GRN")
      case "GROVE" => Some("GRV")
      case _ => None)
    case 6 =>
      (match w
      case "GARDEN" => Some("GDN")
      case "GREENS" => Some("GRNS")
      case "GROVES" => Some("GRVS")
      case _ => None)
    case 7 =>
      (match w
      case "GARDENS" => Some("GDNS")
      case "GATEWAY" => Some("GTWY")
      case _ => None)
    case _ => None
  }

  /** Street types starting with H, grouped by length. */
  function StreetTypesH(w: string): Option<CapitalWord> {
    match |w|
    case 4 =>
      (match w
      case "HILL" => Some("HL")
      case _ => None)
    case 5 =>
      (match w
      case "HAVEN" => Some("HVN")
      case "HILLS" => Some("HLS")
      case _ => None)
    case 6 =>
      (match w
      case "HARBOR" => Some("HBR")
      case "HOLLOW" => Some("HOLW")
      case _ => None)
    case 7 =>
      (match w
      case "HARBORS" => Some("HBRS")
      case "HEIGHTS" => Some("HTS")
      case "HIGHWAY" => Some("HWY")
      case _ => None)
    case _ => None
  }

  /** Street types starting with I, grouped by length. */
  function StreetTypesI(w: string): Option<CapitalWord> {
    match |w|
    case 4 =>
      (match w
      case "ISLE" => Some("ISLE")
      case _ => None)
    case 5 =>
      (match w
      case "INLET" => Some("INLT")
      case _ => None)
    case 6 =>
      (match w
      case "ISLAND" => Some("IS")
      case _ => None)
    case 7 =>
      (match w
      case "ISLANDS" => Some("ISS")
      case _ => None)
    case _ => None
  }

  /** Street types starting with J, grouped by length. */
  function StreetTypesJ(w: string): Option<CapitalWord> {
    match |w|
    case 8 =>
      (match w
      case "JUNCTION" => Some("JCT")
      case _ => None)
    case 9 =>
      (match w
      case "JUNCTIONS" => Some("JCTS")
      case _ => None)
    case _ => None
  }

  /** Street types starting with K, grouped by length. */
  function StreetTypesK(w: string): Option<CapitalWord> {
    match |w|
    case 3 =>
      (match w
      case "KEY" => Some("KY")
      case _ => None)
    case 4 =>
      (match w
      case "KEYS" => Some("KYS")
      case _ => None)
    case 5 =>
      (match w
      case "KNOLL" => Some("KNL")
      case _ => None)
    case 6 =>
      (match w
      case "KNOLLS" => Some("KNLS")
      case _ => None)
    case _ => None
  }

  /** Street types starting with L, grouped by length. */
  function StreetTypesL(w: string): Option<CapitalWord> {
    match |w|
    case 4 =>
      (match w
      case "LAKE" => Some("LK")
      case "LAND" => Some("LAND")
      case "LANE" => Some("LN")
      case "LOAF" => Some("LF")
      case "LOCK" => Some("LCK")
      case "LOOP" => Some("LOOP")
      case _ => None)
    case 5 =>
      (match w
      case "LAKES" => Some("LKS")
      case "LANES" => Some("LNS")
      case "LIGHT" => Some("LGT")
      case "LOCKS" => Some("LCKS")
      case "LODGE" => Some("LDG")
      case _ => None)
    case 6 =>
      (match w
      case "LIGHTS" => Some("LGTS")
      case _ => None)
    case 7 =>
      (match w
      case "LANDING" => Some("LNDG")
      case _ => None)
    case _ => None
  }

  /** Street types starting with M, grouped by length. */
  function StreetTypesM(w: string): Option<CapitalWord> {
    match |w|
    case 4 =>
      (match w
      case "MALL" => Some("MALL")
      case "MILE" => Some("MI")
      case "MILL" => Some("ML")
      case _ => None)
    case 5 =>
      (match w
      case "MANOR" => Some("MNR")
      case "MILES" => Some("MIS")
      case "MILLS" => Some("MLS")
      case "MOUNT" => Some("MT")
      case _ => None)
    case 6 =>
      (match w
      case "MANORS" => Some("MNRS")
      case "MEADOW" => Some("MDW")
      case _ => None)
    case 7 =>
      (match w
      case "MEADOWS" => Some("MDWS")
      case "MISSION" => Some("MSN")
      case _ => None)
    case 8 =>
      (match w
      case "MOUNTAIN" => Some("MTN")
      case _ => None)
    case 9 =>
      (match w
      case "MOUNTAINS" => Some("MTNS")
      case _ => None)
    case _ => None
  }

  /** Street types starting with N, grouped by length. */
  function StreetTypesN(w: string): Option<CapitalWord> {
    match |w|
    case 4 =>
      (match w
      case "NECK" => Some("NCK")
      case _ => None)
    case _ => None
  }

  /** Street types starting with O, grouped by length. */
  function StreetTypesO(w: string): Option<CapitalWord> {
    match |w|
    case 4 =>
      (match w
      case "OVAL" => Some("OVAL")
      case _ => None)
    case 7 =>
      (match w
      case "ORCHARD" => Some("ORCH")
      case _ => None)
    case 8 =>
      (match w
      case "OVERPASS" => Some("OPAS")
      case _ => None)
    case _ => None
  }

  /** Street types starting with P, grouped by length. */
  function StreetTypesP(w: string): Option<CapitalWord> {
    match |w|
    case 4 =>
      (match w
      case "PARK" => Some("PARK")
      case "PASS" => Some("PASS")
      case "PATH" => Some("PATH")
      case "PIKE" => Some("PIKE")
      case "PINE" => Some("PNE")
      case "PORT" => Some("PRT")
      case _ => None)
    case 5 =>
      (match w
      case "PARKS" => Some("PARK")
      case "PINES" => Some("PNES")
      case "PLACE" => Some("PL")
      case "PLAIN" => Some("PLN")
      case "PLAZA" => Some("PLZ")
      case "POINT" => Some("PT")
      case "PORTS" => Some("PRTS")
      case _ => None)
    case 6 =>
      (match w
      case "PLAINS" => Some("PLNS")
      case "POINTS" => Some("PTS")
      case _ => None)
    case 7 =>
      (match w
      case "PARKWAY" => Some("PKWY")
      case "PASSAGE" => Some("PSGE")
      case "PRAIRIE" => Some("PR")
      case _ => None)
    case 8 =>
      (match w
      case "PARKWAYS" => Some("PKWY")
      case _ => None)
    case _ => None
  }

  /** Street types starting with R, grouped by length. */
  function StreetTypesR(w: string): Option<CapitalWord> {
    match |w|
    case 3 =>
      (match w
      case "ROW" => Some("ROW")
      case "RUE" => Some("RUE")
      case "RUN" => Some("RUN")
      case _ => None)
    case 4 =>
      (match w
      case "RAMP" => Some("RAMP")
      case "REST" => Some("RST")
      case "ROAD" => Some("RD")
      case _ => None)
    case 5 =>
      (match w
      case "RANCH" => Some("RNCH")
      case "RAPID" => Some("RPD")
      case "RIDGE" => Some("RDG")
      case "RIVER" => Some("RIV")
      case "ROADS" => Some("RDS")
      case "ROUTE" => Some("RTE")
      case _ => None)
    case 6 =>
      (match w
      case "RADIAL" => Some("RADL")
      case "RAPIDS" => Some("RPDS")
      case "RIDGES" => Some("RDGS")
      case _ => None)
    case _ => None
  }

  /** Street types starting with S, grouped by length. */
  function StreetTypesS(w: string): Option<CapitalWord> {
    match |w|
    case 4 =>
      (match w
      case "SPUR" => Some("SPUR")
      case _ => None)
    case 5 =>
      (match w
      case "SHOAL" => Some("SHL")
      case "SHORE" => Some("SHR")
      case _ => None)
    case 6 =>
      (match w
      case "SHOALS" => Some("SHLS")
      case "SHORES" => Some("SHRS")
      case "SKYWAY" => Some("SKWY")
      case "SPRING" => Some("SPG")
      case "SQUARE" => Some("SQ")
      case "STREAM" => Some("STRM")
      case "STREET" => Some("ST")
      case "SUMMIT" => Some("SMT")
      case _ => None)
    case 7 =>
      (match w
      case "SPRINGS" => Some("SPGS")
      case "SQUARES" => Some("SQS")
      case "STATION" => Some("STA")
      case "STREETS" => Some("STS")
      case _ => None)
    case 9 =>
      (match w
      case "STRAVENUE" => Some("STRA")
      case _ => None)
    case _ => None
  }

  /** Street types starting with T, grouped by length. */
  function StreetTypesT(w: string): Option<CapitalWord> {
    match |w|
    case 5 =>
      (match w
      case "TRAIL" => Some("TRL")
      case _ => None)
    case 6 =>
      (match w
      case "TUNNEL" => Some("TUNL")
      case _ => None)
    case 7 =>
      (match w
      case "TERRACE" => Some("TER")
      case "TRAILER" => Some("TRLR")
      case _ => None)
    case 8 =>
      (match w
      case "TURNPIKE" => Some("TPKE")
      case _ => None)
    case 10 =>
      (match w
      case "THROUGHWAY" => Some("TRWY")
      case _ => None)
    case _ => None
  }

  /** Street types starting with U, grouped by length. */
  function StreetTypesU(w: string): Option<CapitalWord> {
    match |w|
    case 5 =>
      (match w
      case "UNION" => Some("UN")
      case _ => None)
    case 6 =>
      (match w
      case "UNIONS" => Some("UNS")
      case _ => None)
    case 9 =>
      (match w
      case "UNDERPASS" => Some("UPAS")
      case _ => None)
    case _ => None
  }

  /** Street types starting with V, grouped by length. */
  function StreetTypesV(w: string): Option<CapitalWord> {
    match |w|
    case 4 =>
      (match w
      case "VIEW" => Some("VW")
      case _ => None)
    case 5 =>
      (match w
      case "VIEWS" => Some("VWS")
      case "VILLE" => Some("VL")
      case "VISTA" => Some("VIS")
      case _ => None)
    case 6 =>
      (match w
      case "VALLEY" => Some("VLY")
      case _ => None)
    case 7 =>
      (match w
      case "VALLEYS" => Some("VLYS")
      case "VIADUCT" => Some("VIA")
      case "VILLAGE" => Some("VLG")
      case _ => None)
    case 8 =>
      (match w
      case "VILLAGES" => Some("VLGS")
      case _ => None)
    case _ => None
  }

  /** Street types starting with W, grouped by length. */
  function StreetTypesW(w: string): Option<CapitalWord> {
    match |w|
    case 3 =>
      (match w
      case "WAY" => Some("WAY")
      case _ => None)
    case 4 =>
      (match w
      case "WALK" => Some("WALK")
      case "WALL" => Some("WALL")
      case "WAYS" => Some("WAYS")
      case "WELL" => Some("WL")
      case _ => None)
    case 5 =>
      (match w
      case "WALKS" => Some("WALK")
      case "WELLS" => Some("WLS")
      case _ => None)
    case _ => None
  }

  /** `STREET_TYPE_ABBREVIATIONS`, looked up through the first letter of the key. */
  function StreetTypeAbbreviation(w: string): Option<CapitalWord> {
    if |w| == 0 then None
    else match w[0]
      case 'A' => StreetTypesA(w)
      case 'B' => StreetTypesB(w)
      case 'C' => StreetTypesC(w)
      case 'D' => StreetTypesD(w)
      case 'E' => StreetTypesE(w)
      case 'F' => StreetTypesF(w)
      case 'G' => StreetTypesG(w)
      case 'H' => StreetTypesH(w)
      case 'I' => StreetTypesI(w)
      case 'J' => StreetTypesJ(w)
      case 'K' => StreetTypesK(w)
      case 'L' => StreetTypesL(w)
      case 'M' => StreetTypesM(w)
      case 'N' => StreetTypesN(w)
      case 'O' => StreetTypesO(w)
      case 'P' => StreetTypesP(w)
      case 'R' => StreetTypesR(w)
      case 'S' => StreetTypesS(w)
      case 'T' => StreetTypesT(w)
      case 'U' => StreetTypesU(w)
      case 'V' => StreetTypesV(w)
      case 'W' => StreetTypesW(w)
      case _ => None
  }

  /** `DIRECTIONAL_ABBREVIATIONS`, grouped by length. */
  function DirectionalAbbreviation(w: string): Option<CapitalWord> {
    match |w|
    case 4 =>
      (match w
      case "EAST" => Some("E")
      case "WEST" => Some("W")
      case _ => None)
    case 5 =>
      (match w
      case "NORTH" => Some("N")
      case "SOUTH" => Some("S")
      case _ => None)
    case 9 =>
      (match w
      case "NORTHEAST" => Some("NE")
      case "SOUTHEAST" => Some("SE")
      case "SOUTHWEST" => Some("SW")
      case "NORTHWEST" => Some("NW")
      case _ => None)
    case _ => None
  }

  /** `UNIT_ABBREVIATIONS`, grouped by length. */
  function UnitAbbreviation(w: string): Option<CapitalWord> {
    match |w|
    case 3 =>
      (match w
      case "LOT" => Some("LOT")
      case _ => None)
    case 4 =>
      (match w
      case "PIER" => Some("PIER")
      case "REAR" => Some("REAR")
      case "ROOM" => Some("RM")
      case "SIDE" => Some("SIDE")
      case "STOP" => Some("STOP")
      case "UNIT" => Some("UNIT")
      case _ => None)
    case 5 =>
      (match w
      case "FLOOR" => Some("FL")
      case "FRONT" => Some("FRNT")
      case "LOBBY" => Some("LBBY")
      case "LOWER" => Some("LOWR")
      case "SPACE" => Some("SPC")
      case "SUITE" => Some("STE")
      case "UPPER" => Some("UPPR")
      case _ => None)
    case 6 =>
      (match w
      case "HANGAR" => Some("HNGR")
      case "OFFICE" => Some("OFC")
      case _ => None)
    case 7 =>
      (match w
      case "TRAILER" => Some("TRLR")
      case _ => None)
    case 8 =>
      (match w
      case "BASEMENT" => Some("BSMT")
      case "BUILDING" => Some("BLDG")
      case _ => None)
    case 9 =>
      (match w
      case "APARTMENT" => Some("APT")
      case "PENTHOUSE" => Some("PH")
      case _ => None)
    case 10 =>
      (match w
      case "DEPARTMENT" => Some("DEPT")
      case _ => None)
    case _ => None
  }

  /**
   The three lookups `standardize_abbreviations` consults, in this order.
   Each maps an upper-case key to its abbreviation, a capital word.
   */
  datatype Tables = Tables(
    street: string -> Option<CapitalWord>,
    directional: string -> Option<CapitalWord>,
    unit: string -> Option<CapitalWord>)

  /** The dictionaries of formatter.py. */
  const Usps: Tables := Tables(StreetTypeAbbreviation, DirectionalAbbreviation, UnitAbbreviation)

  /** Some table has `w` as a key. */
  predicate IsTableKey(t: Tables, w: string) {
    t.street(w).Some? || t.directional(w).Some? || t.unit(w).Some?
  }

  /**
   The three tables in the order `standardize_abbreviations` consults them;
   a word no table knows stays as it is. In `Usps`, `TRAILER` is a key of
   both the street-type and the unit table, and the street-type entry wins.
   */
  function Abbreviate(t: Tables, w: string): (a: string)
    ensures !IsTableKey(t, w) ==> a == w
    ensures IsTableKey(t, w) ==> IsCapitalWord(a)
    ensures t.street(w).Some? ==> a == t.street(w).value
    ensures t.street(w).None? && t.directional(w).Some? ==> a == t.directional(w).value
  {
    match t.street(w)
    case Some(a) => a
    case None =>
      match t.directional(w)
      case Some(a) => a
      case None =>
        match t.unit(w)
        case Some(a) => a
        case None => w
  }

  /** Every abbreviation in the tables is one the tables leave as it is. */
  ghost predicate StandardValues(t: Tables) {
    forall w {:trigger IsTableKey(t, w)} :: IsTableKey(t, w) ==> Abbreviate(t, Abbreviate(t, w)) == Abbreviate(t, w)
  }

  lemma StreetTypesAFixed1(w: string)
    requires StreetTypesA(w).Some? && w in {"ALLEY", "ANEX", "ANNEX", "ARCADE"}
    ensures Abbreviate(Usps, StreetTypesA(w).value) == StreetTypesA(w).value
  {
  }

  lemma StreetTypesAFixed2(w: string)
    requires StreetTypesA(w).Some? && w in {"AVENUE"}
    ensures Abbreviate(Usps, StreetTypesA(w).value) == StreetTypesA(w).value
  {
  }

  lemma StreetTypesAFixed(w: string)
    requires StreetTypesA(w).Some?
    ensures Abbreviate(Usps, StreetTypesA(w).value) == StreetTypesA(w).value
  {
    if w in {"ALLEY", "ANEX", "ANNEX", "ARCADE"} {
      StreetTypesAFixed1(w);
    } else {
      StreetTypesAFixed2(w);
    }
  }

  lemma StreetTypesBFixed1(w: string)
    requires StreetTypesB(w).Some? && w in {"BAYOU", "BEACH", "BEND", "BLUFF"}
    ensures Abbreviate(Usps, StreetTypesB(w).value) == StreetTypesB(w).value
  {
  }

  lemma StreetTypesBFixed2(w: string)
    requires StreetTypesB(w).Some? && w in {"BLUFFS", "BOTTOM", "BOULEVARD", "BRANCH"}
    ensures Abbreviate(Usps, StreetTypesB(w).value) == StreetTypesB(w).value
  {
  }

  lemma StreetTypesBFixed3(w: string)
    requires StreetTypesB(w).Some? && w in {"BRIDGE", "BROOK", "BROOKS", "BURG"}
    ensures Abbreviate(Usps, StreetTypesB(w).value) == StreetTypesB(w).value
  {
  }

  lemma StreetTypesBFixed4(w: string)
    requires StreetTypesB(w).Some? && w in {"BURGS", "BYPASS", "BYWAY"}
    ensures Abbreviate(Usps, StreetTypesB(w).value) == StreetTypesB(w).value
  {
  }

  lemma StreetTypesBFixed(w: string)
    requires StreetTypesB(w).Some?
    ensures Abbreviate(Usps, StreetTypesB(w).value) == StreetTypesB(w).value
  {
    if w in {"BAYOU", "BEACH", "BEND", "BLUFF"} {
      StreetTypesBFixed1(w);
    } else if w in {"BLUFFS", "BOTTOM", "BOULEVARD", "BRANCH"} {
      StreetTypesBFixed2(w);
    } else if w in {"BRIDGE", "BROOK", "BROOKS", "BURG"} {
      StreetTypesBFixed3(w);
    } else {
      StreetTypesBFixed4(w);
    }
  }

  lemma StreetTypesCFixed1(w: string)
    requires StreetTypesC(w).Some? && w in {"CAMP", "CANYON", "CAPE", "CAUSEWAY"}
    ensures Abbreviate(Usps, StreetTypesC(w).value) == StreetTypesC(w).value
  {
  }

  lemma StreetTypesCFixed2(w: string)
    requires StreetTypesC(w).Some? && w in {"CENTER", "CENTERS", "CIRCLE", "CIRCLES"}
    ensures Abbreviate(Usps, StreetTypesC(w).value) == StreetTypesC(w).value
  {
  }

  lemma StreetTypesCFixed3(w: string)
    requires StreetTypesC(w).Some? && w in {"CLIFF", "CLIFFS", "CLOSE", "CLUB"}
    ensures Abbreviate(Usps, StreetTypesC(w).value) == StreetTypesC(w).value
  {
  }

  lemma StreetTypesCFixed4(w: string)
    requires StreetTypesC(w).Some? && w in {"COMMON", "COMMONS", "CORNER", "CORNERS"}
    ensures Abbreviate(Usps, StreetTypesC(w).value) == StreetTypesC(w).value
  {
  }

  lemma StreetTypesCFixed5(w: string)
    requires StreetTypesC(w).Some? && w in {"COURSE", "COURT", "COURTS", "COVE"}
    ensures Abbreviate(Usps, StreetTypesC(w).value) == StreetTypesC(w).value
  {
  }

  lemma StreetTypesCFixed6(w: string)
    requires StreetTypesC(w).Some? && w in {"COVES", "CREEK", "CRESCENT", "CREST"}
    ensures Abbreviate(Usps, StreetTypesC(w).value) == StreetTypesC(w).value
  {
  }

  lemma StreetTypesCFixed7(w: string)
    requires StreetTypesC(w).Some? && w in {"CROSSING", "CROSSROAD", "CROSSROADS", "CURVE"}
    ensures Abbreviate(Usps, StreetTypesC(w).value) == StreetTypesC(w).value
  {
  }

  lemma StreetTypesCFixed(w: string)
    requires StreetTypesC(w).Some?
    ensures Abbreviate(Usps, StreetTypesC(w).value) == StreetTypesC(w).value
  {
    if w in {"CAMP", "CANYON", "CAPE", "CAUSEWAY"} {
      StreetTypesCFixed1(w);
    } else if w in {"CENTER", "CENTERS", "CIRCLE", "CIRCLES"} {
      StreetTypesCFixed2(w);
    } else if w in {"CLIFF", "CLIFFS", "CLOSE", "CLUB"} {
      StreetTypesCFixed3(w);
    } else if w in {"COMMON", "COMMONS", "CORNER", "CORNERS"} {
      StreetTypesCFixed4(w);
    } else if w in {"COURSE", "COURT", "COURTS", "COVE"} {
      StreetTypesCFixed5(w);
    } else if w in {"COVES", "CREEK", "CRESCENT", "CREST"} {
      StreetTypesCFixed6(w);
    } else {
      StreetTypesCFixed7(w);
    }
  }

  lemma StreetTypesDFixed1(w: string)
    requires StreetTypesD(w).Some? && w in {"DALE", "DAM", "DIVIDE", "DRIVE"}
    ensures Abbreviate(Usps, StreetTypesD(w).value) == StreetTypesD(w).value
  {
  }

  lemma StreetTypesDFixed2(w: string)
    requires StreetTypesD(w).Some? && w in {"DRIVES"}
    ensures Abbreviate(Usps, StreetTypesD(w).value) == StreetTypesD(w).value
  {
  }

  lemma StreetTypesDFixed(w: string)
    requires StreetTypesD(w).Some?
    ensures Abbreviate(Usps, StreetTypesD(w).value) == StreetTypesD(w).value
  {
    if w in {"DALE", "DAM", "DIVIDE", "DRIVE"} {
      StreetTypesDFixed1(w);
    } else {
      StreetTypesDFixed2(w);
    }
  }

  lemma StreetTypesEFixed1(w: string)
    requires StreetTypesE(w).Some? && w in {"ESTATE", "ESTATES", "EXPRESSWAY", "EXTENSION"}
    ensures Abbreviate(Usps, StreetTypesE(w).value) == StreetTypesE(w).value
  {
  }

  lemma StreetTypesEFixed2(w: string)
    requires StreetTypesE(w).Some? && w in {"EXTENSIONS"}
    ensures Abbreviate(Usps, StreetTypesE(w).value) == StreetTypesE(w).value
  {
  }

  lemma StreetTypesEFixed(w: string)
    requires StreetTypesE(w).Some?
    ensures Abbreviate(Usps, StreetTypesE(w).value) == StreetTypesE(w).value
  {
    if w in {"ESTATE", "ESTATES", "EXPRESSWAY", "EXTENSION"} {
      StreetTypesEFixed1(w);
    } else {
      StreetTypesEFixed2(w);
    }
  }

  lemma StreetTypesFFixed1(w: string)
    requires StreetTypesF(w).Some? && w in {"FALL", "FALLS", "FERRY", "FIELD"}
    ensures Abbreviate(Usps, StreetTypesF(w).value) == StreetTypesF(w).value
  {
  }

  lemma StreetTypesFFixed2(w: string)
    requires StreetTypesF(w).Some? && w in {"FIELDS", "FLAT", "FLATS", "FORD"}
    ensures Abbreviate(Usps, StreetTypesF(w).value) == StreetTypesF(w).value
  {
  }

  lemma StreetTypesFFixed3(w: string)
    requires StreetTypesF(w).Some? && w in {"FORDS", "FOREST", "FORGE", "FORGES"}
    ensures Abbreviate(Usps, StreetTypesF(w).value) == StreetTypesF(w).value
  {
  }

  lemma StreetTypesFFixed4(w: string)
    requires StreetTypesF(w).Some? && w in {"FORK", "FORKS", "FORT", "FREEWAY"}
    ensures Abbreviate(Usps, StreetTypesF(w).value) == StreetTypesF(w).value
  {
  }

  lemma StreetTypesFFixed(w: string)
    requires StreetTypesF(w).Some?
    ensures Abbreviate(Usps, StreetTypesF(w).value) == StreetTypesF(w).value
  {
    if w in {"FALL", "FALLS", "FERRY", "FIELD"} {
      StreetTypesFFixed1(w);
    } else if w in {"FIELDS", "FLAT", "FLATS", "FORD"} {
      StreetTypesFFixed2(w);
    } else if w in {"FORDS", "FOREST", "FORGE", "FORGES"} {
      StreetTypesFFixed3(w);
    } else {
      StreetTypesFFixed4(w);
    }
  }

  lemma StreetTypesGFixed1(w: string)
    requires StreetTypesG(w).Some? && w in {"GARDEN", "GARDENS", "GATEWAY", "GLEN"}
    ensures Abbreviate(Usps, StreetTypesG(w).value) == StreetTypesG(w).value
  {
  }

  lemma StreetTypesGFixed2(w: string)
    requires StreetTypesG(w).Some? && w in {"GLENS", "GREEN", "GREENS", "GROVE"}
    ensures Abbreviate(Usps, StreetTypesG(w).value) == StreetTypesG(w).value
  {
  }

  lemma StreetTypesGFixed3(w: string)
    requires StreetTypesG(w).Some? && w in {"GROVES"}
    ensures Abbreviate(Usps, StreetTypesG(w).value) == StreetTypesG(w).value
  {
  }

  lemma StreetTypesGFixed(w: string)
    requires StreetTypesG(w).Some?
    ensures Abbreviate(Usps, StreetTypesG(w).value) == StreetTypesG(w).value
  {
    if w in {"GARDEN", "GARDENS", "GATEWAY", "GLEN"} {
      StreetTypesGFixed1(w);
    } else if w in {"GLENS", "GREEN", "GREENS", "GROVE"} {
      StreetTypesGFixed2(w);
    } else {
      StreetTypesGFixed3(w);
    }
  }

  lemma StreetTypesHFixed1(w: string)
    requires StreetTypesH(w).Some? && w in {"HARBOR", "HARBORS", "HAVEN", "HEIGHTS"}
    ensures Abbreviate(Usps, StreetTypesH(w).value) == StreetTypesH(w).value
  {
  }

  lemma StreetTypesHFixed2(w: string)
    requires StreetTypesH(w).Some? && w in {"HIGHWAY", "HILL", "HILLS", "HOLLOW"}
    ensures Abbreviate(Usps, StreetTypesH(w).value) == StreetTypesH(w).value
  {
  }

  lemma StreetTypesHFixed(w: string)
    requires StreetTypesH(w).Some?
    ensures Abbreviate(Usps, StreetTypesH(w).value) == StreetTypesH(w).value
  {
    if w in {"HARBOR", "HARBORS", "HAVEN", "HEIGHTS"} {
      StreetTypesHFixed1(w);
    } else {
      StreetTypesHFixed2(w);
    }
  }

  lemma StreetTypesIFixed(w: string)
    requires StreetTypesI(w).Some?
    ensures Abbreviate(Usps, StreetTypesI(w).value) == StreetTypesI(w).value
  {
  }

  lemma StreetTypesJFixed(w: string)
    requires StreetTypesJ(w).Some?
    ensures Abbreviate(Usps, StreetTypesJ(w).value) == StreetTypesJ(w).value
  {
  }

  lemma StreetTypesKFixed(w: string)
    requires StreetTypesK(w).Some?
    ensures Abbreviate(Usps, StreetTypesK(w).value) == StreetTypesK(w).value
  {
  }

  lemma StreetTypesLFixed1(w: string)
    requires StreetTypesL(w).Some? && w in {"LAKE", "LAKES", "LAND", "LANDING"}
    ensures Abbreviate(Usps, StreetTypesL(w).value) == StreetTypesL(w).value
  {
  }

  lemma StreetTypesLFixed2(w: string)
    requires StreetTypesL(w).Some? && w in {"LANE", "LANES", "LIGHT", "LIGHTS"}
    ensures Abbreviate(Usps, StreetTypesL(w).value) == StreetTypesL(w).value
  {
  }

  lemma StreetTypesLFixed3(w: string)
    requires StreetTypesL(w).Some? && w in {"LOAF", "LOCK", "LOCKS", "LODGE"}
    ensures Abbreviate(Usps, StreetTypesL(w).value) == StreetTypesL(w).value
  {
  }

  lemma StreetTypesLFixed4(w: string)
    requires StreetTypesL(w).Some? && w in {"LOOP"}
    ensures Abbreviate(Usps, StreetTypesL(w).value) == StreetTypesL(w).value
  {
  }

  lemma StreetTypesLFixed(w: string)
    requires StreetTypesL(w).Some?
    ensures Abbreviate(Usps, StreetTypesL(w).value) == StreetTypesL(w).value
  {
    if w in {"LAKE", "LAKES", "LAND", "LANDING"} {
      StreetTypesLFixed1(w);
    } else if w in {"LANE", "LANES", "LIGHT", "LIGHTS"} {
      StreetTypesLFixed2(w);
    } else if w in {"LOAF", "LOCK", "LOCKS", "LODGE"} {
      StreetTypesLFixed3(w);
    } else {
      StreetTypesLFixed4(w);
    }
  }

  lemma StreetTypesMFixed1(w: string)
    requires StreetTypesM(w).Some? && w in {"MALL", "MANOR", "MANORS", "MEADOW"}
    ensures Abbreviate(Usps, StreetTypesM(w).value) == StreetTypesM(w).value
  {
  }

  lemma StreetTypesMFixed2(w: string)
    requires StreetTypesM(w).Some? && w in {"MEADOWS", "MILE", "MILES", "MILL"}
    ensures Abbreviate(Usps, StreetTypesM(w).value) == StreetTypesM(w).value
  {
  }

  lemma StreetTypesMFixed3(w: string)
    requires StreetTypesM(w).Some? && w in {"MILLS", "MISSION", "MOUNT", "MOUNTAIN"}
    ensures Abbreviate(Usps, StreetTypesM(w).value) == StreetTypesM(w).value
  {
  }

  lemma StreetTypesMFixed4(w: string)
    requires StreetTypesM(w).Some? && w in {"MOUNTAINS"}
    ensures Abbreviate(Usps, StreetTypesM(w).value) == StreetTypesM(w).value
  {
  }

  lemma StreetTypesMFixed(w: string)
    requires StreetTypesM(w).Some?
    ensures Abbreviate(Usps, StreetTypesM(w).value) == StreetTypesM(w).value
  {
    if w in {"MALL", "MANOR", "MANORS", "MEADOW"} {
      StreetTypesMFixed1(w);
    } else if w in {"MEADOWS", "MILE", "MILES", "MILL"} {
      StreetTypesMFixed2(w);
    } else if w in {"MILLS", "MISSION", "MOUNT", "MOUNTAIN"} {
      StreetTypesMFixed3(w);
    } else {
      StreetTypesMFixed4(w);
    }
  }

  lemma StreetTypesNFixed(w: string)
    requires StreetTypesN(w).Some?
    ensures Abbreviate(Usps, StreetTypesN(w).value) == StreetTypesN(w).value
  {
  }

  lemma StreetTypesOFixed(w: string)
    requires StreetTypesO(w).Some?
    ensures Abbreviate(Usps, StreetTypesO(w).value) == StreetTypesO(w).value
  {
  }

  lemma StreetTypesPFixed1(w: string)
    requires StreetTypesP(w).Some? && w in {"PARK", "PARKS", "PARKWAY", "PARKWAYS"}
    ensures Abbreviate(Usps, StreetTypesP(w).value) == StreetTypesP(w).value
  {
  }

  lemma StreetTypesPFixed2(w: string)
    requires StreetTypesP(w).Some? && w in {"PASS", "PASSAGE", "PATH", "PIKE"}
    ensures Abbreviate(Usps, StreetTypesP(w).value) == StreetTypesP(w).value
  {
  }

  lemma StreetTypesPFixed3(w: string)
    requires StreetTypesP(w).Some? && w in {"PINE", "PINES", "PLACE", "PLAIN"}
    ensures Abbreviate(Usps, StreetTypesP(w).value) == StreetTypesP(w).value
  {
  }

  lemma StreetTypesPFixed4(w: string)
    requires StreetTypesP(w).Some? && w in {"PLAINS", "PLAZA", "POINT", "POINTS"}
    ensures Abbreviate(Usps, StreetTypesP(w).value) == StreetTypesP(w).value
  {
  }

  lemma StreetTypesPFixed5(w: string)
    requires StreetTypesP(w).Some? && w in {"PORT", "PORTS", "PRAIRIE"}
    ensures Abbreviate(Usps, StreetTypesP(w).value) == StreetTypesP(w).value
  {
  }

  lemma StreetTypesPFixed(w: string)
    requires StreetTypesP(w).Some?
    ensures Abbreviate(Usps, StreetTypesP(w).value) == StreetTypesP(w).value
  {
    if w in {"PARK", "PARKS", "PARKWAY", "PARKWAYS"} {
      StreetTypesPFixed1(w);
    } else if w in {"PASS", "PASSAGE", "PATH", "PIKE"} {
      StreetTypesPFixed2(w);
    } else if w in {"PINE", "PINES", "PLACE", "PLAIN"} {
      StreetTypesPFixed3(w);
    } else if w in {"PLAINS", "PLAZA", "POINT", "POINTS"} {
      StreetTypesPFixed4(w);
    } else {
      StreetTypesPFixed5(w);
    }
  }

  lemma StreetTypesRFixed1(w: string)
    requires StreetTypesR(w).Some? && w in {"RADIAL", "RAMP", "RANCH", "RAPID"}
    ensures Abbreviate(Usps, StreetTypesR(w).value) == StreetTypesR(w).value
  {
  }

  lemma StreetTypesRFixed2(w: string)
    requires StreetTypesR(w).Some? && w in {"RAPIDS", "REST", "RIDGE", "RIDGES"}
    ensures Abbreviate(Usps, StreetTypesR(w).value) == StreetTypesR(w).value
  {
  }

  lemma StreetTypesRFixed3(w: string)
    requires StreetTypesR(w).Some? && w in {"RIVER", "ROAD", "ROADS", "ROUTE"}
    ensures Abbreviate(Usps, StreetTypesR(w).value) == StreetTypesR(w).value
  {
  }

  lemma StreetTypesRFixed4(w: string)
    requires StreetTypesR(w).Some? && w in {"ROW", "RUE", "RUN"}
    ensures Abbreviate(Usps, StreetTypesR(w).value) == StreetTypesR(w).value
  {
  }

  lemma StreetTypesRFixed(w: string)
    requires StreetTypesR(w).Some?
    ensures Abbreviate(Usps, StreetTypesR(w).value) == StreetTypesR(w).value
  {
    if w in {"RADIAL", "RAMP", "RANCH", "RAPID"} {
      StreetTypesRFixed1(w);
    } else if w in {"RAPIDS", "REST", "RIDGE", "RIDGES"} {
      StreetTypesRFixed2(w);
    } else if w in {"RIVER", "ROAD", "ROADS", "ROUTE"} {
      StreetTypesRFixed3(w);
    } else {
      StreetTypesRFixed4(w);
    }
  }

  lemma StreetTypesSFixed1(w: string)
    requires StreetTypesS(w).Some? && w in {"SHOAL", "SHOALS", "SHORE", "SHORES"}
    ensures Abbreviate(Usps, StreetTypesS(w).value) == StreetTypesS(w).value
  {
  }

  lemma StreetTypesSFixed2(w: string)
    requires StreetTypesS(w).Some? && w in {"SKYWAY", "SPRING", "SPRINGS", "SPUR"}
    ensures Abbreviate(Usps, StreetTypesS(w).value) == StreetTypesS(w).value
  {
  }

  lemma StreetTypesSFixed3(w: string)
    requires StreetTypesS(w).Some? && w in {"SQUARE", "SQUARES", "STATION", "STRAVENUE"}
    ensures Abbreviate(Usps, StreetTypesS(w).value) == StreetTypesS(w).value
  {
  }

  lemma StreetTypesSFixed4(w: string)
    requires StreetTypesS(w).Some? && w in {"STREAM", "STREET", "STREETS", "SUMMIT"}
    ensures Abbreviate(Usps, StreetTypesS(w).value) == StreetTypesS(w).value
  {
  }

  lemma StreetTypesSFixed(w: string)
    requires StreetTypesS(w).Some?
    ensures Abbreviate(Usps, StreetTypesS(w).value) == StreetTypesS(w).value
  {
    if w in {"SHOAL", "SHOALS", "SHORE", "SHORES"} {
      StreetTypesSFixed1(w);
    } else if w in {"SKYWAY", "SPRING", "SPRINGS", "SPUR"} {
      StreetTypesSFixed2(w);
    } else if w in {"SQUARE", "SQUARES", "STATION", "STRAVENUE"} {
      StreetTypesSFixed3(w);
    } else {
      StreetTypesSFixed4(w);
    }
  }

  lemma StreetTypesTFixed1(w: string)
    requires StreetTypesT(w).Some? && w in {"TERRACE", "THROUGHWAY", "TRAIL", "TRAILER"}
    ensures Abbreviate(Usps, StreetTypesT(w).value) == StreetTypesT(w).value
  {
  }

  lemma StreetTypesTFixed2(w: string)
    requires StreetTypesT(w).Some? && w in {"TUNNEL", "TURNPIKE"}
    ensures Abbreviate(Usps, StreetTypesT(w).value) == StreetTypesT(w).value
  {
  }

  lemma StreetTypesTFixed(w: string)
    requires StreetTypesT(w).Some?
    ensures Abbreviate(Usps, StreetTypesT(w).value) == StreetTypesT(w).value
  {
    if w in {"TERRACE", "THROUGHWAY", "TRAIL", "TRAILER"} {
      StreetTypesTFixed1(w);
    } else {
      StreetTypesTFixed2(w);
    }
  }

  lemma StreetTypesUFixed(w: string)
    requires StreetTypesU(w).Some?
    ensures Abbreviate(Usps, StreetTypesU(w).value) == StreetTypesU(w).value
  {
  }

  lemma StreetTypesVFixed1(w: string)
    requires StreetTypesV(w).Some? && w in {"VALLEY", "VALLEYS", "VIADUCT", "VIEW"}
    ensures Abbreviate(Usps, StreetTypesV(w).value) == StreetTypesV(w).value
  {
  }

  lemma StreetTypesVFixed2(w: string)
    requires StreetTypesV(w).Some? && w in {"VIEWS", "VILLAGE", "VILLAGES", "VILLE"}
    ensures Abbreviate(Usps, StreetTypesV(w).value) == StreetTypesV(w).value
  {
  }

  lemma StreetTypesVFixed3(w: string)
    requires StreetTypesV(w).Some? && w in {"VISTA"}
    ensures Abbreviate(Usps, StreetTypesV(w).value) == StreetTypesV(w).value
  {
  }

  lemma StreetTypesVFixed(w: string)
    requires StreetTypesV(w).Some?
    ensures Abbreviate(Usps, StreetTypesV(w).value) == StreetTypesV(w).value
  {
    if w in {"VALLEY", "VALLEYS", "VIADUCT", "VIEW"} {
      StreetTypesVFixed1(w);
    } else if w in {"VIEWS", "VILLAGE", "VILLAGES", "VILLE"} {
      StreetTypesVFixed2(w);
    } else {
      StreetTypesVFixed3(w);
    }
  }

  lemma StreetTypesWFixed1(w: string)
    requires StreetTypesW(w).Some? && w in {"WALK", "WALKS", "WALL", "WAY"}
    ensures Abbreviate(Usps, StreetTypesW(w).value) == StreetTypesW(w).value
  {
  }

  lemma StreetTypesWFixed2(w: string)
    requires StreetTypesW(w).Some? && w in {"WAYS", "WELL", "WELLS"}
    ensures Abbreviate(Usps, StreetTypesW(w).value) == StreetTypesW(w).value
  {
  }

  lemma StreetTypesWFixed(w: string)
    requires StreetTypesW(w).Some?
    ensures Abbreviate(Usps, StreetTypesW(w).value) == StreetTypesW(w).value
  {
    if w in {"WALK", "WALKS", "WALL", "WAY"} {
      StreetTypesWFixed1(w);
    } else {
      StreetTypesWFixed2(w);
    }
  }

  lemma StreetTypeValuesFixed(w: string)
    requires StreetTypeAbbreviation(w).Some?
    ensures Abbreviate(Usps, StreetTypeAbbreviation(w).value) == StreetTypeAbbreviation(w).value
  {
    match w[0]
    case 'A' => StreetTypesAFixed(w);
    case 'B' => StreetTypesBFixed(w);
    case 'C' => StreetTypesCFixed(w);
    case 'D' => StreetTypesDFixed(w);
    case 'E' => StreetTypesEFixed(w);
    case 'F' => StreetTypesFFixed(w);
    case 'G' => StreetTypesGFixed(w);
    case 'H' => StreetTypesHFixed(w);
    case 'I' => StreetTypesIFixed(w);
    case 'J' => StreetTypesJFixed(w);
    case 'K' => StreetTypesKFixed(w);
    case 'L' => StreetTypesLFixed(w);
    case 'M' => StreetTypesMFixed(w);
    case 'N' => StreetTypesNFixed(w);
    case 'O' => StreetTypesOFixed(w);
    case 'P' => StreetTypesPFixed(w);
    case 'R' => StreetTypesRFixed(w);
    case 'S' => StreetTypesSFixed(w);
    case 'T' => StreetTypesTFixed(w);
    case 'U' => StreetTypesUFixed(w);
    case 'V' => StreetTypesVFixed(w);
    case 'W' => StreetTypesWFixed(w);
  }

  lemma DirectionalValuesFixed1(w: string)
    requires DirectionalAbbreviation(w).Some? && w in {"NORTH", "NORTHEAST", "EAST", "SOUTHEAST"}
    ensures Abbreviate(Usps, DirectionalAbbreviation(w).value) == DirectionalAbbreviation(w).value
  {
  }

  lemma DirectionalValuesFixed2(w: string)
    requires DirectionalAbbreviation(w).Some? && w in {"SOUTH", "SOUTHWEST", "WEST", "NORTHWEST"}
    ensures Abbreviate(Usps, DirectionalAbbreviation(w).value) == DirectionalAbbreviation(w).value
  {
  }

  lemma DirectionalValuesFixed(w: string)
    requires DirectionalAbbreviation(w).Some?
    ensures Abbreviate(Usps, DirectionalAbbreviation(w).value) == DirectionalAbbreviation(w).value
  {
    if w in {"NORTH", "NORTHEAST", "EAST", "SOUTHEAST"} {
      DirectionalValuesFixed1(w);
    } else {
      DirectionalValuesFixed2(w);
    }
  }

  lemma UnitValuesFixed1(w: string)
    requires UnitAbbreviation(w).Some? && w in {"APARTMENT", "BASEMENT", "BUILDING", "DEPARTMENT"}
    ensures Abbreviate(Usps, UnitAbbreviation(w).value) == UnitAbbreviation(w).value
  {
  }

  lemma UnitValuesFixed2(w: string)
    requires UnitAbbreviation(w).Some? && w in {"FLOOR", "FRONT", "HANGAR", "LOBBY"}
    ensures Abbreviate(Usps, UnitAbbreviation(w).value) == UnitAbbreviation(w).value
  {
  }

  lemma UnitValuesFixed3(w: string)
    requires UnitAbbreviation(w).Some? && w in {"LOT", "LOWER", "OFFICE", "PENTHOUSE"}
    ensures Abbreviate(Usps, UnitAbbreviation(w).value) == UnitAbbreviation(w).value
  {
  }

  lemma UnitValuesFixed4(w: string)
    requires UnitAbbreviation(w).Some? && w in {"PIER", "REAR", "ROOM", "SIDE"}
    ensures Abbreviate(Usps, UnitAbbreviation(w).value) == UnitAbbreviation(w).value
  {
  }

  lemma UnitValuesFixed5(w: string)
    requires UnitAbbreviation(w).Some? && w in {"SPACE", "STOP", "SUITE", "TRAILER"}
    ensures Abbreviate(Usps, UnitAbbreviation(w).value) == UnitAbbreviation(w).value
  {
  }

  lemma UnitValuesFixed6(w: string)
    requires UnitAbbreviation(w).Some? && w in {"UNIT", "UPPER"}
    ensures Abbreviate(Usps, UnitAbbreviation(w).value) == UnitAbbreviation(w).value
  {
  }

  lemma UnitValuesFixed(w: string)
    requires UnitAbbreviation(w).Some?
    ensures Abbreviate(Usps, UnitAbbreviation(w).value) == UnitAbbreviation(w).value
  {
    if w in {"APARTMENT", "BASEMENT", "BUILDING", "DEPARTMENT"} {
      UnitValuesFixed1(w);
    } else if w in {"FLOOR", "FRONT", "HANGAR", "LOBBY"} {
      UnitValuesFixed2(w);
    } else if w in {"LOT", "LOWER", "OFFICE", "PENTHOUSE"} {
      UnitValuesFixed3(w);
    } else if w in {"PIER", "REAR", "ROOM", "SIDE"} {
      UnitValuesFixed4(w);
    } else if w in {"SPACE", "STOP", "SUITE", "TRAILER"} {
      UnitValuesFixed5(w);
    } else {
      UnitValuesFixed6(w);
    }
  }

  /** A word of a table is either a key or kept as it is; a key's abbreviation is kept by the dictionaries of formatter.py. */
  lemma UspsValuesFixed(w: string)
    requires IsTableKey(Usps, w)
    ensures Abbreviate(Usps, Abbreviate(Usps, w)) == Abbreviate(Usps, w)
  {
    if StreetTypeAbbreviation(w).Some? {
      StreetTypeValuesFixed(w);
    } else if DirectionalAbbreviation(w).Some? {
      DirectionalValuesFixed(w);
    } else {
      UnitValuesFixed(w);
    }
  }

  /** Every abbreviation in the dictionaries of formatter.py is its own abbreviation. */
  lemma UspsStandardValues()
    ensures StandardValues(Usps)
  {
    forall w | IsTableKey(Usps, w)
      ensures Abbreviate(Usps, Abbreviate(Usps, w)) == Abbreviate(Usps, w)
    {
      UspsValuesFixed(w);
    }
  }

  /** With tables whose values are fixed points, abbreviating twice is abbreviating once. */
  lemma AbbreviateIdempotent(t: Tables, w: string)
    requires StandardValues(t)
    ensures Abbreviate(t, Abbreviate(t, w)) == Abbreviate(t, w)
  {
    if IsTableKey(t, w) {
      assert IsTableKey(t, w);
    }
  }

  lemma CapitalWordIsPlain(v: string)
    requires IsCapitalWord(v)
    ensures IsToken(v) && NoLower(v) && Trimmed(v)
  {
  }

  // ---------------------------------------------------------------------------
  // standardize_abbreviations and standardize_unit_designator
  // ---------------------------------------------------------------------------

  /**
   `standardize_abbreviations`: "" for "", otherwise the upper-cased, stripped
   text through the tables.
   */
  function StandardizeAbbreviations(t: Tables, text: string): (r: string)
    ensures |text| == 0 ==> r == ""
    ensures NoLower(r) && Trimmed(r)
    ensures |text| > 0 && !IsTableKey(t, Strip(Upper(text))) ==> r == Strip(Upper(text))
    ensures |text| > 0 && IsTableKey(t, Strip(Upper(text))) ==>
      IsCapitalWord(r) && r == Abbreviate(t, Strip(Upper(text)))
  {
    if |text| == 0 then ""
    else
      var key := Strip(Upper(text));
      StripUpper(text);
      StripTrims(Upper(text));
      if IsTableKey(t, key) then CapitalWordIsPlain(Abbreviate(t, key)); Abbreviate(t, key)
      else key
  }

  /** The words of the upper-cased, stripped text are the input's words, upper-cased. */
  lemma UnitWords(text: string)
    ensures Split(Strip(Upper(text))) == UpperAll(Split(text))
    ensures NoLower(Strip(Upper(text)))
    ensures forall k :: 0 <= k < |Split(Strip(Upper(text)))| ==> NoLower(Split(Strip(Upper(text)))[k])
  {
    SplitStrip(Upper(text));
    SplitUpper(text);
    StripUpper(text);
    SplitNoLower(Strip(Upper(text)));
  }

  /** Standardizing a standardized word changes nothing. */
  lemma StandardizeAbbreviationsIdempotent(t: Tables, text: string)
    requires StandardValues(t)
    ensures StandardizeAbbreviations(t, StandardizeAbbreviations(t, text)) == StandardizeAbbreviations(t, text)
  {
    var r := StandardizeAbbreviations(t, text);
    if |r| > 0 {
      UpperOfNoLower(r);
      StripOfTrimmed(r);
      AbbreviateIdempotent(t, Strip(Upper(text)));
    }
  }

  /** Only the upper-cased text matters. */
  lemma StandardizeIgnoresCase(t: Tables, text: string)
    ensures StandardizeAbbreviations(t, Upper(text)) == StandardizeAbbreviations(t, text)
    ensures StandardizeAbbreviations(t, Lower(text)) == StandardizeAbbreviations(t, text)
  {
    UpperIdempotent(text);
    UpperLower(text);
  }

  /** Abbreviating a token without lower-case letters gives another such token. */
  lemma AbbreviatePlain(t: Tables, w: string)
    requires IsToken(w) && NoLower(w)
    ensures IsToken(Abbreviate(t, w)) && NoLower(Abbreviate(t, w))
  {
    if IsTableKey(t, w) {
      CapitalWordIsPlain(Abbreviate(t, w));
    }
  }

  /** A token without lower-case letters standardizes through the tables directly. */
  lemma StandardizeToken(t: Tables, w: string)
    requires IsToken(w) && NoLower(w)
    ensures StandardizeAbbreviations(t, w) == Abbreviate(t, w)
    ensures IsToken(StandardizeAbbreviations(t, w)) && NoLower(StandardizeAbbreviations(t, w))
  {
    UpperOfNoLower(w);
    StripOfTrimmed(w);
    if IsTableKey(t, w) {
      CapitalWordIsPlain(Abbreviate(t, w));
    }
  }

  /** The first word standardized, then the other words, all joined by single spaces. */
  function StandardizeFirstWord(t: Tables, words: seq<string>): (r: string)
    requires |words| >= 2 && AllTokens(words)
    requires forall k :: 0 <= k < |words| ==> NoLower(words[k])
    ensures r == Join([Abbreviate(t, words[0])] + words[1..], " ")
    ensures NoLower(r)
  {
    var head := StandardizeAbbreviations(t, words[0]);
    var rest := words[1..];
    StandardizeToken(t, words[0]);
    JoinOfHead(head, rest, " ");
    JoinNoLower([head] + rest);
    head + " " + Join(rest, " ")
  }

  /**
   `standardize_unit_designator`: "" for "", otherwise the upper-cased,
   stripped text, with its first word standardized when there are at least
   two words; the remaining words are re-joined by single spaces.
   */
  function StandardizeUnitDesignator(t: Tables, unitText: string): (r: string)
    ensures |unitText| == 0 ==> r == ""
    ensures NoLower(r)
  {
    if |unitText| == 0 then ""
    else
      var u := Strip(Upper(unitText));
      var words := Split(u);
      UnitWords(unitText);
      if |words| >= 2 then StandardizeFirstWord(t, words) else u
  }

  /**
   A designator of fewer than two words is only upper-cased and stripped;
   otherwise its first word goes through the tables, every later word is
   upper-cased, and the words are joined by single spaces.
   */
  lemma UnitDesignatorWords(t: Tables, unitText: string)
    ensures |Split(unitText)| < 2 ==>
      StandardizeUnitDesignator(t, unitText) == (if |unitText| == 0 then "" else Strip(Upper(unitText)))
    ensures |Split(unitText)| >= 2 ==>
      StandardizeUnitDesignator(t, unitText) ==
        Join([Abbreviate(t, Upper(Split(unitText)[0]))] + UpperAll(Split(unitText))[1..], " ")
  {
    if |unitText| > 0 {
      UnitWords(unitText);
    }
  }

  lemma UnitDesignatorOneWordIdempotent(t: Tables, unitText: string)
    requires |Split(unitText)| < 2
    ensures StandardizeUnitDesignator(t, StandardizeUnitDesignator(t, unitText)) == StandardizeUnitDesignator(t, unitText)
  {
    var r := StandardizeUnitDesignator(t, unitText);
    UnitDesignatorWords(t, unitText);
    if |r| > 0 {
      var u := Upper(unitText);
      UnitWords(unitText);
      StripUpper(u);
      UpperIdempotent(unitText);
      StripTrims(u);
      StripOfTrimmed(Strip(u));
      assert r == Strip(u);
      assert Strip(Upper(r)) == r;
      UnitDesignatorWords(t, r);
    }
  }

  /** Putting a plain token before plain tokens keeps every word plain. */
  lemma PlainHead(a: string, rest: seq<string>)
    requires IsToken(a) && NoLower(a) && AllTokens(rest)
    requires forall k :: 0 <= k < |rest| ==> NoLower(rest[k])
    ensures AllTokens([a] + rest)
    ensures UpperAll([a] + rest) == [a] + rest
  {
    var ws := [a] + rest;
    forall k | 0 <= k < |ws| ensures NoLower(ws[k]) && IsToken(ws[k]) {
      if k > 0 {
        assert ws[k] == rest[k - 1];
      }
    }
    UpperAllOfNoLower(ws);
  }

  /** The words of a standardized designator of several words are their own standard form. */
  lemma StandardWords(t: Tables, uw: seq<string>)
    requires StandardValues(t)
    requires |uw| >= 2 && AllTokens(uw)
    requires forall k :: 0 <= k < |uw| ==> NoLower(uw[k])
    ensures AllTokens([Abbreviate(t, uw[0])] + uw[1..])
    ensures Abbreviate(t, Upper(Abbreviate(t, uw[0]))) == Abbreviate(t, uw[0])
    ensures UpperAll([Abbreviate(t, uw[0])] + uw[1..]) == [Abbreviate(t, uw[0])] + uw[1..]
  {
    var a := Abbreviate(t, uw[0]);
    AbbreviatePlain(t, uw[0]);
    UpperOfNoLower(a);
    AbbreviateIdempotent(t, uw[0]);
    var rest := uw[1..];
    assert AllTokens(rest) && forall k :: 0 <= k < |rest| ==> NoLower(rest[k]) by {
      forall k | 0 <= k < |rest| ensures IsToken(rest[k]) && NoLower(rest[k]) {
        assert rest[k] == uw[k + 1];
      }
    }
    PlainHead(a, rest);
  }

  lemma UnitDesignatorWordsIdempotent(t: Tables, unitText: string)
    requires StandardValues(t)
    requires |Split(unitText)| >= 2
    ensures StandardizeUnitDesignator(t, StandardizeUnitDesignator(t, unitText)) == StandardizeUnitDesignator(t, unitText)
  {
    var uw := UpperAll(Split(unitText));
    UnitDesignatorWords(t, unitText);
    UpperAllTokens(Split(unitText));
    UnitWords(unitText);
    StandardWords(t, uw);
    var ws := [Abbreviate(t, uw[0])] + uw[1..];
    SplitJoin(ws);
    assert [ws[0]] + ws[1..] == ws;
    UnitDesignatorWords(t, StandardizeUnitDesignator(t, unitText));
  }

  /** Standardizing a standardized unit designator changes nothing. */
  lemma StandardizeUnitDesignatorIdempotent(t: Tables, unitText: string)
    requires StandardValues(t)
    ensures StandardizeUnitDesignator(t, StandardizeUnitDesignator(t, unitText)) == StandardizeUnitDesignator(t, unitText)
  {
    if |Split(unitText)| < 2 {
      UnitDesignatorOneWordIdempotent(t, unitText);
    } else {
      UnitDesignatorWordsIdempotent(t, unitText);
    }
  }

  // ---------------------------------------------------------------------------
  // format_usps_standard
  // ---------------------------------------------------------------------------

  /**
   The two standardizations `format_usps_standard` applies: `word` to the
   directionals, the street type and the unit type, `unit` to a combined unit.
   */
  datatype Standardizers = Standardizers(word: string -> string, unit: string -> string)

  /** `standardize_abbreviations` and `standardize_unit_designator` over the dictionaries of formatter.py. */
  const UspsStandardizers: Standardizers :=
    Standardizers(w => StandardizeAbbreviations(Usps, w), u => StandardizeUnitDesignator(Usps, u))

  /** Standardizing a standardized unit designator changes nothing. */
  ghost predicate UnitIdempotent(s: Standardizers) {
    forall u :: s.unit(s.unit(u)) == s.unit(u)
  }

  lemma UspsUnitIdempotent()
    ensures UnitIdempotent(UspsStandardizers)
  {
    forall u ensures UspsStandardizers.unit(UspsStandardizers.unit(u)) == UspsStandardizers.unit(u) {
      UspsStandardValues();
      StandardizeUnitDesignatorIdempotent(Usps, u);
    }
  }

  /** The keys `format_usps_standard` can produce. */
  const FormattedFields: set<Field> := {StreetNumber, StreetName, Unit, PoBox, City, State, ZipCode}

  /** The truthy directional prefix, street name, directional suffix and street type, in that order; all but the name standardized. */
  function FormattedStreetParts(s: Standardizers, d: Components): seq<string> {
    (if Present(d, StreetDirectionalPrefix) then [s.word(d[StreetDirectionalPrefix])] else [])
    + (if Present(d, StreetName) then [d[StreetName]] else [])
    + (if Present(d, StreetDirectionalSuffix) then [s.word(d[StreetDirectionalSuffix])] else [])
    + (if Present(d, StreetType) then [s.word(d[StreetType])] else [])
  }

  /** A truthy combined `unit` wins; otherwise both the unit type and the unit number must be truthy. */
  function FormattedUnit(s: Standardizers, d: Components): (o: Option<string>)
    ensures o.Some? <==> Present(d, Unit) || (Present(d, UnitType) && Present(d, UnitNumber))
    ensures Present(d, Unit) ==> o == Some(s.unit(d[Unit]))
    ensures !Present(d, Unit) && Present(d, UnitType) && Present(d, UnitNumber) ==>
      o == Some(s.word(d[UnitType]) + " " + d[UnitNumber])
  {
    if Present(d, Unit) then Some(s.unit(d[Unit]))
    else if Present(d, UnitType) && Present(d, UnitNumber) then
      Some(s.word(d[UnitType]) + " " + d[UnitNumber])
    else None
  }

  /** One output key of `format_usps_standard`; each is decided on its own. */
  function FormattedField(s: Standardizers, d: Components, field: Field): Option<string> {
    if field == StreetNumber then (if Present(d, StreetNumber) then Some(d[StreetNumber]) else None)
    else if field == StreetName then
      (if FormattedStreetParts(s, d) != [] then Some(Join(FormattedStreetParts(s, d), " ")) else None)
    else if field == Unit then FormattedUnit(s, d)
    else if field == PoBox then (if Present(d, PoBox) then Some("PO BOX " + d[PoBox]) else None)
    else if field == City then (if Present(d, City) then Some(Upper(d[City])) else None)
    else if field == State then (if Present(d, State) then Some(Upper(d[State])) else None)
    else if field == ZipCode then (if Present(d, ZipCode) then Some(d[ZipCode]) else None)
    else None
  }

  /**
   `format_usps_standard`: {} for {}; otherwise every output key whose value
   the input supports.
   */
  function FormatUspsStandard(s: Standardizers, d: Components): (f: Components)
    ensures |d| == 0 ==> f == map[]
    ensures f.Keys <= FormattedFields
  {
    if |d| == 0 then map[]
    else map k | k in FormattedFields && FormattedField(s, d, k).Some? :: FormattedField(s, d, k).value
  }

  /** Every output key is decided on its own, from the input alone. */
  lemma FormatHasField(s: Standardizers, d: Components, k: Field)
    ensures k in FormatUspsStandard(s, d) <==> k in FormattedFields && FormattedField(s, d, k).Some?
    ensures k in FormatUspsStandard(s, d) ==> FormatUspsStandard(s, d)[k] == FormattedField(s, d, k).value
  {
    if |d| == 0 {
      assert FormattedStreetParts(s, d) == [];
    }
  }

  /** The street number and ZIP code are copied, the PO box prefixed. */
  lemma FormatCopiesFields(s: Standardizers, d: Components)
    ensures StreetNumber in FormatUspsStandard(s, d) <==> Present(d, StreetNumber)
    ensures StreetNumber in FormatUspsStandard(s, d) ==> FormatUspsStandard(s, d)[StreetNumber] == d[StreetNumber]
    ensures ZipCode in FormatUspsStandard(s, d) <==> Present(d, ZipCode)
    ensures ZipCode in FormatUspsStandard(s, d) ==> FormatUspsStandard(s, d)[ZipCode] == d[ZipCode]
    ensures PoBox in FormatUspsStandard(s, d) <==> Present(d, PoBox)
    ensures PoBox in FormatUspsStandard(s, d) ==> FormatUspsStandard(s, d)[PoBox] == "PO BOX " + d[PoBox]
  {
    FormatHasField(s, d, StreetNumber);
    FormatHasField(s, d, ZipCode);
    FormatHasField(s, d, PoBox);
  }

  lemma FormatUpperCasesPlace(s: Standardizers, d: Components)
    ensures City in FormatUspsStandard(s, d) <==> Present(d, City)
    ensures City in FormatUspsStandard(s, d) ==> FormatUspsStandard(s, d)[City] == Upper(d[City])
    ensures State in FormatUspsStandard(s, d) <==> Present(d, State)
    ensures State in FormatUspsStandard(s, d) ==> FormatUspsStandard(s, d)[State] == Upper(d[State])
  {
    FormatHasField(s, d, City);
    FormatHasField(s, d, State);
  }

  /** The street name joins its truthy parts: the prefix, the name, the suffix and the type. */
  lemma FormatAssemblesStreet(s: Standardizers, d: Components)
    ensures StreetName in FormatUspsStandard(s, d) <==>
      Present(d, StreetDirectionalPrefix) || Present(d, StreetName) ||
      Present(d, StreetDirectionalSuffix) || Present(d, StreetType)
    ensures StreetName in FormatUspsStandard(s, d) ==>
      FormatUspsStandard(s, d)[StreetName] == Join(FormattedStreetParts(s, d), " ")
  {
    FormatHasField(s, d, StreetName);
  }

  /** The unit needs a combined unit, or both a unit type and a unit number. */
  lemma FormatHasUnit(s: Standardizers, d: Components)
    ensures Unit in FormatUspsStandard(s, d) <==> Present(d, Unit) || (Present(d, UnitType) && Present(d, UnitNumber))
  {
    FormatHasField(s, d, Unit);
    assert FormattedField(s, d, Unit) == FormattedUnit(s, d);
  }

  /** A combined unit is standardized as a unit designator. */
  lemma FormatStandardizesUnit(s: Standardizers, d: Components)
    requires Present(d, Unit)
    ensures Unit in FormatUspsStandard(s, d)
    ensures FormatUspsStandard(s, d)[Unit] == s.unit(d[Unit])
  {
    FormatHasField(s, d, Unit);
    assert FormattedField(s, d, Unit) == Some(s.unit(d[Unit]));
  }

  /**
   Without a combined unit, the unit is assembled from the standardized unit
   type and the unit number as written, separated by one space.
   */
  lemma FormatAssemblesUnit(s: Standardizers, d: Components)
    requires !Present(d, Unit) && Present(d, UnitType) && Present(d, UnitNumber)
    ensures Unit in FormatUspsStandard(s, d)
    ensures FormatUspsStandard(s, d)[Unit] == s.word(d[UnitType]) + " " + d[UnitNumber]
  {
    FormatHasField(s, d, Unit);
    assert FormattedField(s, d, Unit) == FormattedUnit(s, d);
  }

  lemma ReformatKeepsCopies(s: Standardizers, d: Components, field: Field)
    requires field in {StreetNumber, ZipCode}
    ensures Get(FormatUspsStandard(s, FormatUspsStandard(s, d)), field) == Get(FormatUspsStandard(s, d), field)
  {
    FormatCopiesFields(s, d);
    FormatCopiesFields(s, FormatUspsStandard(s, d));
  }

  lemma ReformatKeepsPlace(s: Standardizers, d: Components, field: Field)
    requires field in {City, State}
    ensures Get(FormatUspsStandard(s, FormatUspsStandard(s, d)), field) == Get(FormatUspsStandard(s, d), field)
  {
    var f := FormatUspsStandard(s, d);
    FormatUpperCasesPlace(s, d);
    FormatUpperCasesPlace(s, f);
    if field in f {
      UpperIdempotent(d[field]);
    }
  }

  /** A formatted dictionary has no directionals or street type of its own: its street parts are its street name. */
  lemma StreetPartsOfFormatted(s: Standardizers, f: Components)
    requires f.Keys <= FormattedFields
    ensures FormattedStreetParts(s, f) == if Present(f, StreetName) then [f[StreetName]] else []
  {
    assert !Present(f, StreetDirectionalPrefix) && !Present(f, StreetDirectionalSuffix) && !Present(f, StreetType);
  }

  lemma ReformatKeepsStreetName(s: Standardizers, d: Components)
    ensures Get(FormatUspsStandard(s, FormatUspsStandard(s, d)), StreetName) == Get(FormatUspsStandard(s, d), StreetName)
  {
    var f := FormatUspsStandard(s, d);
    FormatAssemblesStreet(s, f);
    StreetPartsOfFormatted(s, f);
  }

  /** A formatted dictionary has no unit type or number of its own: its unit is its standardized combined unit. */
  lemma UnitOfFormatted(s: Standardizers, f: Components)
    requires f.Keys <= FormattedFields
    ensures Get(FormatUspsStandard(s, f), Unit) == if Present(f, Unit) then s.unit(f[Unit]) else ""
  {
    FormatHasUnit(s, f);
    if Present(f, Unit) {
      FormatStandardizesUnit(s, f);
    }
  }

  lemma ReformatKeepsUnit(s: Standardizers, d: Components)
    requires UnitIdempotent(s)
    requires Present(d, Unit)
    ensures Get(FormatUspsStandard(s, FormatUspsStandard(s, d)), Unit) == Get(FormatUspsStandard(s, d), Unit)
  {
    var f := FormatUspsStandard(s, d);
    FormatStandardizesUnit(s, d);
    UnitOfFormatted(s, f);
  }

  /**
   Formatting an already formatted address again changes nothing but the PO
   box, which gains a second "PO BOX " prefix, and a unit assembled from a
   unit type and number.
   */
  lemma ReformatStable(s: Standardizers, d: Components, field: Field)
    requires UnitIdempotent(s)
    requires field in {StreetNumber, StreetName, City, State, ZipCode} || (field == Unit && Present(d, Unit))
    ensures Get(FormatUspsStandard(s, FormatUspsStandard(s, d)), field) == Get(FormatUspsStandard(s, d), field)
  {
    if field == StreetNumber || field == ZipCode {
      ReformatKeepsCopies(s, d, field);
    } else if field == City || field == State {
      ReformatKeepsPlace(s, d, field);
    } else if field == StreetName {
      ReformatKeepsStreetName(s, d);
    } else {
      ReformatKeepsUnit(s, d);
    }
  }

  /** With the dictionaries of formatter.py: formatting twice is formatting once, for these fields. */
  lemma UspsReformatStable(d: Components, field: Field)
    requires field in {StreetNumber, StreetName, City, State, ZipCode} || (field == Unit && Present(d, Unit))
    ensures Get(FormatUspsStandard(UspsStandardizers, FormatUspsStandard(UspsStandardizers, d)), field) == Get(FormatUspsStandard(UspsStandardizers, d), field)
  {
    UspsUnitIdempotent();
    ReformatStable(UspsStandardizers, d, field);
  }

  // ---------------------------------------------------------------------------
  // format_output_line and format_multi_line_address
  // ---------------------------------------------------------------------------

  /** "number name" when both are truthy, the name alone when only it is; a number alone is dropped. */
  function StreetSection(d: Components): (s: seq<string>)
    ensures |s| <= 1 && (|s| == 1 <==> Present(d, StreetName))
    ensures forall k :: 0 <= k < |s| ==> s[k] != ""
    ensures |s| == 1 ==>
      s[0] == (if Present(d, StreetNumber) then d[StreetNumber] + " " + d[StreetName] else d[StreetName])
  {
    if Present(d, StreetNumber) && Present(d, StreetName) then [d[StreetNumber] + " " + d[StreetName]]
    else if Present(d, StreetName) then [d[StreetName]]
    else []
  }

  /** The truthy city, state and ZIP code, in that order. */
  function CityStateZip(d: Components): (s: seq<string>)
    ensures |s| == (if Present(d, City) then 1 else 0) + (if Present(d, State) then 1 else 0)
                   + (if Present(d, ZipCode) then 1 else 0)
    ensures Present(d, City) ==> s[0] == d[City]
    ensures Present(d, State) ==> s[if Present(d, City) then 1 else 0] == d[State]
    ensures Present(d, ZipCode) ==> s[|s| - 1] == d[ZipCode]
    ensures forall k :: 0 <= k < |s| ==> s[k] != ""
  {
    (if Present(d, City) then [d[City]] else [])
    + (if Present(d, State) then [d[State]] else [])
    + (if Present(d, ZipCode) then [d[ZipCode]] else [])
  }

  /** The truthy unit. */
  function UnitSection(d: Components): (s: seq<string>)
    ensures |s| <= 1 && (|s| == 1 <==> Present(d, Unit))
    ensures |s| == 1 ==> s[0] == d[Unit] && s[0] != ""
  {
    if Present(d, Unit) then [d[Unit]] else []
  }

  /** The truthy PO box. */
  function PoBoxSection(d: Components): (s: seq<string>)
    ensures |s| <= 1 && (|s| == 1 <==> Present(d, PoBox))
    ensures |s| == 1 ==> s[0] == d[PoBox] && s[0] != ""
  {
    if Present(d, PoBox) then [d[PoBox]] else []
  }

  /**
   The sections of the single-line address, in order: the street, the unit,
   the PO box, and last the city, state and ZIP code joined by ", ".
   */
  function OutputSections(d: Components): (s: seq<string>)
    ensures forall k :: 0 <= k < |s| ==> s[k] != ""
    ensures |s| == 0 <==> !(Present(d, StreetName) || Present(d, Unit) || Present(d, PoBox) ||
                           Present(d, City) || Present(d, State) || Present(d, ZipCode))
    ensures |s| == |StreetSection(d)| + |UnitSection(d)| + |PoBoxSection(d)| + (if CityStateZip(d) == [] then 0 else 1)
    ensures s[..|StreetSection(d)| + |UnitSection(d)| + |PoBoxSection(d)|] == StreetSection(d) + UnitSection(d) + PoBoxSection(d)
    ensures CityStateZip(d) != [] ==> s[|s| - 1] == Join(CityStateZip(d), ", ")
  {
    var csz := CityStateZip(d);
    JoinEmpty(csz, ", ");
    var s := StreetSection(d) + UnitSection(d) + PoBoxSection(d)
      + (if csz != [] then [Join(csz, ", ")] else []);
    assert s[..|StreetSection(d)| + |UnitSection(d)| + |PoBoxSection(d)|] == StreetSection(d) + UnitSection(d) + PoBoxSection(d);
    s
  }

  /** Every truthy part of the single line in order, the city, state and ZIP code as parts of their own. */
  function LineParts(d: Components): seq<string> {
    StreetSection(d) + UnitSection(d) + PoBoxSection(d) + CityStateZip(d)
  }

  /**
   The city, state and ZIP code are joined with the same ", " as the sections,
   so the single line is the flat ", "-join of all its parts.
   */
  lemma OutputLineFlat(d: Components)
    ensures Join(OutputSections(d), ", ") == Join(LineParts(d), ", ")
  {
    var front := StreetSection(d) + UnitSection(d) + PoBoxSection(d);
    var csz := CityStateZip(d);
    assert OutputSections(d) == front + (if csz == [] then [] else [Join(csz, ", ")]);
    assert LineParts(d) == front + csz;
    if csz == [] {
      assert front + [] == front;
    } else if front == [] {
      assert [] + [Join(csz, ", ")] == [Join(csz, ", ")];
      assert [] + csz == csz;
    } else {
      JoinAppend(front, [Join(csz, ", ")], ", ");
      JoinAppend(front, csz, ", ");
    }
  }

  /**
   `format_output_line`: the sections joined by ", "; the city, state and ZIP
   code form one section, itself joined by ", ".
   */
  function FormatOutputLine(d: Components): (line: string)
    ensures |d| == 0 ==> line == ""
    ensures |d| > 0 ==> line == Join(OutputSections(d), ", ")
    ensures |d| > 0 ==> line == Join(LineParts(d), ", ")
    ensures line == "" <==> !(Present(d, StreetName) || Present(d, Unit) || Present(d, PoBox) ||
                              Present(d, City) || Present(d, State) || Present(d, ZipCode))
  {
    if |d| == 0 then ""
    else
      JoinEmpty(OutputSections(d), ", ");
      OutputLineFlat(d);
      Join(OutputSections(d), ", ")
  }

  /** A street number without a street name never reaches the single line. */
  lemma OutputLineDropsLoneNumber(d: Components)
    requires !Present(d, StreetName)
    ensures FormatOutputLine(d) == FormatOutputLine(d - {StreetNumber})
  {
    var e := d - {StreetNumber};
    assert StreetSection(d) == [] == StreetSection(e);
    assert UnitSection(d) == UnitSection(e) && PoBoxSection(d) == PoBoxSection(e);
    assert CityStateZip(d) == CityStateZip(e);
    SameSections(d, e);
  }

  /** Components with the same four kinds of section render the same sections. */
  lemma SameSections(d: Components, e: Components)
    requires StreetSection(d) == StreetSection(e) && UnitSection(d) == UnitSection(e)
    requires PoBoxSection(d) == PoBoxSection(e) && CityStateZip(d) == CityStateZip(e)
    ensures OutputSections(d) == OutputSections(e)
    ensures FormatOutputLine(d) == FormatOutputLine(e)
  {
  }

  /** The first mailing line: the PO box alone, or the street section and the unit joined by a space. */
  function FirstLine(d: Components): (s: seq<string>)
    ensures |s| <= 1
    ensures forall k :: 0 <= k < |s| ==> s[k] != ""
    ensures |s| == 0 <==> !(Present(d, PoBox) || Present(d, StreetName) || Present(d, Unit))
    ensures Present(d, PoBox) ==> s == [d[PoBox]]
    ensures !Present(d, PoBox) && |s| == 1 ==> s[0] == Join(StreetSection(d) + UnitSection(d), " ")
  {
    if Present(d, PoBox) then [d[PoBox]]
    else
      var parts := StreetSection(d) + UnitSection(d);
      JoinEmpty(parts, " ");
      if parts != [] then [Join(parts, " ")] else []
  }

  /**
   `format_multi_line_address`: at most two lines, none empty; a PO box is
   the first line and hides the street and the unit; the city, state and
   ZIP code share the last line, joined by spaces.
   */
  function FormatMultiLineAddress(d: Components): (lines: seq<string>)
    ensures |d| == 0 ==> lines == []
    ensures |lines| <= 2
    ensures forall k :: 0 <= k < |lines| ==> lines[k] != ""
    ensures Present(d, PoBox) ==> |lines| >= 1 && lines[0] == d[PoBox]
    ensures |lines| == 0 <==> !(Present(d, StreetName) || Present(d, Unit) || Present(d, PoBox) ||
                               Present(d, City) || Present(d, State) || Present(d, ZipCode))
    ensures |d| > 0 ==> |lines| == |FirstLine(d)| + (if CityStateZip(d) == [] then 0 else 1)
    ensures |d| > 0 ==> lines[..|FirstLine(d)|] == FirstLine(d)
    ensures |d| > 0 && CityStateZip(d) != [] ==> lines[|lines| - 1] == Join(CityStateZip(d), " ")
  {
    if |d| == 0 then []
    else
      var csz := CityStateZip(d);
      JoinEmpty(csz, " ");
      var lines := FirstLine(d) + (if csz != [] then [Join(csz, " ")] else []);
      assert lines[..|FirstLine(d)|] == FirstLine(d);
      lines
  }

  /** With a PO box, the street number, street name and unit do not affect the mailing lines. */
  lemma PoBoxHidesStreet(d: Components)
    requires Present(d, PoBox)
    ensures FormatMultiLineAddress(d) == FormatMultiLineAddress(d - {StreetNumber, StreetName, Unit})
  {
    var e := d - {StreetNumber, StreetName, Unit};
    assert PoBox in e;
    assert FirstLine(d) == FirstLine(e);
    assert CityStateZip(d) == CityStateZip(e);
  }

  /** The city, state and ZIP code all present: "CITY<sep>ST<sep>ZIP". */
  lemma CityStateZipFull(d: Components, sep: string)
    requires Present(d, City) && Present(d, State) && Present(d, ZipCode)
    ensures CityStateZip(d) == [d[City], d[State], d[ZipCode]]
    ensures Join(CityStateZip(d), sep) == d[City] + sep + d[State] + sep + d[ZipCode]
  {
    JoinOfHead(d[State], [d[ZipCode]], sep);
    JoinOfHead(d[City], [d[State], d[ZipCode]], sep);
    assert [d[City]] + [d[State], d[ZipCode]] == CityStateZip(d);
  }

  /**
   A street address without unit or PO box: "N NAME, CITY, ST, ZIP" on one
   line; "N NAME" and "CITY ST ZIP" as mailing lines.
   */
  lemma StreetAddressRendering(d: Components)
    requires Present(d, StreetNumber) && Present(d, StreetName)
    requires Present(d, City) && Present(d, State) && Present(d, ZipCode)
    requires !Present(d, Unit) && !Present(d, PoBox)
    ensures FormatOutputLine(d) ==
      d[StreetNumber] + " " + d[StreetName] + ", " + d[City] + ", " + d[State] + ", " + d[ZipCode]
    ensures FormatMultiLineAddress(d) ==
      [d[StreetNumber] + " " + d[StreetName], d[City] + " " + d[State] + " " + d[ZipCode]]
  {
    var street := d[StreetNumber] + " " + d[StreetName];
    CityStateZipFull(d, ", ");
    CityStateZipFull(d, " ");
    assert LineParts(d) == [street] + CityStateZip(d);
    JoinOfHead(street, CityStateZip(d), ", ");
    assert FirstLine(d) == [street];
  }

  /**
   A street address with a unit: the unit is its own ", "-section on the
   single line and follows the street after a space on the first mailing line.
   */
  lemma UnitAddressRendering(d: Components)
    requires Present(d, StreetNumber) && Present(d, StreetName) && Present(d, Unit)
    requires Present(d, City) && Present(d, State) && Present(d, ZipCode)
    requires !Present(d, PoBox)
    ensures FormatOutputLine(d) ==
      d[StreetNumber] + " " + d[StreetName] + ", " + d[Unit] + ", " + d[City] + ", " + d[State] + ", " + d[ZipCode]
    ensures FormatMultiLineAddress(d) ==
      [d[StreetNumber] + " " + d[StreetName] + " " + d[Unit], d[City] + " " + d[State] + " " + d[ZipCode]]
  {
    var street := d[StreetNumber] + " " + d[StreetName];
    CityStateZipFull(d, ", ");
    CityStateZipFull(d, " ");
    assert LineParts(d) == [street] + ([d[Unit]] + CityStateZip(d));
    JoinOfHead(d[Unit], CityStateZip(d), ", ");
    JoinOfHead(street, [d[Unit]] + CityStateZip(d), ", ");
    assert StreetSection(d) + UnitSection(d) == [street] + [d[Unit]];
    JoinOfHead(street, [d[Unit]], " ");
  }

  /**
   A PO-box address without street or unit: "PO BOX N, CITY, ST, ZIP" on one
   line; the box and "CITY ST ZIP" as mailing lines.
   */
  lemma PoBoxAddressRendering(d: Components)
    requires Present(d, PoBox) && !Present(d, StreetName) && !Present(d, Unit)
    requires Present(d, City) && Present(d, State) && Present(d, ZipCode)
    ensures FormatOutputLine(d) == d[PoBox] + ", " + d[City] + ", " + d[State] + ", " + d[ZipCode]
    ensures FormatMultiLineAddress(d) == [d[PoBox], d[City] + " " + d[State] + " " + d[ZipCode]]
  {
    CityStateZipFull(d, ", ");
    CityStateZipFull(d, " ");
    assert LineParts(d) == [d[PoBox]] + CityStateZip(d);
    JoinOfHead(d[PoBox], CityStateZip(d), ", ");
  }

  // ---------------------------------------------------------------------------
  // create_formatted_address_result
  // ---------------------------------------------------------------------------

  /** The dictionary `create_formatted_address_result` returns. */
  datatype FormattedAddress = FormattedAddress(
    original: string,
    parsed: Components,
    formatted: Components,
    singleLine: string,
    multiLine: seq<string>,
    confidence: real,
    valid: bool,
    issues: seq<string>,
    addressType: string)

  /**
   `create_formatted_address_result`: the tagger output is normalized again and
   formatted; confidence and address type come from the parse, validity and
   issues from the validation. Every parse result carries `parsed` and
   `confidence` and every validation `valid` and `issues`, so of the
   dictionary defaults only the address type's "Unknown" can apply: on the
   error paths, where the key is absent.
   */
  function CreateFormattedAddressResult(original: string, parse: ParseResult, validation: Validation)
    : (r: FormattedAddress)
    ensures r.original == original
    ensures r.parsed == NormalizeComponents(parse.parsed)
    ensures r.formatted == FormatUspsStandard(UspsStandardizers, r.parsed)
    ensures r.singleLine == FormatOutputLine(r.formatted) && r.multiLine == FormatMultiLineAddress(r.formatted)
    ensures r.confidence == parse.confidence
    ensures r.valid == validation.valid && r.issues == validation.issues
    ensures parse.addressType.None? ==> r.addressType == "Unknown"
    ensures parse.addressType.Some? ==> r.addressType == parse.addressType.value
    ensures |parse.parsed| == 0 ==>
      r.parsed == map[] && r.formatted == map[] && r.singleLine == "" && r.multiLine == []
  {
    Render(original, NormalizeComponents(parse.parsed), parse, validation)
  }

  /** The result built around already normalized components: nothing to show when there are none. */
  function Render(original: string, normalized: Components, parse: ParseResult, validation: Validation)
    : (r: FormattedAddress)
    ensures r.original == original && r.parsed == normalized
    ensures r.formatted == FormatUspsStandard(UspsStandardizers, normalized)
    ensures r.singleLine == FormatOutputLine(r.formatted) && r.multiLine == FormatMultiLineAddress(r.formatted)
    ensures r.confidence == parse.confidence
    ensures r.valid == validation.valid && r.issues == validation.issues
    ensures r.addressType == parse.addressType.GetOr("Unknown")
    ensures |normalized| == 0 ==> r.formatted == map[] && r.singleLine == "" && r.multiLine == []
  {
    var formatted := FormatUspsStandard(UspsStandardizers, normalized);
    FormattedAddress(
      original, normalized, formatted,
      FormatOutputLine(formatted), FormatMultiLineAddress(formatted),
      parse.confidence, validation.valid, validation.issues,
      parse.addressType.GetOr("Unknown"))
  }
}
