/** The compile-time catalog of the TR-181 `Device.XPON.` objects the plugin
    knows about, and the path classifier that maps a concrete object path
    such as "XPON.ONU.1.ANI.1.Transceiver" to the catalog entry of its type. */
module DmInfo {
  import opened Wrappers
  import opened Strs

  // object_id_t: the declaration order gives the values 0..9.
  const ONU: nat := 0
  const SOFTWARE_IMAGE: nat := 1
  const ETHERNET_UNI: nat := 2
  const ANI: nat := 3
  const GEM_PORT: nat := 4
  const TRANSCEIVER: nat := 5
  const ANI_TC_ONU_ACTIVATION: nat := 6
  const ANI_TC_AUTHENTICATION: nat := 7
  const ANI_TC_PERFORMANCE_THRESHOLDS: nat := 8
  const ANI_TC_ALARMS: nat := 9
  /** Number of object types; also the value of "unknown". */
  const NBR: nat := 10
  const UNKNOWN: nat := NBR

  const ENABLE_PARAM: string := "Enable"
  const NAME_PARAM: string := "Name"
  const NAME_PARAM_LEN: nat := 4

  /** The amxc variant types the catalog uses for parameters. */
  datatype ParamType = Bool | CString | UInt32 | Int32 | CsvString

  datatype ParamInfo = ParamInfo(name: string, ptype: ParamType)

  /** object_info_t. `keyName` is None for singletons; `keyMaxValue` only
      matters when the key is a uint32 (a key whose name does not start with
      "Name"); the child lists are the comma-separated C strings, split. */
  datatype ObjectInfo = ObjectInfo(
    id: nat,
    name: string,
    genericPath: string,
    keyName: Option<string>,
    keyMaxValue: nat,
    singletons: seq<string>,
    templates: seq<string>,
    params: seq<ParamInfo>,
    hasRwEnable: bool)

  const ONU_PARAMS: seq<ParamInfo> := [
    ParamInfo(ENABLE_PARAM, Bool),
    ParamInfo("Version", CString),
    ParamInfo("EquipmentID", CString),
    ParamInfo("UsePPTPEthernetUNIasIFtoNonOmciDomain", Bool)
  ]

  const SOFTWARE_IMAGE_PARAMS: seq<ParamInfo> := [
    ParamInfo("Version", CString),
    ParamInfo("IsCommitted", Bool),
    ParamInfo("IsActive", Bool),
    ParamInfo("IsValid", Bool)
  ]

  const ETHERNET_UNI_PARAMS: seq<ParamInfo> := [
    ParamInfo("Enable", Bool),
    ParamInfo("Status", CString),
    ParamInfo("LastChange", UInt32),
    ParamInfo("ANIs", CsvString),
    ParamInfo("InterdomainID", CString),
    ParamInfo("InterdomainName", CString)
  ]

  const ANI_PARAMS: seq<ParamInfo> := [
    ParamInfo(ENABLE_PARAM, Bool),
    ParamInfo("Status", CString),
    ParamInfo("LastChange", UInt32),
    ParamInfo("PONMode", CString)
  ]

  const GEM_PORT_PARAMS: seq<ParamInfo> := [
    ParamInfo("Direction", CString),
    ParamInfo("PortType", CString)
  ]

  const TRANSCEIVER_PARAMS: seq<ParamInfo> := [
    ParamInfo("Identifier", UInt32),
    ParamInfo("VendorName", CString),
    ParamInfo("VendorPartNumber", CString),
    ParamInfo("VendorRevision", CString),
    ParamInfo("PONMode", CString),
    ParamInfo("Connector", CString),
    ParamInfo("NominalBitRateDownstream", UInt32),
    ParamInfo("NominalBitRateUpstream", UInt32),
    ParamInfo("RxPower", Int32),
    ParamInfo("TxPower", Int32),
    ParamInfo("Voltage", UInt32),
    ParamInfo("Bias", UInt32),
    ParamInfo("Temperature", Int32)
  ]

  const ONU_ACTIVATION_PARAMS: seq<ParamInfo> := [
    ParamInfo("ONUState", CString),
    ParamInfo("VendorID", CString),
    ParamInfo("SerialNumber", CString),
    ParamInfo("ONUID", UInt32)
  ]

  const AUTHENTICATION_PARAMS: seq<ParamInfo> := [
    ParamInfo("Password", CString),
    ParamInfo("HexadecimalPassword", Bool)
  ]

  const PERFORMANCE_THRESHOLDS_PARAMS: seq<ParamInfo> := [
    ParamInfo("SignalFail", UInt32),
    ParamInfo("SignalDegrade", UInt32)
  ]

  const TC_ALARMS_PARAMS: seq<ParamInfo> := [
    ParamInfo("LOS", Bool), ParamInfo("LOF", Bool), ParamInfo("SF", Bool),
    ParamInfo("SD", Bool), ParamInfo("LCDG", Bool), ParamInfo("TF", Bool),
    ParamInfo("SUF", Bool), ParamInfo("MEM", Bool), ParamInfo("DACT", Bool),
    ParamInfo("DIS", Bool), ParamInfo("MIS", Bool), ParamInfo("PEE", Bool),
    ParamInfo("RDI", Bool), ParamInfo("LODS", Bool), ParamInfo("ROGUE", Bool)
  ]

  // Generic paths of the catalog entries.
  const ONU_PATH: string := "XPON.ONU"
  const SOFTWARE_IMAGE_PATH: string := ONU_PATH + ".x." + "SoftwareImage"
  const ETHERNET_UNI_PATH: string := ONU_PATH + ".x." + "EthernetUNI"
  const ANI_PATH: string := ONU_PATH + ".x." + "ANI"
  const GEM_PORT_PATH: string := ANI_PATH + ".x." + "TC.GEM.Port"
  const TRANSCEIVER_PATH: string := ANI_PATH + ".x." + "Transceiver"
  const ONU_ACTIVATION_PATH: string := ANI_PATH + ".x." + "TC.ONUActivation"
  const AUTHENTICATION_PATH: string := ANI_PATH + ".x." + "TC.Authentication"
  const PERFORMANCE_THRESHOLDS_PATH: string := ANI_PATH + ".x." + "TC.PerformanceThresholds"
  const TC_ALARMS_PATH: string := ANI_PATH + ".x." + "TC.Alarms"

  /** OBJECT_INFO: entry i describes the object type with id i. */
  const OBJECT_INFO: seq<ObjectInfo> := [
    ObjectInfo(ONU, "ONU", ONU_PATH, Some(NAME_PARAM), 0,
               [], ["SoftwareImage", "EthernetUNI", "ANI"], ONU_PARAMS, true),
    ObjectInfo(SOFTWARE_IMAGE, "SoftwareImage", SOFTWARE_IMAGE_PATH, Some("ID"), 1,
               [], [], SOFTWARE_IMAGE_PARAMS, false),
    ObjectInfo(ETHERNET_UNI, "EthernetUNI", ETHERNET_UNI_PATH, Some(NAME_PARAM), 0,
               [], [], ETHERNET_UNI_PARAMS, false),
    ObjectInfo(ANI, "ANI", ANI_PATH, Some(NAME_PARAM), 0,
               ["TC.ONUActivation", "TC.PerformanceThresholds", "TC.Alarms"],
               ["TC.GEM.Port", "Transceiver"], ANI_PARAMS, true),
    ObjectInfo(GEM_PORT, "GEMPort", GEM_PORT_PATH, Some("PortID"), 65534,
               [], [], GEM_PORT_PARAMS, false),
    ObjectInfo(TRANSCEIVER, "Transceiver", TRANSCEIVER_PATH, Some("ID"), 1,
               [], [], TRANSCEIVER_PARAMS, false),
    ObjectInfo(ANI_TC_ONU_ACTIVATION, "ONUActivation", ONU_ACTIVATION_PATH, None, 0,
               [], [], ONU_ACTIVATION_PARAMS, false),
    ObjectInfo(ANI_TC_AUTHENTICATION, "Authentication", AUTHENTICATION_PATH, None, 0,
               [], [], AUTHENTICATION_PARAMS, false),
    ObjectInfo(ANI_TC_PERFORMANCE_THRESHOLDS, "PerformanceThresholds",
               PERFORMANCE_THRESHOLDS_PATH, None, 0,
               [], [], PERFORMANCE_THRESHOLDS_PARAMS, false),
    ObjectInfo(ANI_TC_ALARMS, "TC.Alarms", TC_ALARMS_PATH, None, 0,
               [], [], TC_ALARMS_PARAMS, false)
  ]

  /** The key of an entry holds a uint32 (and is bounded by keyMaxValue)
      unless its name starts with "Name". */
  predicate KeyIsUInt32(info: ObjectInfo)
    requires info.keyName.Some?
  {
    !StartsWith(info.keyName.value, NAME_PARAM[..NAME_PARAM_LEN])
  }

  // ---------------------------------------------------------------------
  // dm_info_init: sanity check of the table
  // ---------------------------------------------------------------------

  /** dm_info_init(): accepts a table iff the entry at index i has id i. */
  method InfoInit(table: seq<ObjectInfo>) returns (ok: bool)
    ensures ok <==> forall i :: 0 <= i < |table| ==> table[i].id == i
  {
    var i := 0;
    while i < |table|
      invariant 0 <= i <= |table|
      invariant forall j :: 0 <= j < i ==> table[j].id == j
    {
      if table[i].id != i {
        return false;
      }
      i := i + 1;
    }
    return true;
  }

  /** The shipped catalog passes that check; its ids are the object types
      in declaration order, the unknown id is the number of types, and
      NAME_PARAM_LEN is the length of "Name". */
  lemma ShippedTableIsConsistent()
    ensures forall i :: 0 <= i < |OBJECT_INFO| ==> OBJECT_INFO[i].id == i
    ensures |OBJECT_INFO| == NBR && UNKNOWN == NBR
    ensures [ONU, SOFTWARE_IMAGE, ETHERNET_UNI, ANI, GEM_PORT, TRANSCEIVER,
             ANI_TC_ONU_ACTIVATION, ANI_TC_AUTHENTICATION,
             ANI_TC_PERFORMANCE_THRESHOLDS, ANI_TC_ALARMS] == [0, 1, 2, 3, 4, 5, 6, 7, 8, 9]
    ensures NAME_PARAM_LEN == |NAME_PARAM|
  {
  }

  // ---------------------------------------------------------------------
  // Lookups by id
  // ---------------------------------------------------------------------

  /** dm_get_object_info(): the entry for a valid id, None (NULL) otherwise. */
  function GetObjectInfo(id: nat): (r: Option<ObjectInfo>)
    ensures r.Some? <==> id < NBR
    ensures r.Some? ==> r.value.id == id && r.value == OBJECT_INFO[id]
  {
    if id < NBR then Some(OBJECT_INFO[id]) else None
  }

  /** dm_get_object_param_info(): the parameter list for a valid id. */
  function GetObjectParamInfo(id: nat): (r: Option<seq<ParamInfo>>)
    ensures r.Some? <==> id < UNKNOWN
    ensures r.Some? ==> r.value == GetObjectInfo(id).value.params
  {
    if id < NBR then Some(OBJECT_INFO[id].params) else None
  }

  /** Type of the parameter called exactly `name` (same length and bytes). */
  function LookupParam(params: seq<ParamInfo>, name: string): (r: Option<ParamType>)
    ensures r.Some? ==> exists i :: 0 <= i < |params| && params[i].name == name && params[i].ptype == r.value
    ensures r.None? <==> forall i :: 0 <= i < |params| ==> params[i].name != name
  {
    if |params| == 0 then None
    else if params[0].name == name then Some(params[0].ptype)
    else
      var r := LookupParam(params[1..], name);
      assert forall i :: 1 <= i < |params| ==> params[i] == params[1..][i - 1];
      r
  }

  // ---------------------------------------------------------------------
  // Path classification
  // ---------------------------------------------------------------------

  /** The segments left after dropping a trailing all-digit segment. */
  function DropTrailingIndex(segs: seq<string>): seq<string>
    requires |segs| > 0
  {
    if IsNumeric(Last(segs)) then segs[..|segs| - 1] else segs
  }

  /** Every all-digit segment replaced by "x". */
  function Generalize(segs: seq<string>): (r: seq<string>)
    ensures |r| == |segs|
  {
    seq(|segs|, i requires 0 <= i < |segs| => if IsNumeric(segs[i]) then "x" else segs[i])
  }

  /** dm_convert_to_generic_path(): None when the path splits into nothing
      (the empty path), else the generic form of the path. */
  function ToGeneric(path: string): (r: Option<string>)
    ensures r.None? <==> path == ""
  {
    if path == "" then None
    else Some(Join(Generalize(DropTrailingIndex(Split(path, '.'))), '.'))
  }

  predicate NoDigits(s: string) {
    forall i :: 0 <= i < |s| ==> !IsDigit(s[i])
  }

  lemma SplitChars(s: string, d: char)
    ensures forall k, j :: 0 <= k < |Split(s, d)| && 0 <= j < |Split(s, d)[k]| ==> Split(s, d)[k][j] in s
    decreases |s|
  {
    if d in s {
      var i := IndexOf(s, d);
      SplitChars(s[i + 1..], d);
      var rest := Split(s[i + 1..], d);
      assert Split(s, d) == [s[..i]] + rest;
      forall k, j | 0 <= k < |Split(s, d)| && 0 <= j < |Split(s, d)[k]|
        ensures Split(s, d)[k][j] in s
      {
        if k == 0 {
          assert s[..i][j] == s[j];
        } else {
          assert Split(s, d)[k] == rest[k - 1];
          assert rest[k - 1][j] in s[i + 1..];
        }
      }
    }
  }

  /** A path without digits has no all-digit segment. */
  lemma NoDigitsNoNumericSegment(s: string, d: char)
    requires NoDigits(s)
    ensures forall k :: 0 <= k < |Split(s, d)| ==> !IsNumeric(Split(s, d)[k])
  {
    SplitChars(s, d);
    forall k | 0 <= k < |Split(s, d)| ensures !IsNumeric(Split(s, d)[k]) {
      var seg := Split(s, d)[k];
      if |seg| > 0 {
        assert seg[0] in s;
      }
    }
  }

  /** Conversion leaves a non-empty path with no all-digit segment alone. */
  lemma {:induction false} ToGenericFixedPoint(g: string)
    requires g != ""
    requires forall k :: 0 <= k < |Split(g, '.')| ==> !IsNumeric(Split(g, '.')[k])
    ensures ToGeneric(g) == Some(g)
  {
    var segs := Split(g, '.');
    assert DropTrailingIndex(segs) == segs;
    assert Generalize(segs) == segs;
    JoinSplit(g, '.');
  }

  /** The generic form of a path is itself generic: it has no all-digit
      segment, and its segments are those of the path with the trailing
      index dropped and every other index replaced by "x". */
  lemma {:induction false} ToGenericSegments(path: string)
    requires path != ""
    requires |DropTrailingIndex(Split(path, '.'))| > 0
    ensures var kept := DropTrailingIndex(Split(path, '.'));
            var gsegs := Split(ToGeneric(path).value, '.');
            && |gsegs| == |kept|
            && (forall k :: 0 <= k < |kept| ==> gsegs[k] == (if IsNumeric(kept[k]) then "x" else kept[k]))
            && (forall k :: 0 <= k < |gsegs| ==> !IsNumeric(gsegs[k]))
  {
    var segs := Split(path, '.');
    var kept := DropTrailingIndex(segs);
    var gen := Generalize(kept);
    forall k | 0 <= k < |gen| ensures '.' !in gen[k] && !IsNumeric(gen[k]) {
      if IsNumeric(kept[k]) {
        assert gen[k] == "x";
        assert !IsDigit("x"[0]);
      } else {
        assert kept[k] == segs[k];
      }
    }
    SplitJoin(gen, '.');
  }

  /** Converting twice is converting once. */
  lemma ToGenericIdempotent(path: string)
    requires path != "" && ToGeneric(path).value != ""
    ensures ToGeneric(ToGeneric(path).value) == ToGeneric(path)
  {
    if |DropTrailingIndex(Split(path, '.'))| > 0 {
      ToGenericSegments(path);
      ToGenericFixedPoint(ToGeneric(path).value);
    }
  }

  /** Index of the first catalog entry at or after `i` whose generic path is
      exactly `g`, or NBR when there is none. */
  function FindGenericPath(g: string, i: nat): (r: nat)
    requires i <= NBR
    ensures i <= r <= NBR
    ensures r < NBR ==> OBJECT_INFO[r].genericPath == g
    ensures forall j :: i <= j < r ==> OBJECT_INFO[j].genericPath != g
    decreases NBR - i
  {
    if i == NBR then NBR
    else if OBJECT_INFO[i].genericPath == g then i
    else FindGenericPath(g, i + 1)
  }

  /** dm_get_object_id(): the id of the entry whose generic path equals the
      generic form of `path`, or UNKNOWN when conversion fails or nothing
      matches. */
  function GetObjectId(path: string): (r: nat)
    ensures r <= UNKNOWN
    ensures r < NBR ==> ToGeneric(path) == Some(OBJECT_INFO[r].genericPath)
    ensures r == UNKNOWN <==>
      (ToGeneric(path).None? || forall j :: 0 <= j < NBR ==> OBJECT_INFO[j].genericPath != ToGeneric(path).value)
  {
    match ToGeneric(path)
    case None => UNKNOWN
    case Some(g) => FindGenericPath(g, 0)
  }

  /** The catalog's generic paths are pairwise distinct. */
  lemma CatalogPathsDistinct()
    ensures forall i, j :: 0 <= i < j < NBR ==> OBJECT_INFO[i].genericPath != OBJECT_INFO[j].genericPath
  {
    CatalogGenericPaths();
    assert GEM_PORT_PATH[18] != TRANSCEIVER_PATH[18];
  }

  /** So at most one entry matches a path, and the match is the answer. */
  lemma ClassifyUnique(path: string, i: nat)
    requires i < NBR
    requires ToGeneric(path) == Some(OBJECT_INFO[i].genericPath)
    ensures GetObjectId(path) == i
  {
    CatalogPathsDistinct();
  }

  lemma CatalogPathsHaveNoDigits()
    ensures forall i :: 0 <= i < NBR ==> NoDigits(OBJECT_INFO[i].genericPath)
  {
    forall i | 0 <= i < NBR ensures NoDigits(OBJECT_INFO[i].genericPath) {
      NoDigitsCatalogEntry(i);
    }
  }

  /** The generic path of each catalog entry, by id. */
  function GenericPathOf(id: nat): string
    requires id < NBR
  {
    if id == ONU then ONU_PATH
    else if id == SOFTWARE_IMAGE then SOFTWARE_IMAGE_PATH
    else if id == ETHERNET_UNI then ETHERNET_UNI_PATH
    else if id == ANI then ANI_PATH
    else if id == GEM_PORT then GEM_PORT_PATH
    else if id == TRANSCEIVER then TRANSCEIVER_PATH
    else if id == ANI_TC_ONU_ACTIVATION then ONU_ACTIVATION_PATH
    else if id == ANI_TC_AUTHENTICATION then AUTHENTICATION_PATH
    else if id == ANI_TC_PERFORMANCE_THRESHOLDS then PERFORMANCE_THRESHOLDS_PATH
    else TC_ALARMS_PATH
  }

  lemma CatalogGenericPaths()
    ensures forall i :: 0 <= i < NBR ==> OBJECT_INFO[i].genericPath == GenericPathOf(i)
  {
  }

  lemma NoDigitsCatalogEntry(i: nat)
    requires i < NBR
    ensures NoDigits(OBJECT_INFO[i].genericPath)
  {
    if i == 0 {
      assert OBJECT_INFO[i].genericPath == ONU_PATH;
      NoDigitsPath0();
    } else if i == 1 {
      assert OBJECT_INFO[i].genericPath == SOFTWARE_IMAGE_PATH;
      NoDigitsPath1();
    } else if i == 2 {
      assert OBJECT_INFO[i].genericPath == ETHERNET_UNI_PATH;
      NoDigitsPath2();
    } else if i == 3 {
      assert OBJECT_INFO[i].genericPath == ANI_PATH;
      NoDigitsPath3();
    } else if i == 4 {
      assert OBJECT_INFO[i].genericPath == GEM_PORT_PATH;
      NoDigitsPath4();
    } else if i == 5 {
      assert OBJECT_INFO[i].genericPath == TRANSCEIVER_PATH;
      NoDigitsPath5();
    } else if i == 6 {
      assert OBJECT_INFO[i].genericPath == ONU_ACTIVATION_PATH;
      NoDigitsPath6();
    } else if i == 7 {
      assert OBJECT_INFO[i].genericPath == AUTHENTICATION_PATH;
      NoDigitsPath7();
    } else if i == 8 {
      assert OBJECT_INFO[i].genericPath == PERFORMANCE_THRESHOLDS_PATH;
      NoDigitsPath8();
    } else {
      assert OBJECT_INFO[i].genericPath == TC_ALARMS_PATH;
      NoDigitsPath9();
    }
  }

  lemma NoDigitsPath0() ensures NoDigits(ONU_PATH) {}
  lemma NoDigitsPath1() ensures NoDigits(SOFTWARE_IMAGE_PATH) {}
  lemma NoDigitsPath2() ensures NoDigits(ETHERNET_UNI_PATH) {}
  lemma NoDigitsPath3() ensures NoDigits(ANI_PATH) {}
  lemma NoDigitsPath4() ensures NoDigits(GEM_PORT_PATH) {}
  lemma NoDigitsPath5() ensures NoDigits(TRANSCEIVER_PATH) {}
  lemma NoDigitsPath6() ensures NoDigits(ONU_ACTIVATION_PATH) {}
  lemma NoDigitsPath7() ensures NoDigits(AUTHENTICATION_PATH) {}
  lemma NoDigitsPath8() ensures NoDigits(PERFORMANCE_THRESHOLDS_PATH) {}
  lemma NoDigitsPath9() ensures NoDigits(TC_ALARMS_PATH) {}

  /** Classifying the generic path of entry i gives i. */
  lemma ClassifyCatalogPath(i: nat)
    requires i < NBR
    ensures GetObjectId(OBJECT_INFO[i].genericPath) == i
  {
    var g := OBJECT_INFO[i].genericPath;
    CatalogPathsHaveNoDigits();
    NoDigitsNoNumericSegment(g, '.');
    ToGenericFixedPoint(g);
    ClassifyUnique(g, i);
  }

  /** An instance path classifies like its template path, e.g. "XPON.ONU.3"
      and "XPON.ONU" both give ONU. */
  lemma ClassifyInstanceLikeTemplate(templ: string, index: nat)
    requires templ != ""
    requires !IsNumeric(Last(Split(templ, '.')))
    ensures GetObjectId(templ + "." + NatToString(index)) == GetObjectId(templ)
  {
    var s := NatToString(index);
    SplitAppend(templ, s, '.');
    var segs := Split(templ, '.');
    assert Split(templ + "." + s, '.') == segs + [s];
    assert DropTrailingIndex(segs + [s]) == segs;
    assert ToGeneric(templ + "." + s) == ToGeneric(templ);
  }

  /** An instance path under a catalog entry's generic path, e.g.
      "XPON.ONU" + ".3", classifies as that entry. */
  lemma ClassifyInstancePath(i: nat, index: nat)
    requires i < NBR
    ensures GetObjectId(OBJECT_INFO[i].genericPath + "." + NatToString(index)) == i
  {
    var g := OBJECT_INFO[i].genericPath;
    ClassifyCatalogPath(i);
    CatalogPathsHaveNoDigits();
    NoDigitsNoNumericSegment(g, '.');
    ClassifyInstanceLikeTemplate(g, index);
  }

  // ---------------------------------------------------------------------
  // Sub-objects the host creates with a new instance
  // ---------------------------------------------------------------------

  /** A sub-object of an instance: path relative to the instance, whether it
      is a template, and its catalog id. */
  datatype SubObject = SubObject(rel: string, isTemplate: bool, id: nat)

  /** The catalog objects directly below an instance of type `id` (one
      index level deeper in the generic paths). The host creates them
      together with the instance. */
  function SubObjects(id: nat): seq<SubObject>
  {
    if id == ONU then
      [SubObject("SoftwareImage", true, SOFTWARE_IMAGE),
       SubObject("EthernetUNI", true, ETHERNET_UNI),
       SubObject("ANI", true, ANI)]
    else if id == ANI then
      [SubObject("TC.GEM.Port", true, GEM_PORT),
       SubObject("Transceiver", true, TRANSCEIVER),
       SubObject("TC.ONUActivation", false, ANI_TC_ONU_ACTIVATION),
       SubObject("TC.Authentication", false, ANI_TC_AUTHENTICATION),
       SubObject("TC.PerformanceThresholds", false, ANI_TC_PERFORMANCE_THRESHOLDS),
       SubObject("TC.Alarms", false, ANI_TC_ALARMS)]
    else []
  }

  /** The sub-object table agrees with the catalog: each sub-object's
      generic path is the parent's plus ".x." plus its relative path, and it
      is a template iff its catalog entry has a key. */
  lemma SubObjectsMatchCatalog(p: nat, k: nat)
    requires p < NBR && k < |SubObjects(p)|
    ensures SubObjects(p)[k].id < NBR
    ensures OBJECT_INFO[SubObjects(p)[k].id].genericPath == OBJECT_INFO[p].genericPath + ".x." + SubObjects(p)[k].rel
    ensures SubObjects(p)[k].isTemplate <==> OBJECT_INFO[SubObjects(p)[k].id].keyName.Some?
  {
    CatalogGenericPaths();
  }
}
