/** The pure rules of the front-end observation store (src/stores/vespaStore.js):
    marker status from observation data, the status-to-style table, the date
    formatting of the filter query, the filter record with its shallow merge,
    and the query-string terms the filters produce. */
module StoreRules {
  import opened Wrappers
  import opened Text
  import opened Uri

  /** The JavaScript values the store compares with ===, !== and typeof. */
  datatype JsValue = Undefined | Null | Bool(b: bool) | Num(n: int) | Str(s: string)

  /** A plain JavaScript object: its own keys and their values. */
  type JsObject = map<string, JsValue>

  /** Property access: an absent key reads as undefined. */
  function Get(o: JsObject, key: string): JsValue {
    if key in o then o[key] else Undefined
  }

  /** `v !== null && typeof v !== 'undefined'`. */
  predicate IsSet(v: JsValue) {
    v != Null && v != Undefined
  }

  /** String(v), as a template literal or encodeURIComponent converts a value. */
  function JsString(v: JsValue): string {
    match v
    case Undefined => "undefined"
    case Null => "null"
    case Bool(b) => if b then "true" else "false"
    case Num(n) => if n < 0 then "-" + NatToString(-n) else NatToString(n)
    case Str(s) => s
  }

  // ---------------------------------------------------------------- status

  const ERADICATED := "eradicated"
  const VISITED := "visited"
  const RESERVED := "reserved"
  const UNTREATED := "untreated"

  predicate IsKnownStatus(status: string) {
    status == ERADICATED || status == VISITED || status == RESERVED || status == UNTREATED
  }

  /** determineStatusFromObservationData; None stands for a null or undefined argument. */
  function DetermineStatus(data: Option<JsObject>): (status: string)
    ensures IsKnownStatus(status)
  {
    match data
    case None => UNTREATED
    case Some(o) =>
      if Get(o, "eradication_result") == Str("successful") then ERADICATED
      else if IsSet(Get(o, "eradication_result")) then VISITED
      else if IsSet(Get(o, "reserved_by")) then RESERVED
      else UNTREATED
  }

  /** Each status, characterised by the observation fields that lead to it. */
  lemma DetermineStatusCharacterised(o: JsObject)
    ensures DetermineStatus(Some(o)) == ERADICATED <==> Get(o, "eradication_result") == Str("successful")
    ensures DetermineStatus(Some(o)) == VISITED
      <==> IsSet(Get(o, "eradication_result")) && Get(o, "eradication_result") != Str("successful")
    ensures DetermineStatus(Some(o)) == RESERVED
      <==> !IsSet(Get(o, "eradication_result")) && IsSet(Get(o, "reserved_by"))
    ensures DetermineStatus(Some(o)) == UNTREATED
      <==> !IsSet(Get(o, "eradication_result")) && !IsSet(Get(o, "reserved_by"))
    ensures DetermineStatus(None) == UNTREATED
  {
  }

  /** A successful eradication outranks a reservation: who holds the nest does not matter. */
  lemma EradicatedWhateverReservation(o: JsObject, holder: JsValue)
    requires Get(o, "eradication_result") == Str("successful")
    ensures DetermineStatus(Some(o["reserved_by" := holder])) == ERADICATED
  {
  }

  /** Marker style; fillOpacity is in hundredths (0.8 is 80). */
  datatype Style = Style(fillColor: string, borderColor: string, baseWeight: nat, fillOpacity: nat)

  /** getColorStylesByStatus: the four known statuses have their own style;
      every other status, "default" included, is drawn like "untreated". */
  function StyleFor(status: string): (st: Style)
    ensures st.fillOpacity <= 100 && st.baseWeight >= 1
    ensures !IsKnownStatus(status) ==> st == Style("#212529", "#000000", 1, 80)
    ensures status == ERADICATED <==> st.fillColor == "#198754"
    ensures status == VISITED <==> st.fillColor == "#FFFFFF"
    ensures status == RESERVED <==> st.fillColor == "#ffc107"
  {
    if status == ERADICATED then Style("#198754", "#145c3f", 1, 80)
    else if status == VISITED then Style("#FFFFFF", "#198754", 2, 90)
    else if status == RESERVED then Style("#ffc107", "#cc9a05", 1, 80)
    else Style("#212529", "#000000", 1, 80)
  }

  /** The style tells the four statuses apart, and an unknown status looks untreated. */
  lemma StyleDistinguishesStatuses(s1: string, s2: string)
    requires IsKnownStatus(s1) && IsKnownStatus(s2)
    ensures StyleFor(s1) == StyleFor(s2) <==> s1 == s2
    ensures !IsKnownStatus("default") && StyleFor("default") == StyleFor(UNTREATED)
  {
  }

  // ---------------------------------------------------------------- dates

  /** A calendar date as the store reads it, already in Brussels time. */
  datatype Date = Date(year: nat, month: nat, day: nat)

  /** new Date('April 1, 2025'), the floor applied when no minimum date is set. */
  const DEFAULT_MIN_DATE := Date(2025, 4, 1)

  /** `if (x.length < 2) x = '0' + x`. */
  function Pad2(s: string): string {
    if |s| < 2 then "0" + s else s
  }

  /** formatDateWithoutTime: `[year, month, day].join('-')` with month and day padded. */
  function FormatDateWithoutTime(d: Date): string {
    Join([NatToString(d.year), Pad2(NatToString(d.month)), Pad2(NatToString(d.day))], "-")
  }

  /** formatDateWithEndOfDayTime. */
  function FormatDateWithEndOfDayTime(d: Date): string {
    FormatDateWithoutTime(d) + " 23:59:59"
  }

  /** Reads "Y-M-D" made of three digit runs back into a date. */
  function ParseDate(s: string): Option<Date> {
    var pieces := Split(s, '-');
    if |pieces| == 3 && AllDigits(pieces[0]) && AllDigits(pieces[1]) && AllDigits(pieces[2])
    then Some(Date(ParseDigits(pieces[0]), ParseDigits(pieces[1]), ParseDigits(pieces[2])))
    else None
  }

  lemma Pad2Digits(n: nat)
    ensures AllDigits(Pad2(NatToString(n))) && '-' !in Pad2(NatToString(n))
    ensures ParseDigits(Pad2(NatToString(n))) == ParseDigits(NatToString(n))
    ensures n < 100 ==> |Pad2(NatToString(n))| == 2
  {
    NatToStringLength(n);
    var s := NatToString(n);
    if |s| < 2 {
      assert ("0" + s)[..1] == "0";
    }
  }

  /** The formatted date reads back as the same date: padding loses nothing. */
  lemma {:induction false} ParseFormatDate(d: Date)
    ensures ParseDate(FormatDateWithoutTime(d)) == Some(d)
  {
    var y, m, dd := NatToString(d.year), Pad2(NatToString(d.month)), Pad2(NatToString(d.day));
    Pad2Digits(d.month);
    Pad2Digits(d.day);
    ParseNatToString(d.year);
    ParseNatToString(d.month);
    ParseNatToString(d.day);
    assert '-' !in y;
    SplitJoin([y, m, dd], '-');
  }

  /** A four-digit year gives the ten-character YYYY-MM-DD form with two-digit month and day. */
  lemma {:induction false} FormatDateShape(d: Date)
    requires 1000 <= d.year < 10000 && 1 <= d.month <= 12 && 1 <= d.day <= 31
    ensures var r := FormatDateWithoutTime(d);
      |r| == 10 && r[4] == '-' && r[7] == '-' && AllDigits(r[..4]) && AllDigits(r[5..7]) && AllDigits(r[8..])
    ensures |FormatDateWithEndOfDayTime(d)| == 19
    ensures FormatDateWithEndOfDayTime(d)[10..] == " 23:59:59"
  {
    NatToStringLength(d.year);
    Pad2Digits(d.month);
    Pad2Digits(d.day);
    var y, m, dd := NatToString(d.year), Pad2(NatToString(d.month)), Pad2(NatToString(d.day));
    assert [y, m, dd][1..] == [m, dd] && [m, dd][1..] == [dd];
    assert Join([m, dd], "-") == m + "-" + dd;
    assert FormatDateWithoutTime(d) == y + "-" + (m + "-" + dd);
  }

  // ---------------------------------------------------------------- filters

  /** The store's `filters` object. Municipality and province ids are held as
      the text String(id) gives; nestType and nestStatus are None when null. */
  datatype Filters = Filters(
    municipalities: seq<string>,
    provinces: seq<string>,
    anbAreasActief: JsValue,
    nestType: Option<seq<string>>,
    nestStatus: Option<seq<string>>,
    minDate: Option<Date>,
    maxDate: Option<Date>)

  /** The filters the store starts with. */
  const INITIAL_FILTERS := Filters([], [], Null, None, None, None, None)

  /** The argument of applyFilters: a field is Some exactly when the argument has that key. */
  datatype FilterPatch = FilterPatch(
    municipalities: Option<seq<string>>,
    provinces: Option<seq<string>>,
    anbAreasActief: Option<JsValue>,
    nestType: Option<Option<seq<string>>>,
    nestStatus: Option<Option<seq<string>>>,
    minDate: Option<Option<Date>>,
    maxDate: Option<Option<Date>>)

  const EMPTY_PATCH := FilterPatch(None, None, None, None, None, None, None)

  /** `{ ...filters, ...patch }`. */
  function Merge(f: Filters, p: FilterPatch): Filters {
    Filters(
      p.municipalities.GetOr(f.municipalities),
      p.provinces.GetOr(f.provinces),
      p.anbAreasActief.GetOr(f.anbAreasActief),
      p.nestType.GetOr(f.nestType),
      p.nestStatus.GetOr(f.nestStatus),
      p.minDate.GetOr(f.minDate),
      p.maxDate.GetOr(f.maxDate))
  }

  /** Two patches applied in turn, the later one winning on shared keys. */
  function Then(p: FilterPatch, q: FilterPatch): FilterPatch {
    FilterPatch(
      if q.municipalities.Some? then q.municipalities else p.municipalities,
      if q.provinces.Some? then q.provinces else p.provinces,
      if q.anbAreasActief.Some? then q.anbAreasActief else p.anbAreasActief,
      if q.nestType.Some? then q.nestType else p.nestType,
      if q.nestStatus.Some? then q.nestStatus else p.nestStatus,
      if q.minDate.Some? then q.minDate else p.minDate,
      if q.maxDate.Some? then q.maxDate else p.maxDate)
  }

  /** The shallow merge: an empty patch changes nothing, a patch applied twice
      is applied once, and successive merges compose with the later key winning. */
  lemma MergeLaws(f: Filters, p: FilterPatch, q: FilterPatch)
    ensures Merge(f, EMPTY_PATCH) == f
    ensures Merge(Merge(f, p), p) == Merge(f, p)
    ensures Merge(Merge(f, p), q) == Merge(f, Then(p, q))
  {
  }

  /** Keys absent from the patch keep their previous values; present keys take the patch's. */
  lemma MergeKeepsAbsentKeys(f: Filters, p: FilterPatch)
    ensures p.municipalities.None? ==> Merge(f, p).municipalities == f.municipalities
    ensures p.municipalities.Some? ==> Merge(f, p).municipalities == p.municipalities.value
    ensures p.anbAreasActief.None? ==> Merge(f, p).anbAreasActief == f.anbAreasActief
    ensures p.minDate.None? ==> Merge(f, p).minDate == f.minDate
    ensures p.maxDate.Some? ==> Merge(f, p).maxDate == p.maxDate.value
  {
  }

  /** resetFilters: everything cleared except the minimum date, which defaults to 2025-04-01. */
  function FiltersAfterReset(minDate: Option<Date>): (f: Filters)
    ensures f.municipalities == [] && f.provinces == [] && f.anbAreasActief == Null
    ensures f.nestType.None? && f.nestStatus.None? && f.maxDate.None?
    ensures f.minDate == Some(if minDate.Some? then minDate.value else DEFAULT_MIN_DATE)
  {
    Filters([], [], Null, None, None, Some(minDate.GetOr(DEFAULT_MIN_DATE)), None)
  }

  // ---------------------------------------------------------------- query

  /** One `name=value` term. */
  function Pair(name: string, value: string): string {
    name + "=" + value
  }

  /** One `name=<encodeURIComponent(value)>` pair per value, in order. */
  function Params(name: string, values: seq<string>): (parts: seq<string>)
    ensures |parts| == |values|
  {
    seq(|values|, i requires 0 <= i < |values| => Pair(name, EncodeURIComponent(values[i])))
  }

  lemma ParamsOfNone(name: string, values: seq<string>)
    requires |values| == 0
    ensures Params(name, values) == []
  {
  }

  function ListOrEmpty(l: Option<seq<string>>): seq<string> {
    if l.Some? then l.value else []
  }

  function MinDateOrDefault(f: Filters): Date {
    f.minDate.GetOr(DEFAULT_MIN_DATE)
  }

  function AnbParts(f: Filters): seq<string> {
    if f.anbAreasActief != Null then [Pair("anb", EncodeURIComponent(JsString(f.anbAreasActief)))] else []
  }

  function MinDatePart(f: Filters): string {
    Pair("min_observation_datetime", EncodeURIComponent(FormatDateWithoutTime(MinDateOrDefault(f))))
  }

  function MaxDateParts(f: Filters): seq<string> {
    if f.maxDate.Some?
    then [Pair("max_observation_datetime", EncodeURIComponent(FormatDateWithEndOfDayTime(f.maxDate.value)))]
    else []
  }

  function NestTypeParts(f: Filters): seq<string> {
    if f.nestType.Some? && |f.nestType.value| > 0 then Params("nest_type", f.nestType.value) else []
  }

  function NestStatusParts(f: Filters): seq<string> {
    if f.nestStatus.Some? && |f.nestStatus.value| > 0 then Params("nest_status", f.nestStatus.value) else []
  }

  /** The queryParts list createFilterQuery builds, in push order. */
  function FilterParts(f: Filters): seq<string> {
    Params("municipality_id", f.municipalities)
    + Params("province_id", f.provinces)
    + AnbParts(f)
    + NestTypeParts(f)
    + NestStatusParts(f)
    + [MinDatePart(f)]
    + MaxDateParts(f)
  }

  /** The list built segment by segment, in push order, is FilterParts. */
  lemma FilterPartsInPushOrder(f: Filters, a: seq<string>, b: seq<string>, c: seq<string>,
                               d: seq<string>, e: seq<string>, m: seq<string>, q: seq<string>)
    requires a == Params("municipality_id", f.municipalities)
    requires b == a + Params("province_id", f.provinces)
    requires c == b + AnbParts(f)
    requires d == c + NestTypeParts(f)
    requires e == d + NestStatusParts(f)
    requires m == e + [MinDatePart(f)]
    requires q == m + MaxDateParts(f)
    ensures q == FilterParts(f)
  {
  }

  /** createFilterQuery's result. */
  function FilterQuery(f: Filters): string {
    Join(FilterParts(f), "&")
  }

  /** The query getObservationsGeoJson sends: the filter query, plus a second
      unencoded default floor when no minimum date is set. */
  function OutgoingQuery(f: Filters): string {
    var q := FilterQuery(f);
    if f.minDate.None?
    then q + (if q != "" then "&" else "") + Pair("min_observation_datetime", FormatDateWithoutTime(DEFAULT_MIN_DATE))
    else q
  }

  // ------------------------------------------- reading a query string back

  /** The text before and after the first c (all of s and "" when c is absent). */
  function SplitAtFirst(s: string, c: char): (string, string)
    decreases |s|
  {
    if s == [] then ("", "")
    else if s[0] == c then ("", s[1..])
    else
      var rest := SplitAtFirst(s[1..], c);
      ([s[0]] + rest.0, rest.1)
  }

  /** The raw values of every `name=value` pair named `name`, in order. */
  function ValuesFor(parts: seq<string>, name: string): seq<string>
    decreases |parts|
  {
    if parts == [] then []
    else
      var nv := SplitAtFirst(parts[0], '=');
      (if nv.0 == name then [nv.1] else []) + ValuesFor(parts[1..], name)
  }

  /** encodeURIComponent applied to each value, in order. */
  function EncodedAll(values: seq<string>): (r: seq<string>)
    ensures |r| == |values|
    decreases |values|
  {
    if values == [] then [] else [EncodeURIComponent(values[0])] + EncodedAll(values[1..])
  }

  /** decodeURIComponent over a list; None when any value is malformed. */
  function DecodeAll(raw: seq<string>): Option<seq<string>>
    decreases |raw|
  {
    if raw == [] then Some([])
    else
      match (DecodeURIComponent(raw[0]), DecodeAll(raw[1..]))
      case (Some(v), Some(vs)) => Some([v] + vs)
      case _ => None
  }

  lemma {:induction false} SplitAtFirstPair(name: string, c: char, value: string)
    requires c !in name
    ensures SplitAtFirst(name + [c] + value, c) == (name, value)
    decreases |name|
  {
    if name == [] {
      assert name + [c] + value == [c] + value;
    } else {
      SplitAtFirstPair(name[1..], c, value);
      assert (name + [c] + value)[1..] == name[1..] + [c] + value;
      assert [name[0]] + name[1..] == name;
    }
  }

  lemma {:induction false} ValuesForAppend(a: seq<string>, b: seq<string>, name: string)
    ensures ValuesFor(a + b, name) == ValuesFor(a, name) + ValuesFor(b, name)
    decreases |a|
  {
    if a != [] {
      ValuesForAppend(a[1..], b, name);
      assert (a + b)[1..] == a[1..] + b;
    } else {
      assert a + b == b;
    }
  }

  lemma ValuesForSingle(key: string, value: string, name: string)
    requires '=' !in key
    ensures ValuesFor([Pair(key, value)], name) == if name == key then [value] else []
  {
    SplitAtFirstPair(key, '=', value);
  }

  lemma {:induction false} ValuesForParams(key: string, values: seq<string>, name: string)
    requires '=' !in key
    ensures ValuesFor(Params(key, values), name) == if name == key then EncodedAll(values) else []
    decreases |values|
  {
    if values != [] {
      ParamsCons(key, values);
      ValuesForAppend([Pair(key, EncodeURIComponent(values[0]))], Params(key, values[1..]), name);
      ValuesForSingle(key, EncodeURIComponent(values[0]), name);
      ValuesForParams(key, values[1..], name);
    }
  }

  lemma ParamsCons(key: string, values: seq<string>)
    requires values != []
    ensures Params(key, values) == [Pair(key, EncodeURIComponent(values[0]))] + Params(key, values[1..])
  {
    var p, q := Params(key, values), Params(key, values[1..]);
    forall i | 1 <= i < |p|
      ensures p[i] == q[i - 1]
    {
      var v := values[i];
      assert values[1..][i - 1] == v;
      assert p[i] == Pair(key, EncodeURIComponent(v));
      assert q[i - 1] == Pair(key, EncodeURIComponent(v));
    }
    SeqCons(p, Pair(key, EncodeURIComponent(values[0])), q);
  }

  lemma SeqCons<T>(s: seq<T>, x: T, rest: seq<T>)
    requires |s| == |rest| + 1 && s[0] == x
    requires forall i :: 1 <= i < |s| ==> s[i] == rest[i - 1]
    ensures s == [x] + rest
  {
  }

  lemma {:induction false} DecodeAllEncoded(values: seq<string>)
    ensures DecodeAll(EncodedAll(values)) == Some(values)
    decreases |values|
  {
    if values != [] {
      DecodeEncode(values[0]);
      DecodeAllEncoded(values[1..]);
      assert [values[0]] + values[1..] == values;
    }
  }

  lemma EncodedHasNoAmpersand(key: string, value: string)
    requires '&' !in key
    ensures '&' !in Pair(key, EncodeURIComponent(value))
  {
    var e := EncodeURIComponent(value);
    assert '&' !in e by {
      forall i | 0 <= i < |e|
        ensures e[i] != '&'
      {
        assert IsUriUnreserved(e[i]) || e[i] == '%';
      }
    }
    LacksInConcat(key, "=", '&');
    LacksInConcat(key + "=", e, '&');
  }

  lemma LacksInConcat(a: string, b: string, c: char)
    requires c !in a && c !in b
    ensures c !in a + b
  {
    forall i | 0 <= i < |a + b|
      ensures (a + b)[i] != c
    {
      if i >= |a| {
        assert (a + b)[i] == b[i - |a|];
      }
    }
  }

  predicate NoneHolds(parts: seq<string>, c: char) {
    forall k :: 0 <= k < |parts| ==> c !in parts[k]
  }

  lemma ParamsHoldNoAmpersand(key: string, values: seq<string>)
    requires '&' !in key
    ensures NoneHolds(Params(key, values), '&')
  {
    forall k | 0 <= k < |values|
      ensures '&' !in Params(key, values)[k]
    {
      EncodedHasNoAmpersand(key, values[k]);
    }
  }

  lemma NoneHoldsAppend(a: seq<string>, b: seq<string>, c: char)
    requires NoneHolds(a, c) && NoneHolds(b, c)
    ensures NoneHolds(a + b, c)
  {
    forall k | 0 <= k < |a + b|
      ensures c !in (a + b)[k]
    {
      if k >= |a| {
        assert (a + b)[k] == b[k - |a|];
      }
    }
  }

  lemma OptionalPartsHoldNoAmpersand(f: Filters)
    ensures NoneHolds(AnbParts(f), '&') && NoneHolds([MinDatePart(f)], '&') && NoneHolds(MaxDateParts(f), '&')
    ensures NoneHolds(NestTypeParts(f), '&')
    ensures NoneHolds(NestStatusParts(f), '&')
  {
    AnbPartsHoldNoAmpersand(f);
    DatePartsHoldNoAmpersand(f);
    NestPartsHoldNoAmpersand(f);
  }

  lemma AnbPartsHoldNoAmpersand(f: Filters)
    ensures NoneHolds(AnbParts(f), '&')
  {
    if f.anbAreasActief != Null {
      EncodedHasNoAmpersand("anb", JsString(f.anbAreasActief));
    }
  }

  lemma DateKeysHoldNoAmpersand()
    ensures '&' !in "min_observation_datetime" && '&' !in "max_observation_datetime"
  {
  }

  lemma DatePartsHoldNoAmpersand(f: Filters)
    ensures NoneHolds([MinDatePart(f)], '&') && NoneHolds(MaxDateParts(f), '&')
  {
    DateKeysHoldNoAmpersand();
    EncodedHasNoAmpersand("min_observation_datetime", FormatDateWithoutTime(MinDateOrDefault(f)));
    if f.maxDate.Some? {
      EncodedHasNoAmpersand("max_observation_datetime", FormatDateWithEndOfDayTime(f.maxDate.value));
    }
  }

  lemma NestPartsHoldNoAmpersand(f: Filters)
    ensures NoneHolds(NestTypeParts(f), '&') && NoneHolds(NestStatusParts(f), '&')
  {
    if f.nestType.Some? {
      ParamsHoldNoAmpersand("nest_type", f.nestType.value);
    }
    if f.nestStatus.Some? {
      ParamsHoldNoAmpersand("nest_status", f.nestStatus.value);
    }
  }

  /** No term of the query holds '&', so splitting the query gives the terms back. */
  lemma FilterPartsSplit(f: Filters)
    ensures NoneHolds(FilterParts(f), '&')
    ensures Split(FilterQuery(f), '&') == FilterParts(f)
  {
    var a := Params("municipality_id", f.municipalities);
    var b := Params("province_id", f.provinces);
    var c := AnbParts(f);
    var d := NestTypeParts(f);
    var e := NestStatusParts(f);
    var m := [MinDatePart(f)];
    var x := MaxDateParts(f);
    ParamsHoldNoAmpersand("municipality_id", f.municipalities);
    ParamsHoldNoAmpersand("province_id", f.provinces);
    OptionalPartsHoldNoAmpersand(f);
    NoneHoldsAppend(a, b, '&');
    NoneHoldsAppend(a + b, c, '&');
    NoneHoldsAppend(a + b + c, d, '&');
    NoneHoldsAppend(a + b + c + d, e, '&');
    NoneHoldsAppend(a + b + c + d + e, m, '&');
    NoneHoldsAppend(a + b + c + d + e + m, x, '&');
    SplitJoin(FilterParts(f), '&');
  }

  /** The values a key carries in a query built from f, in order. */
  function ExpectedValues(f: Filters, name: string): seq<string> {
    (if name == "municipality_id" then EncodedAll(f.municipalities) else [])
    + (if name == "province_id" then EncodedAll(f.provinces) else [])
    + (if name == "anb" && f.anbAreasActief != Null then [EncodeURIComponent(JsString(f.anbAreasActief))] else [])
    + (if name == "nest_type" then EncodedAll(ListOrEmpty(f.nestType)) else [])
    + (if name == "nest_status" then EncodedAll(ListOrEmpty(f.nestStatus)) else [])
    + (if name == "min_observation_datetime"
       then [EncodeURIComponent(FormatDateWithoutTime(MinDateOrDefault(f)))] else [])
    + (if name == "max_observation_datetime" && f.maxDate.Some?
       then [EncodeURIComponent(FormatDateWithEndOfDayTime(f.maxDate.value))] else [])
  }

  lemma ListSegmentValues(f: Filters, name: string)
    ensures ValuesFor(Params("municipality_id", f.municipalities), name)
      == if name == "municipality_id" then EncodedAll(f.municipalities) else []
    ensures ValuesFor(Params("province_id", f.provinces), name)
      == if name == "province_id" then EncodedAll(f.provinces) else []
    ensures ValuesFor(NestTypeParts(f), name)
      == if name == "nest_type" then EncodedAll(ListOrEmpty(f.nestType)) else []
    ensures ValuesFor(NestStatusParts(f), name)
      == if name == "nest_status" then EncodedAll(ListOrEmpty(f.nestStatus)) else []
  {
    ValuesForParams("municipality_id", f.municipalities, name);
    ValuesForParams("province_id", f.provinces, name);
    ValuesForParams("nest_type", ListOrEmpty(f.nestType), name);
    ValuesForParams("nest_status", ListOrEmpty(f.nestStatus), name);
  }

  lemma SingleSegmentValues(f: Filters, name: string)
    ensures ValuesFor(AnbParts(f), name)
      == if name == "anb" && f.anbAreasActief != Null then [EncodeURIComponent(JsString(f.anbAreasActief))] else []
    ensures ValuesFor([MinDatePart(f)], name)
      == if name == "min_observation_datetime" then [EncodeURIComponent(FormatDateWithoutTime(MinDateOrDefault(f)))] else []
    ensures ValuesFor(MaxDateParts(f), name)
      == if name == "max_observation_datetime" && f.maxDate.Some?
         then [EncodeURIComponent(FormatDateWithEndOfDayTime(f.maxDate.value))] else []
  {
    AnbValues(f, name);
    MinDateValues(f, name);
    MaxDateValues(f, name);
  }

  lemma AnbValues(f: Filters, name: string)
    ensures ValuesFor(AnbParts(f), name)
      == if name == "anb" && f.anbAreasActief != Null then [EncodeURIComponent(JsString(f.anbAreasActief))] else []
  {
    if f.anbAreasActief != Null {
      ValuesForSingle("anb", EncodeURIComponent(JsString(f.anbAreasActief)), name);
    }
  }

  lemma MinDateValues(f: Filters, name: string)
    ensures ValuesFor([MinDatePart(f)], name)
      == if name == "min_observation_datetime" then [EncodeURIComponent(FormatDateWithoutTime(MinDateOrDefault(f)))] else []
  {
    ValuesForSingle("min_observation_datetime", EncodeURIComponent(FormatDateWithoutTime(MinDateOrDefault(f))), name);
  }

  lemma MaxDateValues(f: Filters, name: string)
    ensures ValuesFor(MaxDateParts(f), name)
      == if name == "max_observation_datetime" && f.maxDate.Some?
         then [EncodeURIComponent(FormatDateWithEndOfDayTime(f.maxDate.value))] else []
  {
    if f.maxDate.Some? {
      ValuesForSingle("max_observation_datetime",
        EncodeURIComponent(FormatDateWithEndOfDayTime(f.maxDate.value)), name);
    }
  }

  /** The raw values every key carries in the term list. */
  lemma FilterPartsValues(f: Filters, name: string)
    ensures ValuesFor(FilterParts(f), name) == ExpectedValues(f, name)
  {
    var a := Params("municipality_id", f.municipalities);
    var b := Params("province_id", f.provinces);
    var c := AnbParts(f);
    var d := NestTypeParts(f);
    var e := NestStatusParts(f);
    var m := [MinDatePart(f)];
    var x := MaxDateParts(f);
    ValuesForAppend(a + b + c + d + e + m, x, name);
    ValuesForAppend(a + b + c + d + e, m, name);
    ValuesForAppend(a + b + c + d, e, name);
    ValuesForAppend(a + b + c, d, name);
    ValuesForAppend(a + b, c, name);
    ValuesForAppend(a, b, name);
    ListSegmentValues(f, name);
    SingleSegmentValues(f, name);
  }

  lemma ExpectedListValues(f: Filters)
    ensures ExpectedValues(f, "municipality_id") == EncodedAll(f.municipalities)
    ensures ExpectedValues(f, "province_id") == EncodedAll(f.provinces)
    ensures ExpectedValues(f, "nest_type") == EncodedAll(ListOrEmpty(f.nestType))
    ensures ExpectedValues(f, "nest_status") == EncodedAll(ListOrEmpty(f.nestStatus))
  {
    ExpectedAreaValues(f);
    ExpectedNestValues(f);
  }

  lemma ExpectedAreaValues(f: Filters)
    ensures ExpectedValues(f, "municipality_id") == EncodedAll(f.municipalities)
    ensures ExpectedValues(f, "province_id") == EncodedAll(f.provinces)
  {
    assert "municipality_id"[0] == 'm' && "province_id"[0] == 'p';
  }

  lemma ExpectedNestValues(f: Filters)
    ensures ExpectedValues(f, "nest_type") == EncodedAll(ListOrEmpty(f.nestType))
    ensures ExpectedValues(f, "nest_status") == EncodedAll(ListOrEmpty(f.nestStatus))
  {
    assert "nest_type"[0] == 'n' && "nest_type"[5] == 't' && "nest_status"[5] == 's';
  }

  lemma ExpectedDateValues(f: Filters)
    ensures ExpectedValues(f, "min_observation_datetime")
      == [EncodeURIComponent(FormatDateWithoutTime(MinDateOrDefault(f)))]
    ensures ExpectedValues(f, "max_observation_datetime")
      == if f.maxDate.Some? then [EncodeURIComponent(FormatDateWithEndOfDayTime(f.maxDate.value))] else []
  {
    ExpectedMinValues(f);
    ExpectedMaxValues(f);
  }

  lemma ExpectedMinValues(f: Filters)
    ensures ExpectedValues(f, "min_observation_datetime")
      == [EncodeURIComponent(FormatDateWithoutTime(MinDateOrDefault(f)))]
  {
    assert "min_observation_datetime"[1] == 'i' && "min_observation_datetime" != "max_observation_datetime";
  }

  lemma ExpectedMaxValues(f: Filters)
    ensures ExpectedValues(f, "max_observation_datetime")
      == if f.maxDate.Some? then [EncodeURIComponent(FormatDateWithEndOfDayTime(f.maxDate.value))] else []
  {
    assert "max_observation_datetime"[1] == 'a' && "min_observation_datetime" != "max_observation_datetime";
  }

  /** Reading the query string back: each list filter is recovered value by
      value in list order (one pair per element, empty or null lists give
      none), exactly one minimum date is present (the default when none is set)
      and a maximum date is present exactly when one is set. */
  lemma {:induction false} FilterQueryRoundTrip(f: Filters)
    ensures var parts := Split(FilterQuery(f), '&');
      DecodeAll(ValuesFor(parts, "municipality_id")) == Some(f.municipalities)
      && DecodeAll(ValuesFor(parts, "province_id")) == Some(f.provinces)
      && DecodeAll(ValuesFor(parts, "nest_type")) == Some(ListOrEmpty(f.nestType))
      && DecodeAll(ValuesFor(parts, "nest_status")) == Some(ListOrEmpty(f.nestStatus))
      && DecodeAll(ValuesFor(parts, "min_observation_datetime")) == Some([FormatDateWithoutTime(MinDateOrDefault(f))])
      && DecodeAll(ValuesFor(parts, "max_observation_datetime"))
         == Some(if f.maxDate.Some? then [FormatDateWithEndOfDayTime(f.maxDate.value)] else [])
  {
    FilterPartsSplit(f);
    ListsRoundTrip(f);
    DatesRoundTrip(f);
  }

  lemma ListsRoundTrip(f: Filters)
    ensures var parts := FilterParts(f);
      DecodeAll(ValuesFor(parts, "municipality_id")) == Some(f.municipalities)
      && DecodeAll(ValuesFor(parts, "province_id")) == Some(f.provinces)
      && DecodeAll(ValuesFor(parts, "nest_type")) == Some(ListOrEmpty(f.nestType))
      && DecodeAll(ValuesFor(parts, "nest_status")) == Some(ListOrEmpty(f.nestStatus))
  {
    FilterPartsValues(f, "municipality_id");
    FilterPartsValues(f, "province_id");
    FilterPartsValues(f, "nest_type");
    FilterPartsValues(f, "nest_status");
    ExpectedListValues(f);
    DecodeAllEncoded(f.municipalities);
    DecodeAllEncoded(f.provinces);
    DecodeAllEncoded(ListOrEmpty(f.nestType));
    DecodeAllEncoded(ListOrEmpty(f.nestStatus));
  }

  lemma DatesRoundTrip(f: Filters)
    ensures var parts := FilterParts(f);
      DecodeAll(ValuesFor(parts, "min_observation_datetime")) == Some([FormatDateWithoutTime(MinDateOrDefault(f))])
      && DecodeAll(ValuesFor(parts, "max_observation_datetime"))
         == Some(if f.maxDate.Some? then [FormatDateWithEndOfDayTime(f.maxDate.value)] else [])
  {
    MinDateInParts(f);
    DecodeAllEncoded([FormatDateWithoutTime(MinDateOrDefault(f))]);
    MaxDateRoundTrip(f);
  }

  lemma MaxDateRoundTrip(f: Filters)
    ensures DecodeAll(ValuesFor(FilterParts(f), "max_observation_datetime"))
      == Some(if f.maxDate.Some? then [FormatDateWithEndOfDayTime(f.maxDate.value)] else [])
  {
    FilterPartsValues(f, "max_observation_datetime");
    ExpectedMaxValues(f);
    if f.maxDate.Some? {
      DecodeAllEncoded([FormatDateWithEndOfDayTime(f.maxDate.value)]);
    } else {
      DecodeAllEncoded([]);
    }
  }

  /** encodeURIComponent leaves a text of unreserved characters as it is. */
  lemma {:induction false} EncodeUnreserved(s: string)
    requires forall i :: 0 <= i < |s| ==> IsUriUnreserved(s[i])
    ensures EncodeURIComponent(s) == s
    decreases |s|
  {
    if s != [] {
      EncodeUnreserved(s[1..]);
      assert [s[0]] + s[1..] == s;
    }
  }

  lemma DefaultMinDateText()
    ensures FormatDateWithoutTime(DEFAULT_MIN_DATE) == "2025-04-01"
  {
    assert NatToString(2025) == "2025";
    assert NatToString(4) == "4" && NatToString(1) == "1";
    assert ["2025", "04", "01"][1..] == ["04", "01"] && ["04", "01"][1..] == ["01"];
  }

  lemma DefaultMinDateEncoded()
    ensures EncodeURIComponent("2025-04-01") == "2025-04-01"
  {
    var d := "2025-04-01";
    forall i | 0 <= i < |d|
      ensures IsUriUnreserved(d[i])
    {
      assert d[i] == '-' || '0' <= d[i] <= '9';
    }
    EncodeUnreserved(d);
  }

  /** The filter query is never empty: it always holds the minimum-date term. */
  lemma FilterQueryNotEmpty(f: Filters)
    ensures FilterQuery(f) != ""
  {
    var parts := FilterParts(f);
    FilterPartsSplit(f);
    assert MinDatePart(f) in parts;
  }

  lemma SplitWithExtra(f: Filters, extra: string)
    requires '&' !in extra
    ensures Split(FilterQuery(f) + "&" + extra, '&') == FilterParts(f) + [extra]
  {
    var parts := FilterParts(f);
    FilterPartsSplit(f);
    JoinAppend(parts, "&", extra);
    assert NoneHolds([extra], '&');
    NoneHoldsAppend(parts, [extra], '&');
    SplitJoin(parts + [extra], '&');
  }

  lemma OutgoingWithDefault(f: Filters)
    requires f.minDate.None?
    ensures OutgoingQuery(f)
      == FilterQuery(f) + "&" + Pair("min_observation_datetime", FormatDateWithoutTime(DEFAULT_MIN_DATE))
  {
    FilterQueryNotEmpty(f);
  }

  lemma ValuesWithExtraMin(f: Filters, t: string)
    requires '&' !in Pair("min_observation_datetime", t)
    ensures ValuesFor(Split(FilterQuery(f) + "&" + Pair("min_observation_datetime", t), '&'), "min_observation_datetime")
      == [EncodeURIComponent(FormatDateWithoutTime(MinDateOrDefault(f))), t]
  {
    var extra := Pair("min_observation_datetime", t);
    SplitWithExtra(f, extra);
    ExtraMinValues(FilterParts(f), t);
    MinDateInParts(f);
  }

  lemma ExtraMinValues(parts: seq<string>, t: string)
    ensures ValuesFor(parts + [Pair("min_observation_datetime", t)], "min_observation_datetime")
      == ValuesFor(parts, "min_observation_datetime") + [t]
  {
    ValuesForAppend(parts, [Pair("min_observation_datetime", t)], "min_observation_datetime");
    ValuesForSingle("min_observation_datetime", t, "min_observation_datetime");
  }

  lemma MinDateInParts(f: Filters)
    ensures ValuesFor(FilterParts(f), "min_observation_datetime")
      == [EncodeURIComponent(FormatDateWithoutTime(MinDateOrDefault(f)))]
  {
    FilterPartsValues(f, "min_observation_datetime");
    ExpectedMinValues(f);
  }

  /** Without a minimum date the outgoing query carries the default floor
      twice, both times as 2025-04-01. */
  lemma DefaultFloorSentTwice(f: Filters)
    requires f.minDate.None?
    ensures ValuesFor(Split(OutgoingQuery(f), '&'), "min_observation_datetime") == ["2025-04-01", "2025-04-01"]
  {
    var t := "2025-04-01";
    DefaultMinDateText();
    DefaultMinDateEncoded();
    DateKeysHoldNoAmpersand();
    EncodedHasNoAmpersand("min_observation_datetime", t);
    FloorSentTwice(f, t);
  }

  /** The same, for whatever text t the default floor formats to, as long as
      encoding leaves t unchanged. */
  lemma FloorSentTwice(f: Filters, t: string)
    requires f.minDate.None?
    requires FormatDateWithoutTime(DEFAULT_MIN_DATE) == t && EncodeURIComponent(t) == t
    requires '&' !in Pair("min_observation_datetime", EncodeURIComponent(t))
    ensures ValuesFor(Split(OutgoingQuery(f), '&'), "min_observation_datetime") == [t, t]
  {
    OutgoingWithDefault(f);
    ValuesWithExtraMin(f, t);
  }
}
