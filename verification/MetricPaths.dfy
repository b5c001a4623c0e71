// Which series a D-Bus value belongs to, as the two exporters decide it.
module MetricPaths {
  import opened Wrappers

  // ---- strings ----

  function LowerChar(c: char): char { if 'A' <= c <= 'Z' then c - 'A' + 'a' else c }

  function Lower(s: string): string { if s == "" then "" else [LowerChar(s[0])] + Lower(s[1..]) }

  predicate IsDigits(s: string) { s != "" && forall i :: 0 <= i < |s| ==> '0' <= s[i] <= '9' }

  predicate EndsWith(s: string, suffix: string) { |suffix| <= |s| && s[|s| - |suffix|..] == suffix }

  predicate Contains(s: string, part: string) { part <= s || (s != "" && Contains(s[1..], part)) }

  /** `str.replace(part, "")`. */
  function Without(s: string, part: string): string
    requires part != ""
    decreases |s|
  {
    if s == "" then "" else if part <= s then Without(s[|part|..], part) else [s[0]] + Without(s[1..], part)
  }

  function Split(s: string, c: char): (r: seq<string>)
    ensures r != []
  {
    if s == "" then [""]
    else
      var rest := Split(s[1..], c);
      if s[0] == c then [""] + rest else [[s[0]] + rest[0]] + rest[1..]
  }

  // ---- paths ----

  datatype Gauge = Soc | Power | Pv | Grid | Loads | State | CellVoltage | CellTemperature

  const POWER := "/power"
  const CELL_VOLTAGE := "/dc/0/voltages/cell"
  const CELL_TEMPERATURE := "/temperatures/cell"

  predicate IsPhasePower(lower: string, section: string) {
    "/ac/" + section + "/" <= lower && EndsWith(lower, POWER)
  }

  predicate IsPvPower(service: string, lower: string) {
    lower == "/dc/pv/power" || lower == "/yield/power" || (lower == "/ac/power" && Contains(service, ".pvinverter."))
  }

  predicate IsGridPower(lower: string) { lower == "/ac/grid/power" || IsPhasePower(lower, "grid") }

  predicate IsLoadsPower(lower: string) {
    lower == "/ac/loads/power" || IsPhasePower(lower, "loads")
    || ("/ac/consumption/" <= lower && EndsWith(lower, POWER))
  }

  function PhaseOf(path: string): string {
    var parts := Split(path, '/');
    if |parts| >= 5 && "l" <= Lower(parts[3]) then Lower(parts[3]) else ""
  }

  /** A gauge and the labels it is given besides the serial number. */
  type Place = (Gauge, map<string, string>)

  function CellPlace(gauge: Gauge, lower: string, prefix: string): Option<Place>
    requires prefix != ""
  {
    var cell := Without(lower, prefix);
    if IsDigits(cell) then Some((gauge, map["cell" := cell])) else None
  }

  /** The order in which the OpenTelemetry exporter tries the paths. */
  function OtelPlace(service: string, path: string): Option<Place> {
    var lower := Lower(path);
    if lower == "/soc" then Some((Soc, map[]))
    else if lower == "/dc/0/power" then Some((Power, map[]))
    else if CELL_VOLTAGE <= lower then CellPlace(CellVoltage, lower, CELL_VOLTAGE)
    else if CELL_TEMPERATURE <= lower then CellPlace(CellTemperature, lower, CELL_TEMPERATURE)
    else if IsPvPower(service, lower) then Some((Pv, map[]))
    else if IsGridPower(lower) then Some((Grid, map["phase" := PhaseOf(path)]))
    else if IsLoadsPower(lower) then Some((Loads, map["phase" := PhaseOf(path)]))
    else if lower == "/state" then Some((State, map[]))
    else None
  }

  /** The order in which the Prometheus exporter tries them. */
  function PrometheusPlace(service: string, path: string): Option<Place> {
    var lower := Lower(path);
    if lower == "/soc" then Some((Soc, map[]))
    else if lower == "/dc/0/power" then Some((Power, map[]))
    else if IsPvPower(service, lower) then Some((Pv, map[]))
    else if IsGridPower(lower) then Some((Grid, map["phase" := PhaseOf(path)]))
    else if IsLoadsPower(lower) then Some((Loads, map["phase" := PhaseOf(path)]))
    else if lower == "/state" then Some((State, map[]))
    else if CELL_VOLTAGE <= lower then CellPlace(CellVoltage, lower, CELL_VOLTAGE)
    else if CELL_TEMPERATURE <= lower then CellPlace(CellTemperature, lower, CELL_TEMPERATURE)
    else None
  }

  lemma Apart(prefix: string, s: string, i: nat)
    requires i < |prefix| && i < |s| && s[i] != prefix[i]
    ensures !(prefix <= s)
  {
  }

  /** No path is claimed by a cell and by anything tried before it in the other order. */
  lemma CellsAreApart(service: string, lower: string)
    requires CELL_VOLTAGE <= lower || CELL_TEMPERATURE <= lower
    ensures !IsPvPower(service, lower) && !IsGridPower(lower) && !IsLoadsPower(lower) && lower != "/state"
    ensures !(CELL_VOLTAGE <= lower && CELL_TEMPERATURE <= lower)
  {
    assert |lower| > 4;
    assert CELL_VOLTAGE <= lower ==> lower[1] == CELL_VOLTAGE[1] && lower[4] == CELL_VOLTAGE[4];
    assert CELL_TEMPERATURE <= lower ==> lower[1] == CELL_TEMPERATURE[1];
    assert "/ac/" + "grid" + "/" == "/ac/grid/" && "/ac/" + "loads" + "/" == "/ac/loads/";
    Apart("/ac/grid/", lower, 1);
    Apart("/ac/loads/", lower, 1);
    Apart("/ac/consumption/", lower, 1);
    assert "/dc/pv/power"[4] == 'p';
  }

  /** Both exporters put a value in the same place. */
  lemma PlacesAgree(service: string, path: string)
    ensures OtelPlace(service, path) == PrometheusPlace(service, path)
  {
    var lower := Lower(path);
    if CELL_VOLTAGE <= lower || CELL_TEMPERATURE <= lower {
      CellsAreApart(service, lower);
    }
  }

  // ---- serial numbers ----

  function OtelSerial(service: string): string {
    var parts := Split(service, '.');
    if |parts| >= 4 then parts[|parts| - 1] else service
  }

  function PrometheusSerial(service: string): string {
    var parts := Split(service, '.');
    if '.' in service then parts[|parts| - 1] else service
  }

  lemma {:induction false} SplitCounts(s: string, c: char)
    ensures |Split(s, c)| == 1 <==> c !in s
    ensures c !in s ==> Split(s, c) == [s]
    ensures |Split(s, c)[|Split(s, c)| - 1]| <= |s|
    ensures c in s ==> |Split(s, c)[|Split(s, c)| - 1]| < |s|
  {
    if s != "" {
      SplitCounts(s[1..], c);
      assert s == [s[0]] + s[1..];
    }
  }

  /** The two serial numbers agree except for names of two or three dotted parts. */
  lemma SerialsAgree(service: string)
    ensures OtelSerial(service) == PrometheusSerial(service) <==> |Split(service, '.')| !in {2, 3}
  {
    SplitCounts(service, '.');
  }
}
