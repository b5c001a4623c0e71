// The table of metric paths: which gauge, phase, cell and serial number each value is recorded
// under, spelt out without the functions that decide it.
module MetricPlaces {
  import opened Wrappers
  import opened Sequences
  import opened MetricPaths
  import opened Metrics

  // ---- letter case ----

  /** The path in lower case: ASCII capitals replaced, everything else as it is. */
  ghost predicate IsLowered(path: string, lower: string) {
    && |lower| == |path|
    && forall i :: 0 <= i < |path| ==>
         lower[i] == if 'A' <= path[i] <= 'Z' then (path[i] as int + 32) as char else path[i]
  }

  lemma {:induction false} LowersTo(path: string, lower: string)
    ensures Lower(path) == lower <==> IsLowered(path, lower)
  {
    if path == "" {
    } else if lower != "" {
      LowersTo(path[1..], lower[1..]);
      Front(path);
      Front(lower);
      assert LowerChar(path[0]) == if 'A' <= path[0] <= 'Z' then (path[0] as int + 32) as char else path[0];
      if IsLowered(path, lower) {
        forall i | 0 <= i < |path[1..]|
          ensures lower[1..][i] == var c := path[1..][i];
                                   if 'A' <= c <= 'Z' then (c as int + 32) as char else c
        {
          assert path[1..][i] == path[i + 1] && lower[1..][i] == lower[i + 1];
        }
      }
      if Lower(path) == lower {
        forall i | 0 <= i < |path|
          ensures lower[i] == if 'A' <= path[i] <= 'Z' then (path[i] as int + 32) as char else path[i]
        {
          if i > 0 {
            assert path[1..][i - 1] == path[i] && lower[1..][i - 1] == lower[i];
          }
        }
      }
    }
  }

  // ---- the table ----

  /** The first part of a path, and the phase it names: one that begins with an l. */
  ghost predicate BeginsWith(first: string, mid: string) {
    '/' !in first && (mid == first || exists after :: mid == first + "/" + after)
  }

  function Phase(first: string): string { if first != "" && first[0] == 'l' then first else "" }

  /** A section's power, in total or of one of its phases. */
  ghost predicate IsSection(lower: string, section: string, phase: string) {
    || (lower == "/ac/" + section + "/power" && phase == "")
    || exists mid, first {:trigger BeginsWith(first, mid)} ::
         lower == "/ac/" + section + "/" + mid + "/power" && BeginsWith(first, mid) && phase == Phase(first)
  }

  /** Digits, and any number of prefixes before and among them: what deleting every prefix leaves a number. */
  ghost predicate IsCell(lower: string, prefix: string, cell: string) {
    && cell != "" && (forall i :: 0 <= i < |cell| ==> '0' <= cell[i] <= '9')
    && exists pieces: seq<string> :: pieces != [] && lower == Prefixed(prefix, pieces) && cell == Joined(pieces)
  }

  function Prefixed(prefix: string, pieces: seq<string>): string {
    if pieces == [] then "" else prefix + (pieces[0] + Prefixed(prefix, pieces[1..]))
  }

  function Joined(pieces: seq<string>): string { if pieces == [] then "" else pieces[0] + Joined(pieces[1..]) }

  ghost predicate Mentions(service: string, part: string) {
    exists before, after :: service == before + part + after
  }

  ghost predicate Belongs(service: string, lower: string, gauge: Gauge, labels: Labels) {
    match gauge
    case Soc => lower == "/soc" && labels == map[]
    case Power => lower == "/dc/0/power" && labels == map[]
    case State => lower == "/state" && labels == map[]
    case Pv =>
      labels == map[] && (lower == "/dc/pv/power" || lower == "/yield/power"
        || (lower == "/ac/power" && Mentions(service, ".pvinverter.")))
    case Grid => exists phase :: IsSection(lower, "grid", phase) && labels == map["phase" := phase]
    case Loads =>
      exists phase :: (IsSection(lower, "loads", phase) || IsSection(lower, "consumption", phase))
                      && labels == map["phase" := phase]
    case CellVoltage => exists cell :: IsCell(lower, "/dc/0/voltages/cell", cell) && labels == map["cell" := cell]
    case CellTemperature => exists cell :: IsCell(lower, "/temperatures/cell", cell) && labels == map["cell" := cell]
  }

  // ---- parts of a path ----

  lemma {:induction false} SplitFirst(a: string, c: char, rest: string)
    requires c !in a
    ensures Split(a + [c] + rest, c) == [a] + Split(rest, c)
  {
    var s := a + [c] + rest;
    if a == "" {
      assert s[1..] == rest && s[0] == c;
    } else {
      assert s[1..] == a[1..] + [c] + rest && s[0] == a[0];
      SplitFirst(a[1..], c, rest);
      Front(a);
    }
  }

  function LowerAll(parts: seq<string>): seq<string> {
    if parts == [] then [] else [Lower(parts[0])] + LowerAll(parts[1..])
  }

  lemma {:induction false} LowerAt(parts: seq<string>, i: nat)
    ensures |LowerAll(parts)| == |parts|
    ensures i < |parts| ==> LowerAll(parts)[i] == Lower(parts[i])
  {
    if parts != [] {
      LowerAt(parts[1..], if i > 0 then i - 1 else 0);
    }
  }

  lemma LowerChars(c: char)
    ensures LowerChar(c) == '/' <==> c == '/'
  {
  }

  /** Putting a path in lower case and taking it apart can be done in either order. */
  lemma {:induction false} SplitLower(path: string)
    ensures Split(Lower(path), '/') == LowerAll(Split(path, '/'))
  {
    if path != "" {
      var rest, low := Split(path[1..], '/'), Lower(path[1..]);
      SplitLower(path[1..]);
      LowerChars(path[0]);
      Prepended(LowerChar(path[0]), low);
      assert Lower(path) == [LowerChar(path[0])] + low;
      if path[0] == '/' {
        Prepended("", rest);
        assert Split(path, '/') == [""] + rest;
      } else {
        var head := [path[0]] + rest[0];
        Prepended(path[0], rest[0]);
        Prepended(head, rest[1..]);
        assert Split(path, '/') == [head] + rest[1..];
      }
    }
  }

  lemma PhaseOfLower(path: string)
    ensures PhaseOf(path) ==
              var parts := Split(Lower(path), '/');
              if |parts| >= 5 then Phase(parts[3]) else ""
  {
    hide Lower;
    SplitLower(path);
    var parts := Split(path, '/');
    LowerAt(parts, 3);
    if |parts| >= 5 {
      var part := Lower(parts[3]);
      assert "l" <= part <==> part != "" && part[0] == 'l';
    }
  }

  lemma {:induction false} FirstPart(mid: string)
    ensures BeginsWith(Split(mid, '/')[0], mid)
    ensures forall first :: BeginsWith(first, mid) ==> first == Split(mid, '/')[0]
  {
    forall first | BeginsWith(first, mid) ensures first == Split(mid, '/')[0] {
      if mid == first {
        SplitCounts(mid, '/');
      } else {
        var after :| mid == first + "/" + after;
        SplitFirst(first, '/', after);
      }
    }
    SplitBegins(mid);
  }

  lemma {:induction false} SplitBegins(mid: string)
    ensures BeginsWith(Split(mid, '/')[0], mid)
  {
    if mid == "" {
    } else if mid[0] == '/' {
      assert mid == "" + "/" + mid[1..];
    } else {
      SplitBegins(mid[1..]);
      var first := Split(mid[1..], '/')[0];
      Front(mid);
      if mid[1..] != first {
        var after :| mid[1..] == first + "/" + after;
        assert mid == ([mid[0]] + first) + "/" + after;
      }
    }
  }

  // ---- sections ----

  /** A path that begins with a folder and ends in power: the two can share the slash between them. */
  lemma BeginsAndEnds(lower: string, folder: string)
    requires folder != "" && folder[|folder| - 1] == '/' && folder <= lower && EndsWith(lower, "/power")
    ensures lower == folder + "power" || exists mid :: lower == folder + mid + "/power"
  {
    var k, q := |lower| - 6, "/power";
    assert lower == lower[..k] + q && lower[..|folder|] == folder;
    if k >= |folder| {
      var mid := lower[|folder|..k];
      assert lower[..k] == folder + mid;
      assert lower == folder + mid + q;
    } else {
      assert lower[|folder| - 1] == '/' && q[|folder| - 1 - k] == '/';
      assert lower == folder + lower[|folder|..] && lower[|folder|..] == q[1..];
    }
  }

  lemma EndsInPower(lower: string, rest: string)
    requires lower == rest + "/power"
    ensures EndsWith(lower, "/power")
  {
  }

  lemma PhasePowerIs(lower: string, section: string)
    ensures IsPhasePower(lower, section) <==>
              || lower == "/ac/" + section + "/power"
              || exists mid :: lower == "/ac/" + section + "/" + mid + "/power"
  {
    hide EndsWith;
    var folder := "/ac/" + section + "/";
    assert folder + "power" == "/ac/" + section + "/power";
    if IsPhasePower(lower, section) {
      BeginsAndEnds(lower, folder);
    }
    if mid :| lower == "/ac/" + section + "/" + mid + "/power" {
      EndsInPower(lower, folder + mid);
      assert lower == folder + (mid + "/power");
    }
    if lower == "/ac/" + section + "/power" {
      EndsInPower(lower, "/ac/" + section);
    }
  }

  lemma TotalParts(section: string)
    requires '/' !in section
    ensures Split("/ac/" + section + "/power", '/') == ["", "ac", section, "power"]
  {
    hide Split;
    SplitFirst("", '/', "ac/" + section + "/power");
    SplitFirst("ac", '/', section + "/power");
    SplitFirst(section, '/', "power");
    SplitCounts("power", '/');
    assert "/ac/" + section + "/power" == "" + ['/'] + ("ac/" + section + "/power");
    assert "ac/" + section + "/power" == "ac" + ['/'] + (section + "/power");
    assert section + "/power" == section + ['/'] + "power";
  }

  lemma PhaseParts(section: string, mid: string, first: string)
    requires '/' !in section && BeginsWith(first, mid)
    ensures var parts := Split("/ac/" + section + "/" + mid + "/power", '/'); |parts| >= 5 && parts[3] == first
  {
    hide Split;
    var rest := mid + "/power";
    SplitFirst("", '/', "ac/" + section + "/" + rest);
    SplitFirst("ac", '/', section + "/" + rest);
    SplitFirst(section, '/', rest);
    var after := if mid == first then "power" else (var a :| mid == first + "/" + a; a) + "/power";
    assert rest == first + ['/'] + after;
    SplitFirst(first, '/', after);
    assert "/ac/" + section + "/" + mid + "/power" == "" + ['/'] + ("ac/" + section + "/" + rest);
    assert "ac/" + section + "/" + rest == "ac" + ['/'] + (section + "/" + rest);
    assert section + "/" + rest == section + ['/'] + rest;
  }

  /** Section and phase together: the tests on the path and the phase read off it say the same. */
  lemma SectionsAreTold(path: string, section: string, phase: string)
    requires '/' !in section
    ensures IsSection(Lower(path), section, phase) <==> IsPhasePower(Lower(path), section) && phase == PhaseOf(path)
  {
    hide Split, Lower, BeginsWith, Phase;
    var lower := Lower(path);
    PhasePowerIs(lower, section);
    PhaseOfLower(path);
    if lower == "/ac/" + section + "/power" {
      TotalParts(section);
      forall mid ensures lower != "/ac/" + section + "/" + mid + "/power" {
        assert |"/ac/" + section + "/" + mid + "/power"| > |lower|;
      }
    } else {
      forall mid, first | lower == "/ac/" + section + "/" + mid + "/power" && BeginsWith(first, mid)
        ensures |Split(lower, '/')| >= 5 && Split(lower, '/')[3] == first
      {
        PhaseParts(section, mid, first);
      }
      if mid :| lower == "/ac/" + section + "/" + mid + "/power" {
        FirstPart(mid);
        var first := Split(mid, '/')[0];
        assert BeginsWith(first, mid);
      }
    }
  }

  // ---- cells ----

  ghost predicate Numeric(s: string) { forall i :: 0 <= i < |s| ==> '0' <= s[i] <= '9' }

  lemma {:induction false} DigitsStay(piece: string, rest: string, prefix: string)
    requires Numeric(piece) && prefix != "" && prefix[0] == '/'
    ensures Without(piece + rest, prefix) == piece + Without(rest, prefix)
  {
    if piece == "" {
      assert piece + rest == rest;
    } else {
      DigitsStay(piece[1..], rest, prefix);
      assert (piece + rest)[1..] == piece[1..] + rest && (piece + rest)[0] == piece[0];
      assert !(prefix <= piece + rest);
      Front(piece);
    }
  }

  lemma {:induction false} PrefixesVanish(prefix: string, pieces: seq<string>)
    requires prefix != "" && prefix[0] == '/' && Numeric(Joined(pieces))
    ensures Without(Prefixed(prefix, pieces), prefix) == Joined(pieces)
  {
    if pieces != [] {
      var piece, more := pieces[0], pieces[1..];
      var rest := piece + Prefixed(prefix, more);
      assert Numeric(piece) by { forall i | 0 <= i < |piece| ensures '0' <= piece[i] <= '9' { assert Joined(pieces)[i]
          == piece[i]; } }
      assert Numeric(Joined(more)) by {
        forall i | 0 <= i < |Joined(more)| ensures '0' <= Joined(more)[i] <= '9' {
          assert Joined(pieces)[|piece| + i] == Joined(more)[i];
        }
      }
      PrefixesVanish(prefix, more);
      DigitsStay(piece, Prefixed(prefix, more), prefix);
      assert (prefix + rest)[|prefix|..] == rest;
    }
  }

  lemma NumericRest(c: char, w: string)
    requires Numeric([c] + w)
    ensures Numeric(w)
  {
    forall i | 0 <= i < |w| ensures '0' <= w[i] <= '9' { assert ([c] + w)[i + 1] == w[i]; }
  }

  ghost predicate IsCut(s: string, prefix: string, piece: string, pieces: seq<string>)
    requires prefix != ""
  {
    s == piece + Prefixed(prefix, pieces) && Without(s, prefix) == piece + Joined(pieces)
  }

  lemma CutAtPrefix(s: string, prefix: string, p: string, ps: seq<string>)
    requires prefix != "" && prefix <= s && IsCut(s[|prefix|..], prefix, p, ps)
    ensures IsCut(s, prefix, "", [p] + ps)
  {
    Prepended(p, ps);
    assert s == prefix + s[|prefix|..];
  }

  lemma CutAtDigit(s: string, prefix: string, p: string, ps: seq<string>)
    requires prefix != "" && s != "" && !(prefix <= s) && IsCut(s[1..], prefix, p, ps)
    ensures IsCut(s, prefix, [s[0]] + p, ps)
  {
    Front(s);
    Assoc([s[0]], p, Prefixed(prefix, ps));
    Assoc([s[0]], p, Joined(ps));
  }

  /** Text from which deleting the prefix leaves digits only is made of digits and prefixes. */
  lemma {:induction false} Pieces(s: string, prefix: string) returns (piece: string, pieces: seq<string>)
    requires prefix != "" && Numeric(Without(s, prefix))
    ensures IsCut(s, prefix, piece, pieces) && (prefix <= s ==> piece == "" && pieces != [])
    decreases |s|
  {
    if s == "" {
      piece, pieces := "", [];
    } else {
      hide Numeric, IsCut;
      if prefix <= s {
        var p, ps := Pieces(s[|prefix|..], prefix);
        piece, pieces := "", [p] + ps;
        CutAtPrefix(s, prefix, p, ps);
      } else {
        NumericRest(s[0], Without(s[1..], prefix));
        var p, ps := Pieces(s[1..], prefix);
        piece, pieces := [s[0]] + p, ps;
        CutAtDigit(s, prefix, p, ps);
      }
    }
  }

  lemma CellsAreTold(lower: string, prefix: string, cell: string)
    requires prefix != "" && prefix[0] == '/'
    ensures IsCell(lower, prefix, cell) <==>
              prefix <= lower && IsDigits(Without(lower, prefix)) && cell == Without(lower, prefix)
  {
    hide Without;
    if IsCell(lower, prefix, cell) {
      var pieces: seq<string> :| pieces != [] && lower == Prefixed(prefix, pieces) && cell == Joined(pieces);
      PrefixesVanish(prefix, pieces);
    }
    if prefix <= lower && IsDigits(Without(lower, prefix)) {
      var piece, pieces := Pieces(lower, prefix);
      assert piece + Prefixed(prefix, pieces) == Prefixed(prefix, pieces) && piece + Joined(pieces) == Joined(pieces);
    }
  }

  // ---- the table is what is decided ----

  lemma {:induction false} ContainsIs(s: string, part: string)
    ensures Contains(s, part) <==> Mentions(s, part)
  {
    if part <= s {
      assert s == "" + part + s[|part|..];
    } else if s != "" {
      ContainsIs(s[1..], part);
      Front(s);
      if before, after :| s[1..] == before + part + after {
        assert s == ([s[0]] + before) + part + after;
      }
      if before, after :| s == before + part + after {
        assert before != "" by { assert before + part + after == before + (part + after); }
        assert s[1..] == before[1..] + part + after;
      }
    } else {
      forall before, after ensures s != before + part + after { assert |before + part + after| >= |part| > 0; }
    }
  }

  lemma PvIs(service: string, lower: string, labels: Labels)
    ensures IsPvPower(service, lower) && labels == map[] <==> Belongs(service, lower, Pv, labels)
  {
    ContainsIs(service, ".pvinverter.");
  }

  lemma GridIs(service: string, path: string, labels: Labels)
    ensures IsGridPower(Lower(path)) && labels == map["phase" := PhaseOf(path)]
       <==> Belongs(service, Lower(path), Grid, labels)
  {
    hide Lower, IsSection, PhaseOf, IsPhasePower;
    SectionsAreTold(path, "grid", PhaseOf(path));
    forall phase | IsSection(Lower(path), "grid", phase) ensures phase == PhaseOf(path)
      && IsPhasePower(Lower(path), "grid") {
      SectionsAreTold(path, "grid", phase);
    }
    TotalIsPhase(Lower(path), "grid");
    assert "/ac/" + "grid" + "/power" == "/ac/grid/power";
  }

  lemma TotalIsPhase(lower: string, section: string)
    ensures lower == "/ac/" + section + "/power" ==> IsPhasePower(lower, section)
  {
    PhasePowerIs(lower, section);
  }

  lemma LoadsIs(service: string, path: string, labels: Labels)
    ensures IsLoadsPower(Lower(path)) && labels == map["phase" := PhaseOf(path)]
       <==> Belongs(service, Lower(path), Loads, labels)
  {
    hide Lower, IsSection, PhaseOf;
    var lower := Lower(path);
    ConsumptionIsSection(lower);
    TotalIsPhase(lower, "loads");
    assert "/ac/" + "loads" + "/power" == "/ac/loads/power";
    hide IsPhasePower;
    forall phase ensures IsSection(lower, "loads", phase) <==> IsPhasePower(lower, "loads") && phase == PhaseOf(path) {
      SectionsAreTold(path, "loads", phase);
    }
    forall phase
      ensures IsSection(lower, "consumption", phase) <==> IsPhasePower(lower, "consumption") && phase == PhaseOf(path)
    {
      SectionsAreTold(path, "consumption", phase);
    }
  }

  lemma ConsumptionIsSection(lower: string)
    ensures IsPhasePower(lower, "consumption") <==> "/ac/consumption/" <= lower && EndsWith(lower, POWER)
  {
    assert "/ac/" + "consumption" + "/" == "/ac/consumption/";
  }

  lemma CellIs(service: string, lower: string, gauge: Gauge, prefix: string, labels: Labels)
    requires (gauge == CellVoltage && prefix == CELL_VOLTAGE)
        || (gauge == CellTemperature && prefix == CELL_TEMPERATURE)
    ensures prefix <= lower && CellPlace(gauge, lower, prefix) == Some((gauge, labels))
       <==> Belongs(service, lower, gauge, labels)
  {
    hide Without, IsCell;
    forall cell
      ensures IsCell(lower, prefix, cell) <==>
                prefix <= lower && IsDigits(Without(lower, prefix)) && cell == Without(lower, prefix)
    {
      CellsAreTold(lower, prefix, cell);
    }
  }

  /** The characters that tell the rows of the table apart. */
  lemma Letters(service: string, lower: string)
    ensures lower == "/soc" ==> |lower| > 2 && lower[1] == 's' && lower[2] == 'o'
    ensures lower == "/state" ==> |lower| > 2 && lower[1] == 's' && lower[2] == 't'
    ensures lower == "/dc/0/power" ==> |lower| > 6 && lower[1] == 'd' && lower[4] == '0' && lower[6] == 'p'
    ensures CELL_VOLTAGE <= lower ==> |lower| > 6 && lower[1] == 'd' && lower[4] == '0' && lower[6] == 'v'
    ensures CELL_TEMPERATURE <= lower ==> |lower| > 6 && lower[1] == 't'
    ensures IsPvPower(service, lower) ==> |lower| > 6 && (lower[1] == 'y' || (lower[1] in "da" && lower[4] == 'p'))
    ensures IsGridPower(lower) ==> |lower| > 6 && lower[1] == 'a' && lower[4] == 'g'
    ensures IsLoadsPower(lower) ==> |lower| > 6 && lower[1] == 'a' && lower[4] in "lc"
  {
    assert "/ac/" + "grid" + "/" == "/ac/grid/" && "/ac/" + "loads" + "/" == "/ac/loads/";
    assert 'd' in "da" && 'a' in "da" by { assert "da"[0] == 'd' && "da"[1] == 'a'; }
    assert 'l' in "lc" && 'c' in "lc" by { assert "lc"[0] == 'l' && "lc"[1] == 'c'; }
  }

  /** A value is recorded under a gauge and labels exactly when the table says so. */
  lemma PlacesAreTold(service: string, path: string, gauge: Gauge, labels: Labels)
    ensures OtelPlace(service, path) == Some((gauge, labels)) <==> Belongs(service, Lower(path), gauge, labels)
  {
    hide Lower, IsPvPower, IsGridPower, IsLoadsPower, PhaseOf, CellPlace, Belongs;
    var lower := Lower(path);
    Letters(service, lower);
    PlainIs(service, lower, labels);
    PvIs(service, lower, labels);
    GridIs(service, path, labels);
    LoadsIs(service, path, labels);
    CellIs(service, lower, CellVoltage, CELL_VOLTAGE, labels);
    CellIs(service, lower, CellTemperature, CELL_TEMPERATURE, labels);
    CellGauge(CellVoltage, lower, CELL_VOLTAGE);
    CellGauge(CellTemperature, lower, CELL_TEMPERATURE);
  }

  lemma PlainIs(service: string, lower: string, labels: Labels)
    ensures lower == "/soc" && labels == map[] <==> Belongs(service, lower, Soc, labels)
    ensures lower == "/dc/0/power" && labels == map[] <==> Belongs(service, lower, Power, labels)
    ensures lower == "/state" && labels == map[] <==> Belongs(service, lower, State, labels)
  {
  }

  lemma CellGauge(gauge: Gauge, lower: string, prefix: string)
    requires prefix != ""
    ensures CellPlace(gauge, lower, prefix).Some? ==> CellPlace(gauge, lower, prefix).value.0 == gauge
  {
  }

  // ---- serial numbers ----

  /** The text after the last dot. */
  ghost predicate IsTail(service: string, tail: string) {
    '.' !in tail && (service == tail || exists head :: service == head + "." + tail)
  }

  lemma {:induction false} PartsFollowDots(s: string)
    ensures |Split(s, '.')| == multiset(s)['.'] + 1
  {
    if s != "" {
      PartsFollowDots(s[1..]);
      Front(s);
      assert multiset([s[0]] + s[1..]) == multiset{s[0]} + multiset(s[1..]);
    }
  }

  lemma TailOfMore(c: char, s: string, tail: string)
    requires IsTail(s, tail) && (c == '.' || s != tail)
    ensures IsTail([c] + s, tail)
  {
    if s == tail {
      assert [c] + s == "" + "." + tail;
    } else {
      var head :| s == head + "." + tail;
      assert [c] + s == ([c] + head) + "." + tail;
    }
  }

  lemma {:induction false} LastPart(s: string)
    ensures IsTail(s, Split(s, '.')[|Split(s, '.')| - 1])
  {
    if s != "" {
      var parts := Split(s[1..], '.');
      LastPart(s[1..]);
      SplitCounts(s, '.');
      SplitCounts(s[1..], '.');
      Front(s);
      if '.' in s {
        TailOfMore(s[0], s[1..], parts[|parts| - 1]);
      }
    }
  }

  /** One exporter takes the serial number off names with at least three dots, the other off names with any. */
  lemma SerialsAreTails(service: string)
    ensures if multiset(service)['.'] >= 3 then IsTail(service, OtelSerial(service)) else OtelSerial(service) == service
    ensures IsTail(service, PrometheusSerial(service))
  {
    PartsFollowDots(service);
    LastPart(service);
  }

  /** The labels of the two series: those of the table, and the serial number, which only one leaves out if empty. */
  lemma SeriesAreTold(service: string, path: string, gauge: Gauge, labels: Labels)
    requires Belongs(service, Lower(path), gauge, labels)
    ensures OtelSeries(service, path) ==
              Some((gauge, if OtelSerial(service) == "" then labels else labels["serial" := OtelSerial(service)]))
    ensures PrometheusSeries(service, path) == Some((gauge, labels["serial" := PrometheusSerial(service)]))
  {
    PlacesAreTold(service, path, gauge, labels);
    PlacesAgree(service, path);
  }
}
