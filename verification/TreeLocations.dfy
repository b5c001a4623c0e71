// What the tree diff reports, place by place: every location at which the two values part, which way
// they part there, and the order and the names in which the locations are told.
module TreeLocations {
  import opened Wrappers
  import opened Sequences
  import opened Lexicographic
  import opened TreeDiff
  import Decimal

  datatype Step = Key(k: string) | Index(i: nat)

  type Location = seq<Step>

  function Child(v: Value, step: Step): Option<Value> {
    match (v, step)
    case (Mapping(fields), Key(k)) => if k in fields then Some(fields[k]) else None
    case (List(items), Index(i)) => if i < |items| then Some(items[i]) else None
    case _ => None
  }

  /** Python's equality of two values that are not both lists or both mappings. */
  ghost predicate AreEqual(a: Value, b: Value) {
    match (a, b)
    case (Null, Null) => true
    case (Text(s), Text(t)) => s == t
    case (Boolean(p), Boolean(q)) => p == q
    case (Boolean(p), Whole(n)) => n == (if p then 1 else 0)
    case (Whole(n), Boolean(p)) => n == (if p then 1 else 0)
    case (Boolean(p), Floating(x)) => x == (if p then 1.0 else 0.0)
    case (Floating(x), Boolean(p)) => x == (if p then 1.0 else 0.0)
    case (Whole(m), Whole(n)) => m == n
    case (Whole(n), Floating(x)) => x == n as real
    case (Floating(x), Whole(n)) => x == n as real
    case (Floating(x), Floating(y)) => x == y
    case _ => false
  }

  lemma ScalarsAreSame(a: Value, b: Value)
    requires !(a.List? && b.List?) && !(a.Mapping? && b.Mapping?)
    ensures Same(a, b) <==> AreEqual(a, b)
  {
  }

  /**
   * How the accepted and the final value part at a location. Containers of one kind do not part themselves,
   * and nothing parts below values of which not both are there as containers of one kind.
   */
  ghost function PartsAt(accepted: Option<Value>, final: Option<Value>, l: Location): Option<Change>
    decreases |l|
  {
    match (accepted, final)
    case (None, None) => None
    case (None, Some(_)) => if l == [] then Some(MissingInAccepted) else None
    case (Some(_), None) => if l == [] then Some(MissingInFinal) else None
    case (Some(a), Some(b)) =>
      if (a.List? && b.List?) || (a.Mapping? && b.Mapping?) then
        if l == [] then None else PartsAt(Child(a, l[0]), Child(b, l[0]), l[1..])
      else if l != [] || AreEqual(a, b) then None
      else if KindOf(a) == KindOf(b) then Some(ValueChanged)
      else Some(TypeChanged(KindOf(a), KindOf(b)))
  }

  function StepText(step: Step): string {
    match step case Key(k) => Escaped(k) case Index(i) => Decimal.Digits(i)
  }

  /** A location's name, shortened to a digest wherever on the way down it is too long or has other characters. */
  function NameOf(digest: Digest, path: string, l: Location): string
    decreases |l|
  {
    if l == [] then path else NameOf(digest, Label(digest, path + "/" + StepText(l[0])), l[1..])
  }

  predicate StepLess(s: Step, t: Step) {
    match (s, t)
    case (Key(a), Key(b)) => a != b && AtMost(a, b)
    case (Index(i), Index(j)) => i < j
    case _ => false
  }

  /** The order of a depth-first walk: by key or position, and a container before its content. */
  predicate Before(l: Location, m: Location)
    decreases |l|
  {
    m != [] && (l == [] || StepLess(l[0], m[0]) || (l[0] == m[0] && Before(l[1..], m[1..])))
  }

  // ---- equal values part nowhere ----

  lemma {:induction false} SamePartsNowhere(a: Value, b: Value, l: Location)
    requires Same(a, b)
    ensures PartsAt(Some(a), Some(b), l) == None
    decreases |l|
  {
    if !(a.List? && b.List?) && !(a.Mapping? && b.Mapping?) {
      ScalarsAreSame(a, b);
    } else if l != [] {
      var x, y := Child(a, l[0]), Child(b, l[0]);
      assert x.Some? <==> y.Some?;
      if x.Some? {
        SamePartsNowhere(x.value, y.value, l[1..]);
      }
    }
  }

  // ---- locations of one entry ----

  /** Each report names its location and says how the values part there. */
  ghost predicate Tells(digest: Digest, e: Entry, places: seq<Location>, out: seq<(string, Change)>) {
    && |places| == |out|
    && (forall i :: 0 <= i < |out| ==> out[i].0 == NameOf(digest, e.path, places[i]))
    && (forall i :: 0 <= i < |out| ==> PartsAt(e.before, e.after, places[i]) == Some(out[i].1))
  }

  ghost predicate Rising(places: seq<Location>) {
    forall i, j :: 0 <= i < j < |places| ==> Before(places[i], places[j])
  }

  ghost predicate Covers(e: Entry, places: seq<Location>) {
    forall l :: PartsAt(e.before, e.after, l).Some? ==> l in places
  }

  function StepAt(e: Entry, k: nat): Step
    requires Opens(e)
  {
    var a, b := e.before.value, e.after.value;
    if a.List? then Index(k)
    else
      var keys := Sorted(a.fields.Keys + b.fields.Keys);
      Key(if k < |keys| then keys[k] else "")
  }

  /** The entries inside are the children, each at its step, and every child is one of them. */
  lemma InsideAreChildren(digest: Digest, e: Entry, k: nat)
    requires Opens(e) && k < |Inside(digest, e)|
    ensures var x, step := Inside(digest, e)[k], StepAt(e, k);
            && x.path == Label(digest, e.path + "/" + StepText(step))
            && x.before == Child(e.before.value, step) && x.after == Child(e.after.value, step)
            && (x.before.Some? || x.after.Some?)
  {
    var a, b := e.before.value, e.after.value;
    if a.Mapping? {
      var keys := Sorted(a.fields.Keys + b.fields.Keys);
      assert keys[k] in keys;
    }
  }

  lemma EveryChildIsInside(digest: Digest, e: Entry, step: Step)
    requires Opens(e) && (Child(e.before.value, step).Some? || Child(e.after.value, step).Some?)
    ensures exists k :: 0 <= k < |Inside(digest, e)| && StepAt(e, k) == step
  {
    var a, b := e.before.value, e.after.value;
    if a.Mapping? {
      var keys := Sorted(a.fields.Keys + b.fields.Keys);
      assert step.k in keys;
      var k :| 0 <= k < |keys| && keys[k] == step.k;
      assert StepAt(e, k) == step;
    } else {
      assert StepAt(e, step.i) == step;
    }
  }

  lemma StepsAscend(digest: Digest, e: Entry, j: nat, k: nat)
    requires Opens(e) && j < k < |Inside(digest, e)|
    ensures StepLess(StepAt(e, j), StepAt(e, k)) && StepAt(e, j) != StepAt(e, k)
  {
  }

  /** All lie inside an entry from the `k`th on. */
  ghost predicate StartFrom(digest: Digest, e: Entry, k: nat, places: seq<Location>)
    requires Opens(e)
  {
    forall i :: 0 <= i < |places| ==>
      places[i] != [] && exists j :: k <= j < |Inside(digest, e)| && places[i][0] == StepAt(e, j)
  }

  ghost predicate CoverFrom(digest: Digest, e: Entry, k: nat, places: seq<Location>)
    requires Opens(e)
  {
    forall l, j ::
      (PartsAt(e.before, e.after, l).Some? && l != [] && k <= j < |Inside(digest, e)| && l[0] == StepAt(e, j)) ==>
        l in places
  }

  function Under(step: Step, ls: seq<Location>): seq<Location> {
    seq(|ls|, i requires 0 <= i < |ls| => [step] + ls[i])
  }

  lemma OneDown(digest: Digest, e: Entry, x: Entry, step: Step, l: Location)
    requires Opens(e) && x.path == Label(digest, e.path + "/" + StepText(step))
    requires x.before == Child(e.before.value, step) && x.after == Child(e.after.value, step)
    ensures PartsAt(e.before, e.after, [step] + l) == PartsAt(x.before, x.after, l)
    ensures NameOf(digest, e.path, [step] + l) == NameOf(digest, x.path, l)
  {
    Prepended(step, l);
  }

  lemma ToldUnder(digest: Digest, e: Entry, k: nat, first: seq<Location>, out: seq<(string, Change)>)
    requires Opens(e) && k < |Inside(digest, e)| && Tells(digest, Inside(digest, e)[k], first, out)
    ensures Tells(digest, e, Under(StepAt(e, k), first), out)
  {
    var x, step := Inside(digest, e)[k], StepAt(e, k);
    InsideAreChildren(digest, e, k);
    hide Opens, Inside, StepAt, Child, Label, PartsAt, NameOf, StepText;
    var places := Under(step, first);
    forall i | 0 <= i < |out|
      ensures out[i].0 == NameOf(digest, e.path, places[i])
      ensures PartsAt(e.before, e.after, places[i]) == Some(out[i].1)
    {
      OneDown(digest, e, x, step, first[i]);
    }
  }

  lemma ToldConcat(digest: Digest, e: Entry, a: seq<Location>, out0: seq<(string, Change)>,
                   b: seq<Location>, out1: seq<(string, Change)>)
    requires Tells(digest, e, a, out0) && Tells(digest, e, b, out1)
    ensures Tells(digest, e, a + b, out0 + out1)
  {
    hide PartsAt, NameOf;
    var places, out := a + b, out0 + out1;
    forall i | 0 <= i < |out|
      ensures out[i].0 == NameOf(digest, e.path, places[i])
      ensures PartsAt(e.before, e.after, places[i]) == Some(out[i].1)
    {
      if i < |a| {
        assert places[i] == a[i] && out[i] == out0[i];
      } else {
        assert places[i] == b[i - |a|] && out[i] == out1[i - |a|];
      }
    }
  }

  lemma JoinedStart(digest: Digest, e: Entry, k: nat, first: seq<Location>, rest: seq<Location>)
    requires Opens(e) && k < |Inside(digest, e)| && StartFrom(digest, e, k + 1, rest)
    ensures StartFrom(digest, e, k, Under(StepAt(e, k), first) + rest)
  {
    hide Opens, Inside, StepAt;
    var places := Under(StepAt(e, k), first) + rest;
    forall i | 0 <= i < |places|
      ensures places[i] != [] && exists j :: k <= j < |Inside(digest, e)| && places[i][0] == StepAt(e, j)
    {
      if i < |first| {
        assert places[i][0] == StepAt(e, k);
      } else {
        assert places[i] == rest[i - |first|];
      }
    }
  }

  lemma JoinedRise(digest: Digest, e: Entry, k: nat, first: seq<Location>, rest: seq<Location>)
    requires Opens(e) && k < |Inside(digest, e)| && Rising(first) && Rising(rest) && StartFrom(digest, e, k + 1, rest)
    ensures Rising(Under(StepAt(e, k), first) + rest)
  {
    hide Opens, Inside, StepAt, StepLess;
    var step, places := StepAt(e, k), Under(StepAt(e, k), first) + rest;
    forall i, j | 0 <= i < j < |places| ensures Before(places[i], places[j]) {
      if j < |first| {
        Prepended(step, first[i]);
        Prepended(step, first[j]);
      } else if i < |first| {
        Prepended(step, first[i]);
        var m := rest[j - |first|];
        assert places[j] == m;
        var n :| k + 1 <= n < |Inside(digest, e)| && m[0] == StepAt(e, n);
        StepsAscend(digest, e, k, n);
      } else {
        assert places[i] == rest[i - |first|] && places[j] == rest[j - |first|];
      }
    }
  }

  lemma UnderHolds(step: Step, ls: seq<Location>, l: Location)
    requires l != [] && l[0] == step && l[1..] in ls
    ensures l in Under(step, ls)
  {
    var i :| 0 <= i < |ls| && ls[i] == l[1..];
    Front(l);
    assert Under(step, ls)[i] == l;
  }

  lemma JoinedCover(digest: Digest, e: Entry, k: nat, first: seq<Location>, rest: seq<Location>)
    requires Opens(e) && k < |Inside(digest, e)|
    requires Covers(Inside(digest, e)[k], first) && CoverFrom(digest, e, k + 1, rest)
    ensures CoverFrom(digest, e, k, Under(StepAt(e, k), first) + rest)
  {
    var x, step := Inside(digest, e)[k], StepAt(e, k);
    InsideAreChildren(digest, e, k);
    hide Opens, Inside, StepAt, Child, Label, PartsAt, NameOf, Under;
    var places := Under(step, first) + rest;
    forall l, j | PartsAt(e.before, e.after, l).Some? && l != [] && k <= j < |Inside(digest, e)| && l[0] == StepAt(e, j)
      ensures l in places
    {
      if j == k {
        Front(l);
        OneDown(digest, e, x, step, l[1..]);
        UnderHolds(step, first, l);
      } else {
        assert l in rest;
      }
    }
  }

  lemma ReportsFirst(e: Entry, es: seq<Entry>)
    ensures Reports([e] + es) == Told(e) + Reports(es)
    ensures Opens(e) ==> Told(e) + Reports(es) == Reports(es)
    ensures es == [] ==> Told(e) + Reports(es) == Told(e)
  {
    Prepended(e, es);
  }

  lemma {:induction false} Located(digest: Digest, e: Entry) returns (places: seq<Location>)
    requires e.before.Some? || e.after.Some?
    ensures Tells(digest, e, places, Reports(Visits(digest, e))) && Rising(places) && Covers(e, places)
    decreases e.before.Some?, if e.before.Some? then e.before.value else Null, |Inside(digest, e)| + 1
  {
    hide Tells, Rising, Covers, StartFrom, CoverFrom;
    var inside := Inside(digest, e);
    VisitsOpen(digest, e);
    if Opens(e) {
      places := LocatedFrom(digest, e, 0);
      assert inside[0..] == inside;
      ReportsFirst(e, VisitsAll(digest, inside));
      AllCovered(digest, e, places);
    } else {
      places := if Report(e).Some? then [[]] else [];
      ReportsFirst(e, []);
      LeafLocated(digest, e, places);
    }
  }

  lemma AllCovered(digest: Digest, e: Entry, places: seq<Location>)
    requires Opens(e) && CoverFrom(digest, e, 0, places)
    ensures Covers(e, places)
  {
    hide Inside, StepAt, Same, Child;
    forall l | PartsAt(e.before, e.after, l).Some? ensures l in places {
      var a, b := e.before.value, e.after.value;
      assert PartsAt(Child(a, l[0]), Child(b, l[0]), l[1..]).Some?;
      EveryChildIsInside(digest, e, l[0]);
    }
  }

  lemma LeafLocated(digest: Digest, e: Entry, places: seq<Location>)
    requires !Opens(e) && (e.before.Some? || e.after.Some?)
    requires places == if Report(e).Some? then [[]] else []
    ensures Tells(digest, e, places, Told(e)) && Rising(places) && Covers(e, places)
  {
    hide Same;
    forall l ensures PartsAt(e.before, e.after, l) == (if l == [] then Report(e) else None) {
      if e.before.Some? && e.after.Some? && Same(e.before.value, e.after.value) {
        SamePartsNowhere(e.before.value, e.after.value, l);
      } else if e.before.Some? && e.after.Some? {
        ScalarsAreSame(e.before.value, e.after.value);
      }
    }
    assert PartsAt(e.before, e.after, []) == Report(e);
  }

  lemma {:induction false} LocatedFrom(digest: Digest, e: Entry, k: nat) returns (places: seq<Location>)
    requires Opens(e) && k <= |Inside(digest, e)|
    ensures Tells(digest, e, places, Reports(VisitsAll(digest, Inside(digest, e)[k..]))) && Rising(places)
    ensures StartFrom(digest, e, k, places) && CoverFrom(digest, e, k, places)
    decreases e.before.Some?, if e.before.Some? then e.before.value else Null, |Inside(digest, e)| - k
  {
    var inside := Inside(digest, e);
    if k == |inside| {
      places := [];
    } else {
      InsideAreChildren(digest, e, k);
      hide *;
      var first := Located(digest, inside[k]);
      var rest := LocatedFrom(digest, e, k + 1);
      places := Under(StepAt(e, k), first) + rest;
      Joined(digest, e, k, first, rest);
    }
  }

  lemma Joined(digest: Digest, e: Entry, k: nat, first: seq<Location>, rest: seq<Location>)
    requires Opens(e) && k < |Inside(digest, e)|
    requires Tells(digest, Inside(digest, e)[k], first, Reports(Visits(digest, Inside(digest, e)[k])))
    requires Tells(digest, e, rest, Reports(VisitsAll(digest, Inside(digest, e)[k + 1..])))
    requires Rising(first) && Rising(rest) && Covers(Inside(digest, e)[k], first)
    requires StartFrom(digest, e, k + 1, rest) && CoverFrom(digest, e, k + 1, rest)
    ensures var places := Under(StepAt(e, k), first) + rest;
            && Tells(digest, e, places, Reports(VisitsAll(digest, Inside(digest, e)[k..]))) && Rising(places)
            && StartFrom(digest, e, k, places) && CoverFrom(digest, e, k, places)
  {
    hide *;
    var inside := Inside(digest, e);
    JoinedReports(digest, inside, k);
    ToldUnder(digest, e, k, first, Reports(Visits(digest, inside[k])));
    ToldConcat(digest, e, Under(StepAt(e, k), first), Reports(Visits(digest, inside[k])),
               rest, Reports(VisitsAll(digest, inside[k + 1..])));
    JoinedStart(digest, e, k, first, rest);
    JoinedRise(digest, e, k, first, rest);
    JoinedCover(digest, e, k, first, rest);
  }

  lemma JoinedReports(digest: Digest, es: seq<Entry>, k: nat)
    requires k < |es|
    ensures Reports(VisitsAll(digest, es[k..])) ==
              Reports(Visits(digest, es[k])) + Reports(VisitsAll(digest, es[k + 1..]))
  {
    hide Visits, Reports;
    assert es[k..][0] == es[k] && es[k..][1..] == es[k + 1..];
    ReportsConcat(Visits(digest, es[k]), VisitsAll(digest, es[k + 1..]));
  }

  /**
   * The diff tells every location at which the two values part, once, in depth-first order, under the name of the
   * location and with the way they part there, and nothing else.
   */
  lemma DiffTellsWhereTheyPart(digest: Digest, original: Value, current: Value) returns (places: seq<Location>)
    ensures var out := Diff(digest, original, current);
            && |places| == |out|
            && (forall i :: 0 <= i < |out| ==>
                  out[i].0 == NameOf(digest, "toolchain", places[i])
                  && PartsAt(Some(original), Some(current), places[i]) == Some(out[i].1))
            && (forall i, j :: 0 <= i < j < |places| ==> Before(places[i], places[j]))
            && forall l :: PartsAt(Some(original), Some(current), l).Some? <==> l in places
  {
    hide Visits, Reports;
    places := Located(digest, Entry("toolchain", Some(original), Some(current)));
  }

  // ---- names ----

  /** A reference token read back, RFC 6901, section 4. */
  function Unescaped(s: string): Option<string> {
    if s == "" then Some("")
    else if s[0] == '/' then None
    else if s[0] != '~' then
      match Unescaped(s[1..])
      case None => None
      case Some(rest) => Some([s[0]] + rest)
    else if |s| == 1 || s[1] !in {'0', '1'} then None
    else
      match Unescaped(s[2..])
      case None => None
      case Some(rest) => Some((if s[1] == '0' then "~" else "/") + rest)
  }

  /** A key is written as such a token. */
  lemma {:induction false} KeysReadBack(key: string)
    ensures Unescaped(Escaped(key)) == Some(key)
  {
    if key != "" {
      KeysReadBack(key[1..]);
      var rest, s := Escaped(key[1..]), Escaped(key);
      Front(key);
      if key[0] == '~' {
        assert s == "~0" + rest && s[2..] == rest;
      } else if key[0] == '/' {
        assert s == "~1" + rest && s[2..] == rest;
      } else {
        assert s == [key[0]] + rest && s[1..] == rest;
      }
    }
  }

  /** Letters, digits, and the characters - . / _ and ~ by their code points. */
  predicate IsOrdinary(c: char) {
    var n := c as int;
    45 <= n <= 57 || 65 <= n <= 90 || n == 95 || 97 <= n <= 122 || n == 126
  }

  /** A name of up to two hundred ordinary characters is kept, and any other replaced by its digest. */
  lemma LabelsAreOrdinary(digest: Digest, s: string)
    ensures Label(digest, s) == if 1 <= |s| <= 200 && forall i :: 0 <= i < |s| ==> IsOrdinary(s[i]) then s
                                else "redacted-sha256-" + digest(s)
  {
    var others := "_./~-";
    assert others[0] == '_' && others[1] == '.' && others[2] == '/' && others[3] == '~' && others[4] == '-';
    forall c ensures c in others <==> c == '_' || c == '.' || c == '/' || c == '~' || c == '-' {}
    forall c ensures IsPlain(c) <==> IsOrdinary(c) {}
  }

  /** The type named in a report. */
  lemma KindsAreTypes(v: Value)
    ensures KindOf(v) == NoneType <==> v == Null
    ensures KindOf(v) == Bool <==> v == Boolean(true) || v == Boolean(false)
    ensures KindOf(v) == Int <==> exists n :: v == Whole(n)
    ensures KindOf(v) == Float <==> exists x :: v == Floating(x)
    ensures KindOf(v) == Str <==> exists s :: v == Text(s)
    ensures KindOf(v) == TreeDiff.Sequence <==> exists items :: v == List(items)
    ensures KindOf(v) == Dict <==> exists fields :: v == Mapping(fields)
  {
  }
}
