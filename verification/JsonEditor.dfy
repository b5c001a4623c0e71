// Replacing owned version fields in a JSON file, by splicing prepared edits from the back.
module JsonEditor {
  import opened Wrappers
  import opened JsonTokens
  import opened JsonText
  import opened JsonEdits
  import opened JsonDocument

  /** Which fields are owned: those of an npm lock file, or one field of a manifest. */
  datatype Target = NpmLock(package: string) | Manifest(field: seq<string>, owner: Option<string>)

  /** A version projection: text, or a bare build number. */
  datatype Projected = Wording(s: string) | Figure(n: int)

  function WordingOf(v: Projected): string { match v case Wording(s) => s case Figure(n) => IntText(n) }

  // ---- looking into values ----

  function FieldNamed(fs: seq<Field>, name: string): Option<Json> {
    if fs == [] then None else if fs[0].name == name then Some(fs[0].value) else FieldNamed(fs[1..], name)
  }

  function Keys(names: seq<string>): (p: Path)
    ensures |p| == |names| && forall i :: 0 <= i < |p| ==> p[i] == Key(names[i])
  {
    seq(|names|, i requires 0 <= i < |names| => Key(names[i]))
  }

  predicate IsKeyPath(p: Path) { forall i :: 0 <= i < |p| ==> p[i].Key? }

  function Get(j: Json, p: Path): Option<Json>
    decreases |p|
  {
    if p == [] then Some(j)
    else if !j.Object? || !p[0].Key? then None
    else match FieldNamed(j.fields, p[0].name)
      case None => None
      case Some(x) => Get(x, p[1..])
  }

  // ---- which fields, and what becomes of them ----

  predicate Names(j: Option<Json>, package: string) {
    j.Some? && j.value.Object? && FieldNamed(j.value.fields, "name") == Some(Atom(Str(package)))
  }

  const VERSION: Path := [Key("version")]
  const PACKAGES: Path := [Key("packages")]
  const OWN: Path := [Key("packages"), Key("")]
  const OWN_VERSION: Path := [Key("packages"), Key(""), Key("version")]

  function TargetFields(data: Json, target: Target): Option<seq<Path>> {
    match target
    case NpmLock(package) =>
      if !Names(Some(data), package) then None
      else if Get(data, PACKAGES).None? then Some([VERSION])
      else
        var own := Get(data, OWN);
        if own.Some? && own.value.Object? && (FieldNamed(own.value.fields, "name").Some? ==> Names(own, package))
        then Some([VERSION, OWN_VERSION]) else None
    case Manifest(field, package) =>
      if package.Some? && !Names(Some(data), package.value) then None else Some([Keys(field)])
  }

  /** What a field with this value becomes: text stays text and a number a number. */
  function Replacement(value: Projected, was: Option<Json>): Option<Scalar> {
    match was
    case Some(Atom(Str(_))) => Some(Str(WordingOf(value)))
    case Some(Atom(Int(_))) => if value.Figure? then Some(Int(value.n)) else None
    case _ => None
  }

  predicate Replaceable(data: Json, fields: seq<Path>, value: Projected) {
    forall f :: f in fields ==> Replacement(value, Get(data, f)).Some?
  }

  /** The fields whose value changes, and their new values. */
  function Changes(data: Json, fields: seq<Path>, value: Projected): (m: map<Path, Scalar>)
    requires Replaceable(data, fields, value)
    ensures forall f :: f in m ==> m[f].Str? || m[f].Int?
  {
    map f | f in fields && Get(data, f) != Some(Atom(Replacement(value, Get(data, f)).value))
      :: Replacement(value, Get(data, f)).value
  }

  function Dumps(m: map<Path, Scalar>): map<Path, string>
    requires forall f :: f in m ==> m[f].Str? || m[f].Int?
  {
    map f | f in m :: Dump(m[f])
  }

  function JsonEdit(text: string, target: Target, value: Projected): Option<string> {
    match ParseDocument(text)
    case None => None
    case Some((n, trail)) =>
      match TargetFields(ValueOf(n), target)
      case None => None
      case Some(fields) =>
        if !Replaceable(ValueOf(n), fields, value) then None
        else Some(Print(Rewrite(n, Dumps(Changes(ValueOf(n), fields, value)), []), trail))
  }

  // ---- editing commutes with parsing ----

  lemma DumpsAreTokens(m: map<Path, Scalar>)
    requires forall f :: f in m ==> m[f].Str? || m[f].Int?
    ensures Tokens(Dumps(m)) && Meanings(Dumps(m)) == m
  {
    forall f | f in m ensures IsToken(Dumps(m)[f]) && TokenMeaning(Dumps(m)[f]) == m[f] { DumpReadsBack(m[f]); }
  }

  /**
   * The edited text parses, with the same trailing space, to the original value with exactly the
   * changed fields replaced.
   */
  lemma EditCommutesWithParse(text: string, target: Target, value: Projected)
    requires JsonEdit(text, target, value).Some?
    ensures var (n, trail) := ParseDocument(text).value;
            var changes := Changes(ValueOf(n), TargetFields(ValueOf(n), target).value, value);
            var n' := Rewrite(n, Dumps(changes), []);
            && ParseDocument(JsonEdit(text, target, value).value) == Some((n', trail))
            && ValueOf(n') == Put(ValueOf(n), changes, [])
  {
    var (n, trail) := ParseDocument(text).value;
    var changes := Changes(ValueOf(n), TargetFields(ValueOf(n), target).value, value);
    DocumentsAreTheirText(text, n, trail);
    DumpsAreTokens(changes);
    RewriteWellFormed(n, Dumps(changes), []);
    RewriteValue(n, Dumps(changes), []);
    DocumentsAreTheirText(JsonEdit(text, target, value).value, Rewrite(n, Dumps(changes), []), trail);
  }

  lemma {:induction false} FieldAfterPut(fs: seq<Field>, m: map<Path, Scalar>, here: Path, name: string)
    ensures FieldNamed(PutFields(fs, m, here), name) ==
              if FieldNamed(fs, name).None? then None
              else Some(Put(FieldNamed(fs, name).value, m, here + [Key(name)]))
    decreases fs
  {
    if fs != [] && fs[0].name != name {
      FieldAfterPut(fs[1..], m, here, name);
      assert PutFields(fs, m, here)[1..] == PutFields(fs[1..], m, here);
    }
  }

  /** Looking a field up after replacing scalars finds what was there, with scalars replaced. */
  lemma {:induction false} GetAfterPut(j: Json, m: map<Path, Scalar>, here: Path, p: Path)
    ensures Get(Put(j, m, here), p) ==
              if Get(j, p).None? then None else Some(Put(Get(j, p).value, m, here + p))
    decreases |p|
  {
    if p == [] {
      assert here + p == here;
    } else if j.Object? && p[0].Key? {
      FieldAfterPut(j.fields, m, here, p[0].name);
      if FieldNamed(j.fields, p[0].name).Some? {
        GetAfterPut(FieldNamed(j.fields, p[0].name).value, m, here + [p[0]], p[1..]);
        assert here + [p[0]] + p[1..] == here + p;
      }
    }
  }

  /** A replaced scalar elsewhere leaves a scalar what it was; a replaced one has its new value. */
  lemma GetScalar(j: Json, m: map<Path, Scalar>, p: Path, v: Scalar)
    requires Get(j, p) == Some(Atom(v))
    ensures Get(Put(j, m, []), p) == Some(Atom(if p in m then m[p] else v))
  {
    GetAfterPut(j, m, [], p);
    assert [] + p == p;
  }

  /** Every owned field has the projected value afterwards. */
  lemma FieldsTakeValue(data: Json, fields: seq<Path>, value: Projected, f: Path)
    requires Replaceable(data, fields, value) && f in fields
    ensures var data' := Put(data, Changes(data, fields, value), []);
            Get(data', f) == Some(Atom(Replacement(value, Get(data, f)).value))
            && Replacement(value, Get(data', f)) == Replacement(value, Get(data, f))
  {
    var was := Get(data, f);
    assert was.Some? && was.value.Atom?;
    GetScalar(data, Changes(data, fields, value), f, was.value.v);
  }

  lemma NameKeys(field: seq<string>)
    ensures Keys(field) == [Key("name")] ==> field == ["name"]
  {
  }

  lemma GetName(j: Json)
    ensures j.Object? ==> Get(j, [Key("name")]) == FieldNamed(j.fields, "name")
    ensures !j.Object? ==> Get(j, [Key("name")]).None?
  {
    var p: Path := [Key("name")];
    assert p[1..] == [];
  }

  const NAME: Path := [Key("name")]
  const OWN_NAME: Path := [Key("packages"), Key(""), Key("name")]

  /** Where a target looks for its owner's name. */
  function NamePlaces(target: Target): set<Path> {
    match target
    case NpmLock(_) => {NAME, OWN_NAME}
    case Manifest(_, owner) => if owner.Some? then {NAME} else {}
  }

  function OwnerOf(target: Target): Option<string> {
    match target case NpmLock(package) => Some(package) case Manifest(_, owner) => owner
  }

  lemma GetOwnName(j: Json)
    ensures Get(j, OWN_NAME) == if Get(j, OWN).Some? then Get(Get(j, OWN).value, NAME) else None
  {
    assert OWN_NAME[1..] == [Key(""), Key("name")] && OWN_NAME[1..][1..] == NAME;
    assert OWN[1..] == [Key("")] && OWN[1..][1..] == [];
  }

  /** A target that is recognised finds its owner's name wherever there is one. */
  lemma NameIsOwner(data: Json, target: Target, p: Path)
    requires TargetFields(data, target).Some? && p in NamePlaces(target) && (p == NAME || Get(data, p).Some?)
    ensures Get(data, p) == Some(Atom(Str(OwnerOf(target).value)))
  {
    GetName(data);
    if p == OWN_NAME {
      GetOwnName(data);
      assert PACKAGES[1..] == [] && OWN[1..] == [Key("")];
      GetName(Get(data, OWN).value);
    }
  }

  /** The owner checks come out the same when no name they look at is replaced. */
  lemma TargetsStay(data: Json, m: map<Path, Scalar>, target: Target)
    requires TargetFields(data, target).Some? && forall p :: p in NamePlaces(target) ==> p !in m
    ensures TargetFields(Put(data, m, []), target) == TargetFields(data, target)
  {
    var data' := Put(data, m, []);
    GetName(data);
    GetName(data');
    if OwnerOf(target).Some? {
      assert NAME in NamePlaces(target);
      NameIsOwner(data, target, NAME);
      GetScalar(data, m, NAME, Str(OwnerOf(target).value));
    }
    if target.NpmLock? {
      OwnStays(data, m, target.package);
    }
  }

  lemma OwnStays(data: Json, m: map<Path, Scalar>, package: string)
    requires TargetFields(data, NpmLock(package)).Some? && OWN_NAME !in m
    ensures Get(Put(data, m, []), PACKAGES).None? <==> Get(data, PACKAGES).None?
    ensures Get(data, PACKAGES).Some? ==>
              var own := Get(Put(data, m, []), OWN);
              own.Some? && own.value.Object? && (FieldNamed(own.value.fields, "name").Some? ==> Names(own, package))
  {
    GetAfterPut(data, m, [], PACKAGES);
    GetAfterPut(data, m, [], OWN);
    if Get(data, PACKAGES).Some? {
      var own := Get(data, OWN).value;
      FieldAfterPut(own.fields, m, [] + OWN, "name");
      assert [] + OWN + [Key("name")] == OWN_NAME;
    }
  }

  /** The owner checks come out the same after the edit, unless the edit renames the owner. */
  lemma SameTargets(data: Json, target: Target, value: Projected)
    requires TargetFields(data, target).Some? && Replaceable(data, TargetFields(data, target).value, value)
    requires !RenamesOwner(target, value)
    ensures TargetFields(Put(data, Changes(data, TargetFields(data, target).value, value), []), target)
         == TargetFields(data, target)
  {
    var fields := TargetFields(data, target).value;
    var m := Changes(data, fields, value);
    forall p | p in NamePlaces(target) ensures p !in m {
      if p in fields {
        NameKeys(target.field);
        NameIsOwner(data, target, p);
      }
    }
    TargetsStay(data, m, target);
  }

  /** The one manifest an edit disowns: its owned field is the very name that proves ownership. */
  predicate RenamesOwner(target: Target, value: Projected) {
    target.Manifest? && target.owner.Some? && target.field == ["name"] && WordingOf(value) != target.owner.value
  }

  /** Editing again changes nothing, if and only if the edit has not renamed its own owner. */
  lemma EditIsStable(text: string, target: Target, value: Projected)
    requires JsonEdit(text, target, value).Some?
    ensures var text' := JsonEdit(text, target, value).value;
            JsonEdit(text', target, value) == Some(text') <==> !RenamesOwner(target, value)
  {
    var (n, trail) := ParseDocument(text).value;
    var data := ValueOf(n);
    var fields := TargetFields(data, target).value;
    var m := Changes(data, fields, value);
    EditCommutesWithParse(text, target, value);
    var n' := Rewrite(n, Dumps(m), []);
    var data' := ValueOf(n');
    if RenamesOwner(target, value) {
      var p: Path := [Key("name")];
      assert fields == [p] by { assert Keys(["name"]) == p; }
      GetName(data);
      GetName(data');
      FieldsTakeValue(data, fields, value, p);
    } else {
      SameTargets(data, target, value);
      forall f | f in fields
        ensures Replacement(value, Get(data', f)).Some?
             && Get(data', f) == Some(Atom(Replacement(value, Get(data', f)).value))
      {
        FieldsTakeValue(data, fields, value, f);
      }
      assert Changes(data', fields, value) == map[];
      assert Dumps(map[]) == map[];
      RewriteNothing(n', []);
    }
  }

  // ---- which edits succeed ----

  /** The field is text, or a number and the value one. */
  predicate CanTake(v: Projected, was: Option<Json>) {
    match was
    case Some(Atom(Str(_))) => true
    case Some(Atom(Int(_))) => v.Figure?
    case _ => false
  }

  /** What a field reads once it has taken the value: the same kind of thing as before. */
  predicate Reads(v: Projected, was: Option<Json>, now: Option<Json>) {
    match was
    case Some(Atom(Str(_))) => now == Some(Atom(Str(WordingOf(v))))
    case Some(Atom(Int(_))) => v.Figure? && now == Some(Atom(Int(v.n)))
    case _ => false
  }

  /** A manifest that bears its owner's name, if one is required, and has a field for the value. */
  predicate ManifestTakes(data: Json, field: seq<string>, owner: Option<string>, v: Projected) {
    && (owner.Some? ==> Get(data, [Key("name")]) == Some(Atom(Str(owner.value))))
    && CanTake(v, Get(data, Keys(field)))
  }

  /** A lock file of the package; with a list of packages, its root package is there and not another's. */
  predicate LockTakes(data: Json, package: string, v: Projected) {
    && Get(data, [Key("name")]) == Some(Atom(Str(package))) && CanTake(v, Get(data, [Key("version")]))
    && (Get(data, [Key("packages")]).Some? ==>
          && Get(data, [Key("packages"), Key("")]).Some? && Get(data, [Key("packages"), Key("")]).value.Object?
          && Get(data, [Key("packages"), Key(""), Key("name")]) in {None, Some(Atom(Str(package)))}
          && CanTake(v, Get(data, [Key("packages"), Key(""), Key("version")])))
  }

  lemma TakesIffReplaces(v: Projected, was: Option<Json>)
    ensures CanTake(v, was) <==> Replacement(v, was).Some?
    ensures CanTake(v, was) ==> Reads(v, was, Some(Atom(Replacement(v, was).value)))
  {
  }

  /** A manifest is edited exactly when it takes the value, and then its field reads it. */
  lemma ManifestEdits(text: string, field: seq<string>, owner: Option<string>, v: Projected)
    ensures JsonEdit(text, Manifest(field, owner), v).Some? <==>
              ParseDocument(text).Some? && ManifestTakes(ValueOf(ParseDocument(text).value.0), field, owner, v)
    ensures JsonEdit(text, Manifest(field, owner), v).Some? ==>
              var after := ParseDocument(JsonEdit(text, Manifest(field, owner), v).value);
              && after.Some?
              && Reads(v, Get(ValueOf(ParseDocument(text).value.0), Keys(field)),
                       Get(ValueOf(after.value.0), Keys(field)))
  {
    if ParseDocument(text).Some? {
      var data := ValueOf(ParseDocument(text).value.0);
      GetName(data);
      TakesIffReplaces(v, Get(data, Keys(field)));
      if JsonEdit(text, Manifest(field, owner), v).Some? {
        EditCommutesWithParse(text, Manifest(field, owner), v);
        FieldsTakeValue(data, [Keys(field)], v, Keys(field));
      }
    }
  }

  lemma RootOfPackages(data: Json)
    ensures Get(data, [Key("packages"), Key("")]).Some? ==> Get(data, [Key("packages")]).Some?
    ensures Get(data, [Key("packages"), Key(""), Key("name")])
         == if Get(data, [Key("packages"), Key("")]).None? || !Get(data, [Key("packages"), Key("")]).value.Object?
            then None else FieldNamed(Get(data, [Key("packages"), Key("")]).value.fields, "name")
  {
    GetOwnName(data);
    assert OWN == [Key("packages"), Key("")] && PACKAGES == [Key("packages")] && OWN[1..] == [Key("")]
        && OWN[0] == PACKAGES[0];
    assert PACKAGES[1..] == [];
    if Get(data, OWN).Some? { GetName(Get(data, OWN).value); }
  }

  /** The owner checks of a lock file and its version fields. */
  lemma LockTargets(data: Json, package: string, v: Projected)
    ensures LockTakes(data, package, v) <==>
              TargetFields(data, NpmLock(package)).Some?
              && Replaceable(data, TargetFields(data, NpmLock(package)).value, v)
    ensures TargetFields(data, NpmLock(package)).Some? ==>
              TargetFields(data, NpmLock(package)).value ==
              if Get(data, [Key("packages")]).Some? then [VERSION, OWN_VERSION] else [VERSION]
  {
    hide Replacement, CanTake, Get;
    GetName(data);
    RootOfPackages(data);
    TakesIffReplaces(v, Get(data, VERSION));
    TakesIffReplaces(v, Get(data, OWN_VERSION));
  }

  /** A lock file is edited exactly when it takes the value, and then each of its version fields reads it. */
  lemma LockEdits(text: string, package: string, v: Projected)
    ensures JsonEdit(text, NpmLock(package), v).Some? <==>
              ParseDocument(text).Some? && LockTakes(ValueOf(ParseDocument(text).value.0), package, v)
    ensures JsonEdit(text, NpmLock(package), v).Some? ==>
              var data := ValueOf(ParseDocument(text).value.0);
              var after := ParseDocument(JsonEdit(text, NpmLock(package), v).value);
              && after.Some?
              && Reads(v, Get(data, [Key("version")]), Get(ValueOf(after.value.0), [Key("version")]))
              && (Get(data, [Key("packages")]).Some? ==>
                    Reads(v, Get(data, [Key("packages"), Key(""), Key("version")]),
                          Get(ValueOf(after.value.0), [Key("packages"), Key(""), Key("version")])))
  {
    hide TargetFields, LockTakes, Reads, Get, Changes, Replacement;
    if ParseDocument(text).Some? {
      var data := ValueOf(ParseDocument(text).value.0);
      LockTargets(data, package, v);
      TakesIffReplaces(v, Get(data, VERSION));
      TakesIffReplaces(v, Get(data, OWN_VERSION));
      if JsonEdit(text, NpmLock(package), v).Some? {
        var fields := TargetFields(data, NpmLock(package)).value;
        EditCommutesWithParse(text, NpmLock(package), v);
        FieldsTakeValue(data, fields, v, VERSION);
        if OWN_VERSION in fields { FieldsTakeValue(data, fields, v, OWN_VERSION); }
      }
    }
  }

  // ---- spans are exactly the scalars ----

  lemma {:induction false} SpanIffScalar(n: Node, at: nat, here: Path, p: Path)
    requires WellFormed(n) && IsKeyPath(p)
    ensures here + p in Spans(n, at, here) <==> Get(ValueOf(n), p).Some? && Get(ValueOf(n), p).value.Atom?
    decreases n, 1
  {
    match n
    case Leaf(_, _) =>
      assert here + p == here <==> p == [];
    case Dict(lead, _, members) =>
      if p == [] {
        if here in Spans(n, at, here) { MemberSpansBelow(members, at + |lead| + 1, here, here); }
        assert here + p == here;
      } else {
        MemberSpanIffScalar(members, {}, at + |lead| + 1, here, p);
      }
    case List(lead, _, elements) =>
      if here + p in Spans(n, at, here) {
        ElementSpansBelow(elements, at + |lead| + 1, here, 0, here + p);
      }
  }

  lemma {:induction false} MemberSpanIffScalar(ms: seq<Member>, seen: set<string>, at: nat, here: Path, p: Path)
    requires WellFormedMembers(ms, seen) && IsKeyPath(p) && p != []
    ensures var x := FieldNamed(FieldsOf(ms), p[0].name);
            here + p in MemberSpans(ms, at, here) <==>
              x.Some? && Get(x.value, p[1..]).Some? && Get(x.value, p[1..]).value.Atom?
    decreases ms, 0
  {
    hide Get, ValueOf, Spans, AllSpace;
    if ms != [] {
      var m := ms[0];
      var step := here + [Key(KeyName(m.key))];
      assert (here + p)[|here|] == p[0];
      if KeyName(m.key) == p[0].name {
        assert step + p[1..] == here + p;
        SpanIffScalar(m.value, at + ValueOffset(m), step, p[1..]);
        if here + p in MemberSpans(ms, at, here) { FirstOrRest(ms, seen, at, here, here + p); }
      } else {
        if here + p in Spans(m.value, at + ValueOffset(m), step) {
          SpansBelow(m.value, at + ValueOffset(m), step, here + p);
        }
        MemberSpanIffScalar(ms[1..], seen + {KeyOf(m.key)}, at + MemberLength(m) + 1, here, p);
        assert FieldsOf(ms)[1..] == FieldsOf(ms[1..]);
      }
    }
  }

  // ---- the edit as the source runs it ----

  predicate Distinct(fields: seq<Path>) {
    forall i, j :: 0 <= i < j < |fields| ==> fields[i] != fields[j]
  }

  lemma TargetsDistinct(data: Json, target: Target)
    requires TargetFields(data, target).Some?
    ensures Distinct(TargetFields(data, target).value)
  {
    assert VERSION[0] != OWN_VERSION[0];
  }

  function Insert(e: Edit, es: seq<Edit>): seq<Edit> {
    if es == [] || e.start > es[0].start then [e] + es else [es[0]] + Insert(e, es[1..])
  }

  /** The edits sorted from the back of the text to its front. */
  function FromTheBack(es: seq<Edit>): seq<Edit> {
    if es == [] then [] else Insert(es[0], FromTheBack(es[1..]))
  }

  ghost predicate Fit(n: Node, e: Edit) {
    e.path in Spans(n, 0, []) && Spans(n, 0, [])[e.path] == (e.start, e.end) && IsToken(e.tok)
  }

  ghost predicate Prepared(n: Node, es: seq<Edit>) {
    es == [] || (Fit(n, es[0]) && es[0].path !in Assigned(es[1..]) && Prepared(n, es[1..]))
  }

  predicate Falling(es: seq<Edit>) {
    |es| <= 1 || (es[0].start > es[1].start && Falling(es[1..]))
  }

  /** Each edit stands at a scalar of its own, so starts differ where paths do. */
  lemma StartsDiffer(n: Node, e: Edit, f: Edit)
    requires WellFormed(n) && Fit(n, e) && Fit(n, f) && e.path != f.path
    ensures e.start != f.start
  {
    SpansDisjoint(n, 0, [], e.path, f.path);
    SpanWithin(n, 0, [], e.path);
    SpanWithin(n, 0, [], f.path);
  }

  lemma {:induction false} InsertKeeps(n: Node, e: Edit, es: seq<Edit>)
    requires WellFormed(n) && Prepared(n, es) && Falling(es) && Fit(n, e) && e.path !in Assigned(es)
    ensures Prepared(n, Insert(e, es)) && Falling(Insert(e, es))
    ensures Assigned(Insert(e, es)) == Assigned(es) + map[e.path := e.tok]
    ensures es != [] && e.start <= es[0].start ==> Insert(e, es)[0] == es[0]
    decreases |es|
  {
    if es == [] || e.start > es[0].start {
      AssignedFirst(e, es);
    } else {
      StartsDiffer(n, e, es[0]);
      InsertKeeps(n, e, es[1..]);
      assert Insert(e, es)[1..] == Insert(e, es[1..]);
      UnionAssoc(map[es[0].path := es[0].tok], Assigned(es[1..]), map[e.path := e.tok]);
    }
  }

  lemma AssignedFirst(e: Edit, es: seq<Edit>)
    requires e.path !in Assigned(es)
    ensures ([e] + es)[0] == e && ([e] + es)[1..] == es
    ensures Assigned([e] + es) == Assigned(es) + map[e.path := e.tok]
  {
    assert ([e] + es)[1..] == es;
  }

  lemma {:induction false} SortKeeps(n: Node, es: seq<Edit>)
    requires WellFormed(n) && Prepared(n, es)
    ensures Prepared(n, FromTheBack(es)) && Falling(FromTheBack(es))
    ensures Assigned(FromTheBack(es)) == Assigned(es)
    decreases |es|
  {
    if es != [] {
      SortKeeps(n, es[1..]);
      InsertKeeps(n, es[0], FromTheBack(es[1..]));
    }
  }

  lemma {:induction false} FallingDescends(n: Node, es: seq<Edit>)
    requires Prepared(n, es) && Falling(es)
    ensures Fits(n, es) && Descending(es) && forall i :: 0 <= i < |es| ==> IsToken(es[i].tok)
    decreases |es|
  {
    if es != [] {
      var rest := es[1..];
      FallingDescends(n, rest);
      forall i | 0 < i < |es| ensures es[i] == rest[i - 1] && es[0].start > es[i].start {
        assert i > 1 ==> rest[0].start > rest[i - 1].start;
      }
    }
  }

  /** No edit when the field already has its new value, and otherwise one. */
  function FieldEdit(was: Option<Json>, f: Path, span: Span, replacement: Scalar): seq<Edit>
    requires replacement.Str? || replacement.Int?
  {
    if was == Some(Atom(replacement)) then [] else [Edit(f, span.0, span.1, Dump(replacement))]
  }

  /** The edits prepared for some fields, in the order of the fields. */
  function EditsOf(data: Json, spans: map<Path, Span>, fields: seq<Path>, value: Projected): seq<Edit>
    requires Replaceable(data, fields, value) && forall f :: f in fields ==> f in spans
  {
    if fields == [] then [] else
      var last := fields[|fields| - 1];
      EditsOf(data, spans, fields[..|fields| - 1], value)
      + FieldEdit(Get(data, last), last, spans[last], Replacement(value, Get(data, last)).value)
  }

  lemma EditsOfGrows(data: Json, spans: map<Path, Span>, fields: seq<Path>, f: Path, value: Projected)
    requires Replaceable(data, fields, value) && (forall f :: f in fields ==> f in spans)
    requires Replacement(value, Get(data, f)).Some? && f in spans
    ensures Replaceable(data, fields + [f], value) && (forall g :: g in fields + [f] ==> g in spans)
    ensures EditsOf(data, spans, fields + [f], value)
         == EditsOf(data, spans, fields, value)
            + FieldEdit(Get(data, f), f, spans[f], Replacement(value, Get(data, f)).value)
  {
    assert (fields + [f])[..|fields|] == fields;
  }

  lemma {:induction false} PreparedGrows(n: Node, es: seq<Edit>, e: Edit)
    requires Prepared(n, es) && Fit(n, e) && e.path !in Assigned(es)
    ensures Prepared(n, es + [e]) && Assigned(es + [e]) == Assigned(es) + map[e.path := e.tok]
    decreases |es|
  {
    if es == [] {
      assert es + [e] == [e] && [e][1..] == [];
    } else {
      assert (es + [e])[1..] == es[1..] + [e];
      PreparedGrows(n, es[1..], e);
    }
  }

  lemma ChangesGrow(data: Json, fields: seq<Path>, f: Path, value: Projected)
    requires Replaceable(data, fields + [f], value) && Replaceable(data, fields, value) && f !in fields
    ensures Changes(data, fields + [f], value) == Changes(data, fields, value)
         + if Get(data, f) == Some(Atom(Replacement(value, Get(data, f)).value)) then map[]
           else map[f := Replacement(value, Get(data, f)).value]
  {
    var a, b := Changes(data, fields + [f], value), Changes(data, fields, value);
    assert f in fields + [f] && f !in b;
    assert forall g :: g in fields + [f] <==> g in fields || g == f;
    assert forall g :: g in a && g != f <==> g in b;
  }

  lemma DumpsGrow(changes: map<Path, Scalar>, f: Path, v: Scalar)
    requires (forall g :: g in changes ==> changes[g].Str? || changes[g].Int?) && (v.Str? || v.Int?)
    ensures Dumps(changes + map[f := v]) == Dumps(changes) + map[f := Dump(v)]
  {
  }

  lemma EditJoins(n: Node, es: seq<Edit>, changes: map<Path, Scalar>, was: Option<Json>, f: Path, v: Scalar)
    requires (forall g :: g in changes ==> changes[g].Str? || changes[g].Int?) && (v.Str? || v.Int?)
    requires Prepared(n, es) && Assigned(es) == Dumps(changes) && f in Spans(n, 0, []) && f !in changes
    ensures var more := FieldEdit(was, f, Spans(n, 0, [])[f], v);
            var after := changes + if was == Some(Atom(v)) then map[] else map[f := v];
            (forall g :: g in after ==> after[g].Str? || after[g].Int?)
            && Prepared(n, es + more) && Assigned(es + more) == Dumps(after)
  {
    if was == Some(Atom(v)) {
      assert es + [] == es;
      UnionNothing(changes);
    } else {
      var span := Spans(n, 0, [])[f];
      DumpReadsBack(v);
      PreparedGrows(n, es, Edit(f, span.0, span.1, Dump(v)));
      DumpsGrow(changes, f, v);
    }
  }

  lemma OneMoreEdit(n: Node, fields: seq<Path>, f: Path, value: Projected, es: seq<Edit>)
    requires Replaceable(ValueOf(n), fields + [f], value) && Replaceable(ValueOf(n), fields, value) && f !in fields
    requires Prepared(n, es) && Assigned(es) == Dumps(Changes(ValueOf(n), fields, value)) && f in Spans(n, 0, [])
    requires Replacement(value, Get(ValueOf(n), f)).Some?
    ensures var more := FieldEdit(Get(ValueOf(n), f), f, Spans(n, 0, [])[f],
        Replacement(value, Get(ValueOf(n), f)).value);
            Prepared(n, es + more) && Assigned(es + more) == Dumps(Changes(ValueOf(n), fields + [f], value))
  {
    ChangesGrow(ValueOf(n), fields, f, value);
    EditJoins(n, es, Changes(ValueOf(n), fields, value), Get(ValueOf(n), f), f,
      Replacement(value, Get(ValueOf(n), f)).value);
  }

  lemma {:induction false} EditsArePrepared(n: Node, fields: seq<Path>, value: Projected)
    requires WellFormed(n) && Replaceable(ValueOf(n), fields, value) && Distinct(fields)
    requires forall f :: f in fields ==> f in Spans(n, 0, [])
    ensures var es := EditsOf(ValueOf(n), Spans(n, 0, []), fields, value);
            Prepared(n, es) && Assigned(es) == Dumps(Changes(ValueOf(n), fields, value))
    decreases |fields|
  {
    if fields == [] {
      assert Changes(ValueOf(n), fields, value) == map[];
    } else {
      var last, init := fields[|fields| - 1], fields[..|fields| - 1];
      assert fields == init + [last];
      EditsArePrepared(n, init, value);
      OneMoreEdit(n, init, last, value, EditsOf(ValueOf(n), Spans(n, 0, []), init, value));
    }
  }

  /** Sorting the prepared edits and splicing each in turn rewrites the document. */
  lemma SplicedIsRewritten(n: Node, trail: string, fields: seq<Path>, value: Projected)
    requires WellFormed(n) && Replaceable(ValueOf(n), fields, value) && Distinct(fields)
    requires forall f :: f in fields ==> f in Spans(n, 0, [])
    ensures SpliceAll(Print(n, trail), FromTheBack(EditsOf(ValueOf(n), Spans(n, 0, []), fields, value)))
         == Some(Print(Rewrite(n, Dumps(Changes(ValueOf(n), fields, value)), []), trail))
  {
    var es := EditsOf(ValueOf(n), Spans(n, 0, []), fields, value);
    EditsArePrepared(n, fields, value);
    SortKeeps(n, es);
    FallingDescends(n, FromTheBack(es));
    SpliceAllIsRewrite(n, trail, FromTheBack(es));
  }

  method SplicedFromTheBack(text: string, edits: seq<Edit>) returns (edited: string)
    requires SpliceAll(text, edits).Some?
    ensures Some(edited) == SpliceAll(text, edits)
  {
    edited := text;
    for k := 0 to |edits|
      invariant SpliceAll(edited, edits[k..]) == SpliceAll(text, edits)
    {
      assert edits[k..][1..] == edits[k + 1..];
      edited := Splice(edited, edits[k].start, edits[k].end, edits[k].tok);
    }
  }

  ghost predicate Found(data: Json, fields: seq<Path>, values: seq<Json>) {
    |values| == |fields| && forall i :: 0 <= i < |fields| ==> Get(data, fields[i]) == Some(values[i])
  }

  ghost predicate PreparedFor(data: Json, spans: map<Path, Span>, fields: seq<Path>, value: Projected,
                              edits: seq<Edit>, previous: seq<Json>) {
    && Replaceable(data, fields, value) && (forall f :: f in fields ==> f in spans)
    && edits == EditsOf(data, spans, fields, value) && Found(data, fields, previous)
  }

  lemma OneMorePrepared(data: Json, spans: map<Path, Span>, fields: seq<Path>, f: Path, value: Projected,
                        edits: seq<Edit>, previous: seq<Json>)
    requires PreparedFor(data, spans, fields, value, edits, previous)
    requires Get(data, f).Some? && f in spans && Replacement(value, Get(data, f)).Some?
    ensures PreparedFor(data, spans, fields + [f], value,
                        edits + FieldEdit(Get(data, f), f, spans[f], Replacement(value, Get(data, f)).value),
                        previous + [Get(data, f).value])
  {
    EditsOfGrows(data, spans, fields, f, value);
  }

  /** The edits for the target fields and what stood there, or nothing when some field cannot take the value. */
  method PrepareEdits(data: Json, spans: map<Path, Span>, fields: seq<Path>, value: Projected)
    returns (r: Option<(seq<Edit>, seq<Json>)>)
    requires forall f :: f in fields && f !in spans ==> Replacement(value, Get(data, f)).None?
    ensures r.None? ==> !Replaceable(data, fields, value)
    ensures r.Some? ==> Replaceable(data, fields, value)
    ensures r.Some? ==> forall f :: f in fields ==> f in spans
    ensures r.Some? ==> r.value.0 == EditsOf(data, spans, fields, value)
    ensures r.Some? ==> Found(data, fields, r.value.1)
  {
    var edits: seq<Edit> := [];
    var previous: seq<Json> := [];
    for k := 0 to |fields|
      invariant PreparedFor(data, spans, fields[..k], value, edits, previous)
    {
      var field := fields[k];
      var was := Get(data, field);
      if was.None? || field !in spans || Replacement(value, was).None? {
        assert field in fields;
        return None;
      }
      OneMorePrepared(data, spans, fields[..k], field, value, edits, previous);
      assert fields[..k + 1] == fields[..k] + [field];
      edits := edits + FieldEdit(was, field, spans[field], Replacement(value, was).value);
      previous := previous + [was.value];
    }
    assert fields[..|fields|] == fields;
    return Some((edits, previous));
  }

  /** The source's edit is the rewriting of the parsed document, whatever the text; it also says what stood there. */
  method EditJson(text: string, target: Target, value: Projected) returns (r: Option<(string, seq<Json>)>)
    ensures match r
            case None => JsonEdit(text, target, value).None?
            case Some((edited, previous)) =>
              JsonEdit(text, target, value) == Some(edited)
              && var data := ValueOf(ParseDocument(text).value.0);
                 Found(data, TargetFields(data, target).value, previous)
  {
    var document := new JsonDocument(text);
    var parsed := document.Parse(0, [], text);
    if parsed.None? {
      return None;
    }
    var (data, end) := parsed.value;
    ghost var (n, trail) := ParseNode(text).value;
    AllSpaceIffSkipped(trail);
    var last := document.Whitespace(end, trail);
    if last != |text| {
      return None;
    }
    DocumentsAreTheirText(text, n, trail);
    var targets := TargetFields(data, target);
    if targets.None? {
      return None;
    }
    TargetsDistinct(data, target);
    UnspannedIsNoScalar(n, target, value);
    assert map[] + Spans(n, 0, []) == Spans(n, 0, []);
    var prepared := PrepareEdits(data, document.spans, targets.value, value);
    if prepared.None? {
      return None;
    }
    SplicedIsRewritten(n, trail, targets.value, value);
    var edited := SplicedFromTheBack(text, FromTheBack(prepared.value.0));
    return Some((edited, prepared.value.1));
  }

  lemma TargetsAreKeyPaths(data: Json, target: Target)
    requires TargetFields(data, target).Some?
    ensures forall f :: f in TargetFields(data, target).value ==> IsKeyPath(f)
  {
  }

  lemma UnspannedIsNoScalar(n: Node, target: Target, value: Projected)
    requires WellFormed(n) && TargetFields(ValueOf(n), target).Some?
    ensures forall f :: f in TargetFields(ValueOf(n), target).value && f !in Spans(n, 0, []) ==>
              Replacement(value, Get(ValueOf(n), f)).None?
  {
    TargetsAreKeyPaths(ValueOf(n), target);
    forall f | f in TargetFields(ValueOf(n), target).value && f !in Spans(n, 0, [])
      ensures Replacement(value, Get(ValueOf(n), f)).None?
    {
      SpanIffScalar(n, 0, [], f);
      assert [] + f == f;
    }
  }

  lemma {:induction false} AllSpaceIffSkipped(s: string)
    ensures AllSpace(s) <==> Skip(s) == ""
  {
    if s != "" && IsSpace(s[0]) {
      AllSpaceIffSkipped(s[1..]);
      assert AllSpace(s) <==> AllSpace(s[1..]) by { assert s == [s[0]] + s[1..]; }
    }
  }
}
