// Synchronising every declared version field with a plan: all edits are prepared first, then every
// declaration must already hold in the result, and only then is anything written.
module Sync {
  import opened Wrappers
  import opened JsonTokens
  import opened JsonText
  import opened JsonEdits
  import opened JsonEditor

  /** One owned field: a JSON target, or a field only its own editor understands. */
  datatype Format = Json(target: Target) | Other(kind: string)

  datatype Declaration = Declaration(path: string, format: Format, value: Projected)

  /** An editor sets a declared field in the text of a file, or refuses. */
  type Editor = (string, Declaration) -> Option<string>

  type Files = map<string, string>

  /** Files as written, and the text of each declared one; or nothing is written at all. */
  datatype Outcome = Refused | Synced(files: Files, edited: Files)

  function EditFile(other: Editor, text: string, d: Declaration): Option<string> {
    match d.format
    case Json(target) => JsonEdit(text, target, d.value)
    case Other(_) => other(text, d)
  }

  /** Prepares the edits in turn, each on what the ones before it left. */
  function EditAll(other: Editor, files: Files, edited: Files, ds: seq<Declaration>): Option<Files>
    decreases |ds|
  {
    if ds == [] then Some(edited)
    else if ds[0].path !in files then None
    else
      var text := if ds[0].path in edited then edited[ds[0].path] else files[ds[0].path];
      match EditFile(other, text, ds[0])
      case None => None
      case Some(updated) => EditAll(other, files, edited[ds[0].path := updated], ds[1..])
  }

  /** The declaration holds of these files: setting its field changes nothing. */
  predicate Holds(other: Editor, files: Files, d: Declaration) {
    d.path in files && EditFile(other, files[d.path], d) == Some(files[d.path])
  }

  predicate AllHold(other: Editor, files: Files, ds: seq<Declaration>) {
    forall d :: d in ds ==> Holds(other, files, d)
  }

  predicate Unchanged(files: Files, edited: Files) {
    forall p :: p in edited ==> p in files && edited[p] == files[p]
  }

  function SyncOutcome(other: Editor, files: Files, ds: seq<Declaration>, check: bool): Outcome {
    match EditAll(other, files, map[], ds)
    case None => Refused
    case Some(edited) =>
      if !AllHold(other, edited, ds) then Refused
      else if check then (if Unchanged(files, edited) then Synced(files, edited) else Refused)
      else Synced(files + edited, edited)
  }

  // ---- as the source runs it ----

  method PrepareAll(other: Editor, files: Files, ds: seq<Declaration>) returns (r: Option<(Files, Files)>)
    ensures match r
            case None => EditAll(other, files, map[], ds).None?
            case Some((originals, edited)) =>
              EditAll(other, files, map[], ds) == Some(edited) && originals.Keys == edited.Keys
                && Unchanged(files, originals)
  {
    var originals: Files, edited: Files := map[], map[];
    for k := 0 to |ds|
      invariant originals.Keys == edited.Keys && Unchanged(files, originals)
      invariant EditAll(other, files, edited, ds[k..]) == EditAll(other, files, map[], ds)
    {
      var d := ds[k];
      ghost var before := edited;
      assert ds[k..][1..] == ds[k + 1..];
      if d.path !in files {
        return None;
      }
      if d.path !in originals {
        originals, edited := originals[d.path := files[d.path]], edited[d.path := files[d.path]];
      }
      var updated := EditFile(other, edited[d.path], d);
      if updated.None? {
        return None;
      }
      assert edited[d.path := updated.value] == before[d.path := updated.value];
      edited := edited[d.path := updated.value];
    }
    return Some((originals, edited));
  }

  method CheckAll(other: Editor, edited: Files, ds: seq<Declaration>) returns (ok: bool)
    ensures ok == AllHold(other, edited, ds)
  {
    for k := 0 to |ds|
      invariant AllHold(other, edited, ds[..k])
    {
      var d := ds[k];
      assert d in ds;
      if d.path !in edited || EditFile(other, edited[d.path], d) != Some(edited[d.path]) {
        return false;
      }
      assert ds[..k + 1] == ds[..k] + [d];
    }
    assert ds[..|ds|] == ds;
    return true;
  }

  method WriteDrift(files: Files, edited: Files, changed: set<string>) returns (written: Files)
    requires edited.Keys <= files.Keys && changed == set p | p in edited && edited[p] != files[p]
    ensures written == files + edited
  {
    written := files;
    var drift := changed;
    while drift != {}
      invariant drift <= changed && written.Keys == files.Keys
      invariant forall p :: p in files ==> written[p] == if p in edited && p !in drift then edited[p] else files[p]
      decreases |drift|
    {
      var p :| p in drift;
      written, drift := written[p := edited[p]], drift - {p};
    }
  }

  method SyncVersions(other: Editor, files: Files, ds: seq<Declaration>, check: bool) returns (r: Outcome)
    ensures r == SyncOutcome(other, files, ds, check)
  {
    var prepared := PrepareAll(other, files, ds);
    if prepared.None? {
      return Refused;
    }
    var (originals, edited) := prepared.value;
    var ok := CheckAll(other, edited, ds);
    if !ok {
      return Refused;
    }
    var drift := set p | p in edited && originals[p] != edited[p];
    if check {
      assert forall p :: p in drift <==> p in edited && edited[p] != files[p];
      return if drift == {} then Synced(files, edited) else Refused;
    }
    assert drift == set p | p in edited && edited[p] != files[p];
    var written := WriteDrift(files, edited, drift);
    return Synced(written, edited);
  }

  // ---- success is a simultaneous fixpoint ----

  lemma {:induction false} EditedPaths(other: Editor, files: Files, edited: Files, ds: seq<Declaration>)
    requires EditAll(other, files, edited, ds).Some?
    ensures var r := EditAll(other, files, edited, ds).value;
            forall p :: p in r <==> p in edited || exists d :: d in ds && d.path == p
    ensures forall d :: d in ds ==> d.path in files
    decreases |ds|
  {
    if ds != [] {
      var text := if ds[0].path in edited then edited[ds[0].path] else files[ds[0].path];
      EditedPaths(other, files, edited[ds[0].path := EditFile(other, text, ds[0]).value], ds[1..]);
      assert ds == [ds[0]] + ds[1..];
    }
  }

  /** Where every declaration already holds, preparing the edits reproduces the files. */
  lemma {:induction false} HeldIsReproduced(other: Editor, files: Files, edited: Files, ds: seq<Declaration>)
    requires AllHold(other, files, ds) && Unchanged(files, edited)
    ensures EditAll(other, files, edited, ds).Some? && Unchanged(files, EditAll(other, files, edited, ds).value)
    decreases |ds|
  {
    if ds != [] {
      assert ds[0] in ds;
      HeldIsReproduced(other, files, edited[ds[0].path := files[ds[0].path]], ds[1..]);
    }
  }

  /** A check passes if and only if every declaration holds of the files as they are. */
  lemma CheckIffAllHold(other: Editor, files: Files, ds: seq<Declaration>)
    ensures SyncOutcome(other, files, ds, true).Synced? <==> AllHold(other, files, ds)
    ensures AllHold(other, files, ds) ==> SyncOutcome(other, files, ds, true).files == files
  {
    var prepared := EditAll(other, files, map[], ds);
    if AllHold(other, files, ds) {
      HeldIsReproduced(other, files, map[], ds);
      EditedPaths(other, files, map[], ds);
    } else if prepared.Some? {
      EditedPaths(other, files, map[], ds);
      assert Unchanged(files, prepared.value) && AllHold(other, prepared.value, ds) ==> AllHold(other, files, ds);
    }
  }

  /** The declared paths, which are the ones edited, and only they can differ afterwards. */
  lemma SyncedFiles(other: Editor, files: Files, ds: seq<Declaration>)
    requires SyncOutcome(other, files, ds, false).Synced?
    ensures var r := SyncOutcome(other, files, ds, false);
            && AllHold(other, r.files, ds) && Unchanged(r.files, r.edited) && r.files.Keys == files.Keys
            && (forall p :: p in r.edited <==> exists d :: d in ds && d.path == p)
            && (forall p :: p in files && p !in r.edited ==> r.files[p] == files[p])
  {
    var r := SyncOutcome(other, files, ds, false);
    EditedPaths(other, files, map[], ds);
    forall d | d in ds ensures Holds(other, r.files, d) {
      assert Holds(other, r.edited, d);
    }
  }

  /** Where every declaration holds, synchronising and checking change nothing. */
  lemma HeldIsSynced(other: Editor, files: Files, edited: Files, ds: seq<Declaration>, check: bool)
    requires AllHold(other, files, ds) && Unchanged(files, edited)
    requires forall p :: p in edited <==> exists d :: d in ds && d.path == p
    ensures SyncOutcome(other, files, ds, check) == Synced(files, edited)
  {
    HeldIsPrepared(other, files, edited, ds);
    assert files + edited == files;
  }

  lemma HeldIsPrepared(other: Editor, files: Files, edited: Files, ds: seq<Declaration>)
    requires AllHold(other, files, ds) && Unchanged(files, edited)
    requires forall p :: p in edited <==> exists d :: d in ds && d.path == p
    ensures EditAll(other, files, map[], ds) == Some(edited) && AllHold(other, edited, ds)
  {
    HeldIsReproduced(other, files, map[], ds);
    EditedPaths(other, files, map[], ds);
    SameFiles(files, EditAll(other, files, map[], ds).value, edited);
  }

  lemma SameFiles(files: Files, a: Files, b: Files)
    requires Unchanged(files, a) && Unchanged(files, b) && forall p :: p in a <==> p in b
    ensures a == b
  {
  }

  /**
   * A successful synchronisation leaves every declared edit with nothing to do and every other file
   * as it was; the check that follows passes, and so does synchronising again, changing nothing.
   */
  lemma SyncIsAFixpoint(other: Editor, files: Files, ds: seq<Declaration>)
    requires SyncOutcome(other, files, ds, false).Synced?
    ensures var r := SyncOutcome(other, files, ds, false);
            && AllHold(other, r.files, ds) && r.files.Keys == files.Keys
            && (forall p :: p in files && (forall d :: d in ds ==> d.path != p) ==> r.files[p] == files[p])
            && SyncOutcome(other, r.files, ds, true) == r
            && SyncOutcome(other, r.files, ds, false) == r
  {
    var r := SyncOutcome(other, files, ds, false);
    SyncedFiles(other, files, ds);
    HeldIsSynced(other, r.files, r.edited, ds, true);
    HeldIsSynced(other, r.files, r.edited, ds, false);
  }

  // ---- conflicting selectors ----

  /** No text satisfies both declarations. */
  ghost predicate Conflict(other: Editor, c: Declaration, d: Declaration) {
    c.path == d.path && forall text :: EditFile(other, text, c) == Some(text) ==> EditFile(other, text, d) != Some(text)
  }

  /** Whatever the files hold, two conflicting declarations are refused: the last writer does not win. */
  lemma ConflictsAreRefused(other: Editor, files: Files, ds: seq<Declaration>, c: Declaration, d: Declaration,
                            check: bool)
    requires c in ds && d in ds && Conflict(other, c, d)
    ensures SyncOutcome(other, files, ds, check) == Refused
  {
    match EditAll(other, files, map[], ds)
    case None =>
    case Some(edited) => NeverBoth(other, edited, c, d);
  }

  lemma NeverBoth(other: Editor, files: Files, c: Declaration, d: Declaration)
    requires Conflict(other, c, d)
    ensures !(Holds(other, files, c) && Holds(other, files, d))
  {
  }

  lemma HoldsAtField(text: string, n: Node, trail: string, target: Target, value: Projected, f: Path)
    requires ParseDocument(text) == Some((n, trail)) && JsonEdit(text, target, value) == Some(text)
    requires f in TargetFields(ValueOf(n), target).value
    ensures var was := Get(ValueOf(n), f);
            Replacement(value, was).Some? && was == Some(Atom(Replacement(value, was).value))
  {
    EditCommutesWithParse(text, target, value);
    FieldsTakeValue(ValueOf(n), TargetFields(ValueOf(n), target).value, value, f);
  }

  /** What a JSON file says a field is. */
  function FieldWording(text: string, field: Path): Option<string> {
    match ParseDocument(text)
    case None => None
    case Some((n, _)) =>
      match Get(ValueOf(n), field)
      case Some(Atom(Str(s))) => Some(s)
      case Some(Atom(Int(k))) => Some(IntText(k))
      case _ => None
  }

  lemma HeldFieldSays(text: string, target: Target, value: Projected, f: Path)
    requires JsonEdit(text, target, value) == Some(text)
    requires f in TargetFields(ValueOf(ParseDocument(text).value.0), target).value
    ensures FieldWording(text, f) == Some(WordingOf(value))
  {
    var (n, trail) := ParseDocument(text).value;
    HoldsAtField(text, n, trail, target, value, f);
  }

  /** The targets own a field in common in every file that has the fields of both. */
  predicate ShareField(c: Target, d: Target) {
    match (c, d)
    case (NpmLock(_), NpmLock(_)) => true
    case (NpmLock(_), Manifest(field, _)) => Keys(field) == VERSION || Keys(field) == OWN_VERSION
    case (Manifest(field, _), NpmLock(_)) => Keys(field) == VERSION || Keys(field) == OWN_VERSION
    case (Manifest(field, _), Manifest(other, _)) => field == other
  }

  /** A lock file with an own version of its root package owns that too. */
  lemma LockOwnsBoth(text: string, c: Target, v: Projected, field: seq<string>, package: Option<string>, w: Projected)
    requires c.NpmLock? && JsonEdit(text, c, v) == Some(text)
    requires JsonEdit(text, Manifest(field, package), w) == Some(text)
        && (Keys(field) == VERSION || Keys(field) == OWN_VERSION)
    ensures Keys(field) in TargetFields(ValueOf(ParseDocument(text).value.0), c).value
  {
    var data := ValueOf(ParseDocument(text).value.0);
    assert Replacement(w, Get(data, Keys(field))).Some?;
    if Keys(field) == OWN_VERSION {
      assert OWN_VERSION[1..] == [Key(""), Key("version")] && PACKAGES[1..] == [];
    }
  }

  lemma SharedField(text: string, c: Target, v: Projected, d: Target, w: Projected) returns (f: Path)
    requires ShareField(c, d) && JsonEdit(text, c, v) == Some(text) && JsonEdit(text, d, w) == Some(text)
    ensures f in TargetFields(ValueOf(ParseDocument(text).value.0), c).value
    ensures f in TargetFields(ValueOf(ParseDocument(text).value.0), d).value
  {
    f := if c.Manifest? then Keys(c.field) else if d.Manifest? then Keys(d.field) else VERSION;
    if c.NpmLock? && d.Manifest? { LockOwnsBoth(text, c, v, d.field, d.owner, w); }
    if d.NpmLock? && c.Manifest? { LockOwnsBoth(text, d, w, c.field, c.owner, v); }
  }

  /** Two different versions for one JSON field conflict, so they are always refused. */
  lemma TwoVersionsConflict(other: Editor, c: Declaration, d: Declaration)
    requires c.path == d.path && c.format.Json? && d.format.Json? && ShareField(c.format.target, d.format.target)
    requires WordingOf(c.value) != WordingOf(d.value)
    ensures Conflict(other, c, d)
  {
    forall text | EditFile(other, text, c) == Some(text) ensures EditFile(other, text, d) != Some(text) {
      if EditFile(other, text, d) == Some(text) {
        var f := SharedField(text, c.format.target, c.value, d.format.target, d.value);
        HeldFieldSays(text, c.format.target, c.value, f);
        HeldFieldSays(text, d.format.target, d.value, f);
      }
    }
  }

  // ---- declarations that do not conflict ----

  /** A declaration that holds of a manifest still holds after another field of it is set. */
  lemma OtherFieldKeepsHolding(text: string, c: Target, v: Projected, d: Target, w: Projected)
    requires c.Manifest? && d.Manifest? && c.field != d.field && d.field != ["name"]
    requires JsonEdit(text, c, v) == Some(text) && JsonEdit(text, d, w).Some?
    ensures JsonEdit(JsonEdit(text, d, w).value, c, v) == JsonEdit(text, d, w)
  {
    var (n, trail) := ParseDocument(text).value;
    var f := Keys(c.field);
    var m := Changes(ValueOf(n), [Keys(d.field)], w);
    HoldsAtField(text, n, trail, c, v, f);
    EditCommutesWithParse(text, d, w);
    KeysTell(c.field, d.field);
    NameKeys(d.field);
    var n' := Rewrite(n, Dumps(m), []);
    OwnerAndFieldStay(ValueOf(n), m, c);
    NothingToEdit(JsonEdit(text, d, w).value, n', trail, c, v);
  }

  /** Where every field has its value already, the edit changes nothing. */
  lemma NothingToEdit(text: string, n: Node, trail: string, c: Target, v: Projected)
    requires ParseDocument(text) == Some((n, trail)) && text == Print(n, trail) && TargetFields(ValueOf(n), c).Some?
    requires forall f :: f in TargetFields(ValueOf(n), c).value ==>
               Replacement(v, Get(ValueOf(n), f)).Some?
               && Get(ValueOf(n), f) == Some(Atom(Replacement(v, Get(ValueOf(n), f)).value))
    ensures JsonEdit(text, c, v) == Some(text)
  {
    assert Changes(ValueOf(n), TargetFields(ValueOf(n), c).value, v) == map[];
    assert Dumps(map[]) == map[];
    RewriteNothing(n, []);
  }

  /** Setting other fields leaves a manifest's owner and field what they were. */
  lemma OwnerAndFieldStay(data: Json, m: map<Path, Scalar>, c: Target)
    requires c.Manifest? && TargetFields(data, c).Some?
    requires Get(data, Keys(c.field)).Some? && Get(data, Keys(c.field)).value.Atom?
    requires Keys(c.field) !in m && [Key("name")] !in m
    ensures TargetFields(Put(data, m, []), c) == Some([Keys(c.field)])
    ensures Get(Put(data, m, []), Keys(c.field)) == Get(data, Keys(c.field))
  {
    GetScalar(data, m, Keys(c.field), Get(data, Keys(c.field)).value.v);
    TargetsStay(data, m, c);
  }

  lemma KeysTell(a: seq<string>, b: seq<string>)
    ensures Keys(a) == Keys(b) ==> a == b
  {
    if Keys(a) == Keys(b) {
      assert |a| == |Keys(a)| == |b|;
      forall i | 0 <= i < |a| ensures a[i] == b[i] {
        assert Keys(a)[i] == Key(a[i]);
      }
    }
  }

  predicate OneEach(ds: seq<Declaration>) {
    forall i, j :: 0 <= i < j < |ds| ==> ds[i].path != ds[j].path
  }

  /** The declaration's edit succeeds on the file as it is, with this result. */
  predicate Sets(other: Editor, files: Files, d: Declaration, text: string) {
    d.path in files && EditFile(other, files[d.path], d) == Some(text)
  }

  /** Every edit succeeds on the file as it is. */
  predicate EachEdits(other: Editor, files: Files, ds: seq<Declaration>) {
    forall d :: d in ds ==> d.path in files && EditFile(other, files[d.path], d).Some?
  }

  /** What was edited before stays, and each declared file is what its own edit makes of it. */
  ghost predicate EachSet(other: Editor, files: Files, edited: Files, ds: seq<Declaration>, r: Files) {
    && (forall p :: p in edited ==> p in r && r[p] == edited[p])
    && (forall d :: d in ds ==> d.path in r && Sets(other, files, d, r[d.path]))
  }

  lemma OneEachRest(ds: seq<Declaration>)
    requires OneEach(ds) && ds != []
    ensures OneEach(ds[1..]) && forall c :: c in ds[1..] ==> c.path != ds[0].path
  {
    forall c | c in ds[1..] ensures c.path != ds[0].path {
      var i :| 0 <= i < |ds[1..]| && ds[1..][i] == c;
      assert ds[i + 1] == c;
    }
  }

  lemma EachSetMore(other: Editor, files: Files, edited: Files, ds: seq<Declaration>, text: string, r: Files)
    requires ds != [] && ds[0].path !in edited && Sets(other, files, ds[0], text)
    requires EachSet(other, files, edited[ds[0].path := text], ds[1..], r)
    ensures EachSet(other, files, edited, ds, r)
  {
    assert forall c :: c in ds <==> c == ds[0] || c in ds[1..];
  }

  lemma {:induction false} EachOnItsOwn(other: Editor, files: Files, edited: Files, ds: seq<Declaration>)
    requires OneEach(ds) && forall d :: d in ds ==> d.path !in edited
    ensures EditAll(other, files, edited, ds).Some? <==> EachEdits(other, files, ds)
    ensures EditAll(other, files, edited, ds).Some? ==>
              EachSet(other, files, edited, ds, EditAll(other, files, edited, ds).value)
    decreases |ds|
  {
    if ds != [] {
      var d, rest := ds[0], ds[1..];
      assert forall c :: c in ds <==> c == d || c in rest;
      OneEachRest(ds);
      if d.path in files && EditFile(other, files[d.path], d).Some? {
        var text := EditFile(other, files[d.path], d).value;
        EachOnItsOwn(other, files, edited[d.path := text], rest);
        if EditAll(other, files, edited, ds).Some? {
          EachSetMore(other, files, edited, ds, text, EditAll(other, files, edited, ds).value);
        }
      }
    }
  }

  /** With one field to a file, synchronising succeeds exactly when every edit does and is stable. */
  lemma OneEachSyncs(other: Editor, files: Files, ds: seq<Declaration>)
    requires OneEach(ds)
    ensures SyncOutcome(other, files, ds, false).Synced? <==>
              forall d :: d in ds ==>
                exists text :: Sets(other, files, d, text) && EditFile(other, text, d) == Some(text)
  {
    EachOnItsOwn(other, files, map[], ds);
    match EditAll(other, files, map[], ds)
    case None =>
    case Some(edited) =>
      forall d | d in ds
        ensures Holds(other, edited, d) <==>
                  exists text :: Sets(other, files, d, text) && EditFile(other, text, d) == Some(text)
      {
        assert Sets(other, files, d, edited[d.path]);
      }
  }

  /** For a JSON field that is all of it: the edit must succeed and not rename the field's own owner. */
  lemma JsonFieldSyncs(other: Editor, files: Files, d: Declaration)
    requires d.format.Json?
    ensures SyncOutcome(other, files, [d], false).Synced? <==>
              d.path in files && JsonEdit(files[d.path], d.format.target, d.value).Some?
              && !RenamesOwner(d.format.target, d.value)
  {
    OneEachSyncs(other, files, [d]);
    assert d in [d];
    if d.path in files && JsonEdit(files[d.path], d.format.target, d.value).Some? {
      var text := JsonEdit(files[d.path], d.format.target, d.value).value;
      assert Sets(other, files, d, text);
      EditIsStable(files[d.path], d.format.target, d.value);
    }
  }
}
