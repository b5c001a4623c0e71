// Any number of fields to a file: exactly which declarations can be synchronised together.
module SyncFields {
  import opened Wrappers
  import opened Sequences
  import opened JsonTokens
  import opened JsonText
  import opened JsonEdits
  import opened JsonEditor
  import opened Sync
  import opened EffectiveInputs

  // ---- one edit after another ----

  /** The declarations want one version wherever both have a field. */
  predicate SameVersion(data: Json, c: Declaration, d: Declaration)
    requires c.format.Json? && d.format.Json?
  {
    forall f :: f in Places(data, c.format.target) && f in Places(data, d.format.target) ==>
      WordingOf(c.value) == WordingOf(d.value)
  }

  /** `c` does not rename the owner that `d` requires. */
  predicate KeepsName(data: Json, c: Declaration, d: Declaration)
    requires c.format.Json? && d.format.Json?
  {
    forall p :: p in NamePlaces(d.format.target) && p in Places(data, c.format.target) ==>
      OwnerOf(d.format.target) == Some(WordingOf(c.value))
  }

  predicate Compatible(data: Json, c: Declaration, d: Declaration)
    requires c.format.Json? && d.format.Json?
  {
    SameVersion(data, c, d) && KeepsName(data, c, d)
  }

  predicate AllCompatible(data: Json, ds: seq<Declaration>)
    requires AllJson(ds)
  {
    forall c, d :: c in ds && d in ds ==> Compatible(data, c, d)
  }

  lemma SamePlacesAfter(data: Json, m: map<Path, Scalar>, target: Target)
    ensures Places(Put(data, m, []), target) == Places(data, target)
  {
    GetAfterPut(data, m, [], PACKAGES);
  }

  /** One wording is one replacement, for a field that can take both. */
  lemma SameReplacement(v: Projected, w: Projected, was: Option<Json>)
    requires WordingOf(v) == WordingOf(w) && Replacement(v, was).Some? && Replacement(w, was).Some?
    ensures Replacement(v, was) == Replacement(w, was)
  {
    if was.value.v.Int? {
      DumpReadsBack(Int(v.n));
      DumpReadsBack(Int(w.n));
    }
  }

  /** An edit that renames no owner of another target replaces none of its names. */
  lemma NamesLeft(data: Json, c: Declaration, d: Declaration)
    requires c.format.Json? && d.format.Json? && KeepsName(data, c, d) && TargetFields(data, d.format.target).Some?
    requires TargetFields(data, c.format.target).Some?
    requires Replaceable(data, TargetFields(data, c.format.target).value, c.value)
    ensures var m := Changes(data, TargetFields(data, c.format.target).value, c.value);
            && (forall p :: p in NamePlaces(d.format.target) ==> p !in m)
            && TargetFields(Put(data, m, []), d.format.target) == TargetFields(data, d.format.target)
  {
    var m := Changes(data, TargetFields(data, c.format.target).value, c.value);
    TargetsArePlaces(data, c.format.target);
    forall p | p in NamePlaces(d.format.target) ensures p !in m {
      if p in m { NameIsOwner(data, d.format.target, p); }
    }
    TargetsStay(data, m, d.format.target);
  }

  /** After such an edit the other can still be made. */
  lemma StillEdits(text: string, c: Declaration, d: Declaration)
    requires c.format.Json? && d.format.Json?
    requires JsonEdit(text, c.format.target, c.value).Some? && JsonEdit(text, d.format.target, d.value).Some?
    requires KeepsName(ValueOf(ParseDocument(text).value.0), c, d)
    ensures JsonEdit(JsonEdit(text, c.format.target, c.value).value, d.format.target, d.value).Some?
  {
    var data := ValueOf(ParseDocument(text).value.0);
    var m := Changes(data, TargetFields(data, c.format.target).value, c.value);
    var fields := TargetFields(data, d.format.target).value;
    EditCommutesWithParse(text, c.format.target, c.value);
    NamesLeft(data, c, d);
    forall f | f in fields ensures Replacement(d.value, Get(Put(data, m, []), f)).Some? {
      assert Replacement(d.value, Get(data, f)).Some?;
      GetScalar(data, m, f, Get(data, f).value.v);
    }
  }

  /** And if it had nothing to do, it has nothing to do afterwards. */
  lemma StillHolds(text: string, c: Declaration, d: Declaration)
    requires c.format.Json? && d.format.Json?
    requires JsonEdit(text, c.format.target, c.value).Some? && JsonEdit(text, d.format.target, d.value) == Some(text)
    requires Compatible(ValueOf(ParseDocument(text).value.0), c, d)
    ensures var text' := JsonEdit(text, c.format.target, c.value).value;
            JsonEdit(text', d.format.target, d.value) == Some(text')
  {
    var (n, trail) := ParseDocument(text).value;
    var data := ValueOf(n);
    var m := Changes(data, TargetFields(data, c.format.target).value, c.value);
    EditCommutesWithParse(text, c.format.target, c.value);
    NamesLeft(data, c, d);
    TargetsArePlaces(data, c.format.target);
    TargetsArePlaces(data, d.format.target);
    forall f | f in TargetFields(data, d.format.target).value
      ensures f !in m && Get(Put(data, m, []), f) == Get(data, f)
      ensures Replacement(d.value, Get(data, f)).Some?
          && Get(data, f) == Some(Atom(Replacement(d.value, Get(data, f)).value))
    {
      HoldsAtField(text, n, trail, d.format.target, d.value, f);
      if f in TargetFields(data, c.format.target).value { SameReplacement(c.value, d.value, Get(data, f)); }
      GetScalar(data, m, f, Get(data, f).value.v);
    }
    NothingToEdit(JsonEdit(text, c.format.target, c.value).value, Rewrite(n, Dumps(m), []), trail, d.format.target,
      d.value);
  }

  // ---- one file ----

  function DataOf(text: string): Json
    requires ParseDocument(text).Some?
  {
    ValueOf(ParseDocument(text).value.0)
  }

  /** The file parses, and its declarations do not get in each other's way. */
  predicate AllFit(text: string, ds: seq<Declaration>)
    requires AllJson(ds)
  {
    ParseDocument(text).Some? && AllCompatible(DataOf(text), ds)
  }

  /** Setting scalars changes nothing in how declarations fit. */
  lemma FitAfter(text: string, c: Declaration, ds: seq<Declaration>)
    requires AllJson(ds) && c.format.Json? && JsonEdit(text, c.format.target, c.value).Some?
    ensures AllFit(text, ds) <==> AllFit(JsonEdit(text, c.format.target, c.value).value, ds)
  {
    hide Put, Get;
    var data := DataOf(text);
    var m := Changes(data, TargetFields(data, c.format.target).value, c.value);
    EditCommutesWithParse(text, c.format.target, c.value);
    forall d | d in ds ensures Places(Put(data, m, []), d.format.target) == Places(data, d.format.target) {
      SamePlacesAfter(data, m, d.format.target);
    }
  }

  ghost predicate AllHoldOf(other: Editor, text: string, ds: seq<Declaration>) {
    forall d :: d in ds ==> EditFile(other, text, d) == Some(text)
  }

  lemma NoSelfRename(data: Json, c: Declaration)
    requires c.format.Json? && KeepsName(data, c, c)
    ensures !RenamesOwner(c.format.target, c.value)
  {
    assert Keys(["name"]) == NAME;
    assert c.format.target.Manifest? && c.format.target.field == ["name"] ==> NAME in Places(data, c.format.target);
  }

  /** Compatible edits keep what earlier ones have established. */
  lemma NextHolds(other: Editor, text: string, c: Declaration, held: seq<Declaration>)
    requires c.format.Json? && AllJson(held) && JsonEdit(text, c.format.target, c.value).Some?
    requires AllFit(text, held + [c]) && AllHoldOf(other, text, held)
    ensures AllHoldOf(other, JsonEdit(text, c.format.target, c.value).value, held + [c])
  {
    hide Places, TargetFields, RenamesOwner, SameVersion;
    var data := DataOf(text);
    assert c in held + [c] && Compatible(data, c, c);
    NoSelfRename(data, c);
    EditIsStable(text, c.format.target, c.value);
    forall d | d in held ensures EditFile(other, JsonEdit(text, c.format.target, c.value).value, d)
                              == Some(JsonEdit(text, c.format.target, c.value).value)
    {
      assert d in held + [c] && Compatible(data, c, d);
      StillHolds(text, c, d);
    }
  }

  lemma FewerFit(text: string, some: seq<Declaration>, all: seq<Declaration>)
    requires AllJson(all) && (forall d :: d in some ==> d in all) && AllFit(text, all)
    ensures AllJson(some) && AllFit(text, some)
  {
  }

  lemma {:induction false} InTurnAllHold(other: Editor, text: string, ds: seq<Declaration>, held: seq<Declaration>,
                                         all: seq<Declaration>)
    requires AllJson(all) && AllFit(text, all) && (forall d :: d in held + ds ==> d in all)
    requires AllHoldOf(other, text, held) && EditInTurn(other, text, ds).Some?
    ensures AllHoldOf(other, EditInTurn(other, text, ds).value, held + ds)
    decreases |ds|
  {
    if ds == [] {
      assert held + ds == held;
    } else {
      var c := ds[0];
      Front(ds);
      Assoc(held, [c], ds[1..]);
      FewerFit(text, held + [c], all);
      FewerFit(text, [c], all);
      FitAfter(text, c, all);
      hide AllFit, JsonEdit, AllHoldOf;
      NextHolds(other, text, c, held);
      InTurnAllHold(other, JsonEdit(text, c.format.target, c.value).value, ds[1..], held + [c], all);
    }
  }

  /** A name some other declaration wants set is the owner's. */
  lemma NameSays(text: string, d: Declaration, p: Path, w: string)
    requires d.format.Json? && JsonEdit(text, d.format.target, d.value).Some? && p in NamePlaces(d.format.target)
    requires FieldWording(text, p) == Some(w)
    ensures OwnerOf(d.format.target) == Some(w)
  {
    NameIsOwner(DataOf(text), d.format.target, p);
  }

  /** Whatever holds together is compatible. */
  lemma HeldFits(other: Editor, text: string, ds: seq<Declaration>)
    requires AllJson(ds) && ds != [] && AllHoldOf(other, text, ds)
    ensures AllFit(text, ds)
  {
    assert ds[0] in ds;
    var data := DataOf(text);
    forall c, d | c in ds && d in ds ensures Compatible(data, c, d) {
      TargetsArePlaces(data, c.format.target);
      TargetsArePlaces(data, d.format.target);
      forall f | f in Places(data, c.format.target) ensures FieldWording(text, f) == Some(WordingOf(c.value)) {
        HeldFieldSays(text, c.format.target, c.value, f);
      }
      forall f | f in Places(data, c.format.target) && f in Places(data, d.format.target)
        ensures WordingOf(c.value) == WordingOf(d.value)
      {
        HeldFieldSays(text, d.format.target, d.value, f);
      }
      forall p | p in NamePlaces(d.format.target) && p in Places(data, c.format.target)
        ensures OwnerOf(d.format.target) == Some(WordingOf(c.value))
      {
        NameSays(text, d, p, WordingOf(c.value));
      }
    }
  }

  lemma {:induction false} FitInTurn(other: Editor, text: string, ds: seq<Declaration>, all: seq<Declaration>)
    requires AllJson(ds) && AllJson(all) && EditInTurn(other, text, ds).Some?
    ensures AllFit(text, all) <==> AllFit(EditInTurn(other, text, ds).value, all)
    decreases |ds|
  {
    if ds != [] {
      assert ds[0] in ds && forall d :: d in ds[1..] ==> d in ds;
      FitAfter(text, ds[0], all);
      FitInTurn(other, JsonEdit(text, ds[0].format.target, ds[0].value).value, ds[1..], all);
    }
  }

  /**
   * Exactly when the fields declared for one file can be synchronised: each edit succeeds in its turn, no field
   * is to have two versions, and no owner is renamed away. The last two are read off the file as it was.
   */
  lemma JsonFileSyncs(other: Editor, text: string, ds: seq<Declaration>)
    requires AllJson(ds) && ds != []
    ensures (exists text' :: Becomes(other, text, ds, text')) <==> EditInTurn(other, text, ds).Some? && AllFit(text, ds)
  {
    if text' :| Becomes(other, text, ds, text') {
      HeldFits(other, text', ds);
      FitInTurn(other, text, ds, ds);
    }
    if EditInTurn(other, text, ds).Some? && AllFit(text, ds) {
      assert [] + ds == ds;
      InTurnAllHold(other, text, ds, [], ds);
      assert Becomes(other, text, ds, EditInTurn(other, text, ds).value);
    }
  }

  /** Each edit succeeds on the file as it is. */
  predicate EachSucceeds(other: Editor, text: string, ds: seq<Declaration>) {
    forall d :: d in ds ==> EditFile(other, text, d).Some?
  }

  /** Compatible edits that succeed on the file as it is succeed in any order. */
  lemma {:induction false} EachSucceedsInTurn(other: Editor, text: string, ds: seq<Declaration>)
    requires AllJson(ds) && EachSucceeds(other, text, ds) && (ds != [] ==> AllFit(text, ds))
    ensures EditInTurn(other, text, ds).Some?
    decreases |ds|
  {
    if ds != [] {
      var c, rest := ds[0], ds[1..];
      assert c in ds && forall d :: d in rest ==> d in ds;
      var text' := JsonEdit(text, c.format.target, c.value).value;
      forall d | d in rest ensures EditFile(other, text', d).Some? {
        assert Compatible(DataOf(text), c, d);
        StillEdits(text, c, d);
      }
      FitAfter(text, c, rest);
      EachSucceedsInTurn(other, text', rest);
    }
  }

  /** So for edits that succeed on the file as it is, compatible is all they have to be. */
  lemma CompatibleSyncs(other: Editor, text: string, ds: seq<Declaration>)
    requires AllJson(ds) && ds != [] && EachSucceeds(other, text, ds)
    ensures (exists text' :: Becomes(other, text, ds, text')) <==> AllFit(text, ds)
  {
    JsonFileSyncs(other, text, ds);
    if AllFit(text, ds) {
      EachSucceedsInTurn(other, text, ds);
    }
  }

  // ---- all files ----

  function Current(files: Files, edited: Files, p: string): string
    requires p in files
  {
    if p in edited then edited[p] else files[p]
  }

  ghost predicate EditsInTurn(other: Editor, files: Files, edited: Files, ds: seq<Declaration>, p: string) {
    OfPath(ds, p) != [] ==> p in files && EditInTurn(other, Current(files, edited, p), OfPath(ds, p)).Some?
  }

  lemma InTurnFirst(other: Editor, files: Files, edited: Files, ds: seq<Declaration>, p: string)
    requires ds != [] && ds[0].path in files
    requires EditFile(other, Current(files, edited, ds[0].path), ds[0]).Some?
    ensures var updated := EditFile(other, Current(files, edited, ds[0].path), ds[0]).value;
            EditsInTurn(other, files, edited, ds, p) <==>
              EditsInTurn(other, files, edited[ds[0].path := updated], ds[1..], p)
  {
    if ds[0].path == p {
      FirstInTurn(other, Current(files, edited, p), ds[0], OfPath(ds[1..], p));
    }
  }

  lemma FirstInTurn(other: Editor, text: string, d: Declaration, rest: seq<Declaration>)
    requires EditFile(other, text, d).Some?
    ensures EditInTurn(other, text, [d] + rest) == EditInTurn(other, EditFile(other, text, d).value, rest)
  {
    assert ([d] + rest)[0] == d && ([d] + rest)[1..] == rest;
  }

  /** All edits can be prepared exactly when those of each file can. */
  lemma {:induction false} AllInTurn(other: Editor, files: Files, edited: Files, ds: seq<Declaration>)
    ensures EditAll(other, files, edited, ds).Some? <==> forall p :: EditsInTurn(other, files, edited, ds, p)
    decreases |ds|
  {
    if ds == [] {
    } else if ds[0].path !in files || EditFile(other, Current(files, edited, ds[0].path), ds[0]).None? {
      assert !EditsInTurn(other, files, edited, ds, ds[0].path);
    } else {
      var updated := EditFile(other, Current(files, edited, ds[0].path), ds[0]).value;
      var edited' := edited[ds[0].path := updated];
      AllInTurn(other, files, edited', ds[1..]);
      assert EditAll(other, files, edited, ds) == EditAll(other, files, edited', ds[1..]);
      hide EditsInTurn, EditAll;
      forall p ensures EditsInTurn(other, files, edited, ds, p) <==> EditsInTurn(other, files, edited', ds[1..], p) {
        InTurnFirst(other, files, edited, ds, p);
      }
    }
  }

  ghost predicate FileSyncs(other: Editor, files: Files, ds: seq<Declaration>, p: string) {
    p in files && exists text' :: Becomes(other, files[p], OfPath(ds, p), text')
  }

  /** Synchronising succeeds exactly when it does for each declared file alone, whatever the editors. */
  lemma SyncsFileByFile(other: Editor, files: Files, ds: seq<Declaration>)
    ensures SyncOutcome(other, files, ds, false).Synced? <==>
        forall p :: IsDeclared(ds, p) ==> FileSyncs(other, files, ds, p)
  {
    if SyncOutcome(other, files, ds, false).Synced? {
      forall p | IsDeclared(ds, p) ensures FileSyncs(other, files, ds, p) { SyncedBecomes(other, files, ds, p); }
    }
    if forall p :: IsDeclared(ds, p) ==> FileSyncs(other, files, ds, p) {
      forall p ensures EditsInTurn(other, files, map[], ds, p) {
        if OfPath(ds, p) != [] { assert IsDeclared(ds, p) && FileSyncs(other, files, ds, p); }
      }
      AllInTurn(other, files, map[], ds);
      EachHolds(other, files, ds);
    }
  }

  lemma EachHolds(other: Editor, files: Files, ds: seq<Declaration>)
    requires EditAll(other, files, map[], ds).Some?
    requires forall p :: IsDeclared(ds, p) ==> FileSyncs(other, files, ds, p)
    ensures AllHold(other, EditAll(other, files, map[], ds).value, ds)
  {
    var edited := EditAll(other, files, map[], ds).value;
    forall d | d in ds ensures Holds(other, edited, d) {
      OfPathMembers(ds, d.path);
      assert d in OfPath(ds, d.path) && IsDeclared(ds, d.path);
      EditedInTurn(other, files, map[], ds, d.path);
      var text' :| Becomes(other, files[d.path], OfPath(ds, d.path), text');
      assert edited[d.path] == text';
    }
  }

  /** A file's declared fields can be synchronised together. */
  ghost predicate FieldsSync(other: Editor, files: Files, ds: seq<Declaration>, p: string) {
    p in files && AllJson(OfPath(ds, p)) && EditInTurn(other, files[p], OfPath(ds, p)).Some?
      && AllFit(files[p], OfPath(ds, p))
  }

  /** For JSON fields, any number of them to a file, that is the condition file by file. */
  lemma JsonFieldsSync(other: Editor, files: Files, ds: seq<Declaration>)
    requires AllJson(ds)
    ensures SyncOutcome(other, files, ds, false).Synced? <==>
              forall p :: IsDeclared(ds, p) ==> FieldsSync(other, files, ds, p)
  {
    SyncsFileByFile(other, files, ds);
    forall p | IsDeclared(ds, p) ensures FileSyncs(other, files, ds, p) <==> FieldsSync(other, files, ds, p) {
      OfPathMembers(ds, p);
      if p in files { JsonFileSyncs(other, files[p], OfPath(ds, p)); }
    }
  }
}
