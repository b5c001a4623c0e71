// The files as synchronised and their digest: when do two starting points end with the same?
module EffectiveInputs {
  import opened Wrappers
  import opened Lexicographic
  import opened JsonTokens
  import opened JsonText
  import opened JsonEdits
  import opened JsonEditor
  import opened JsonSpelling
  import opened Sync

  // ---- one file at a time ----

  /** A file's declarations, in their order. */
  function OfPath(ds: seq<Declaration>, path: string): seq<Declaration> {
    if ds == [] then [] else if ds[0].path == path then [ds[0]] + OfPath(ds[1..], path) else OfPath(ds[1..], path)
  }

  lemma {:induction false} OfPathMembers(ds: seq<Declaration>, path: string)
    ensures forall d :: d in OfPath(ds, path) <==> d in ds && d.path == path
  {
    if ds != [] {
      OfPathMembers(ds[1..], path);
    }
  }

  /** Each edit on what the one before it left. */
  function EditInTurn(other: Editor, text: string, ds: seq<Declaration>): Option<string>
    decreases |ds|
  {
    if ds == [] then Some(text)
    else match EditFile(other, text, ds[0])
      case None => None
      case Some(updated) => EditInTurn(other, updated, ds[1..])
  }

  /** Preparing all edits edits each file in turn. */
  lemma {:induction false} EditedInTurn(other: Editor, files: Files, edited: Files, ds: seq<Declaration>, p: string)
    requires EditAll(other, files, edited, ds).Some? && (p in edited || p in files)
    ensures var r := EditAll(other, files, edited, ds).value;
            var text := if p in edited then edited[p] else files[p];
            && (p in r <==> p in edited || OfPath(ds, p) != [])
            && (p in r ==> EditInTurn(other, text, OfPath(ds, p)) == Some(r[p]))
    decreases |ds|
  {
    if ds != [] {
      var d := ds[0];
      var before := if d.path in edited then edited[d.path] else files[d.path];
      EditedInTurn(other, files, edited[d.path := EditFile(other, before, d).value], ds[1..], p);
      if d.path == p {
        assert OfPath(ds, p)[1..] == OfPath(ds[1..], p);
      }
    }
  }

  /** The edits of one file turn it into a text of which they all hold. */
  ghost predicate Becomes(other: Editor, text: string, ds: seq<Declaration>, text': string) {
    EditInTurn(other, text, ds) == Some(text') && forall d :: d in ds ==> EditFile(other, text', d) == Some(text')
  }

  lemma SyncedBecomes(other: Editor, files: Files, ds: seq<Declaration>, p: string)
    requires SyncOutcome(other, files, ds, false).Synced?
    ensures var r := SyncOutcome(other, files, ds, false);
            && (p in r.edited <==> OfPath(ds, p) != [])
            && (p in r.edited ==> p in files && Becomes(other, files[p], OfPath(ds, p), r.edited[p]))
  {
    EditedPaths(other, files, map[], ds);
    OfPathMembers(ds, p);
    var edited := EditAll(other, files, map[], ds).value;
    if p in files {
      EditedInTurn(other, files, map[], ds, p);
    }
    if OfPath(ds, p) != [] {
      assert OfPath(ds, p)[0] in OfPath(ds, p);
    }
    if p in edited {
      forall d | d in OfPath(ds, p) ensures EditFile(other, edited[p], d) == Some(edited[p]) {
        assert Holds(other, edited, d);
      }
    }
  }

  // ---- JSON files ----

  predicate AllJson(ds: seq<Declaration>) { forall d :: d in ds ==> d.format.Json? }

  /** The fields a target has in a document, wherever it has them. */
  function Places(data: Json, target: Target): set<Path> {
    match target
    case NpmLock(_) => if Get(data, PACKAGES).None? then {VERSION} else {VERSION, OWN_VERSION}
    case Manifest(field, _) => {Keys(field)}
  }

  lemma TargetsArePlaces(data: Json, target: Target)
    requires TargetFields(data, target).Some?
    ensures forall f :: f in TargetFields(data, target).value <==> f in Places(data, target)
  {
  }

  lemma PlacesAreKeyPaths(data: Json, target: Target)
    ensures forall f :: f in Places(data, target) ==> IsKeyPath(f)
  {
  }

  /** Setting scalars does not move a target's fields. */
  lemma SamePlaces(n: Node, e: map<Path, string>, target: Target)
    ensures Places(ValueOf(Rewrite(n, e, [])), target) == Places(ValueOf(n), target)
  {
    RewriteValue(n, e, []);
    GetAfterPut(ValueOf(n), Meanings(e), [], PACKAGES);
  }

  function PlacesOf(n: Node, d: Declaration): set<Path> {
    match d.format case Json(target) => Places(ValueOf(n), target) case Other(_) => {}
  }

  predicate Owns(n: Node, d: Declaration, f: Path) { f in PlacesOf(n, d) }

  /** All fields the declarations own. */
  function AllPlaces(n: Node, ds: seq<Declaration>): set<Path> {
    if ds == [] then {} else PlacesOf(n, ds[0]) + AllPlaces(n, ds[1..])
  }

  lemma {:induction false} AllPlacesAre(n: Node, ds: seq<Declaration>)
    ensures forall f :: f in AllPlaces(n, ds) <==> exists d :: d in ds && Owns(n, d, f)
  {
    if ds != [] {
      AllPlacesAre(n, ds[1..]);
      assert forall d :: d in ds <==> d == ds[0] || d in ds[1..];
      forall f ensures f in AllPlaces(n, ds) <==> Owns(n, ds[0], f) || f in AllPlaces(n, ds[1..]) {}
    }
  }

  /** What becomes of one field's token under all the edits. */
  function SettleInTurn(n: Node, ds: seq<Declaration>, f: Path, tok: string): string
    decreases |ds|
  {
    if ds == [] then tok
    else SettleInTurn(n, ds[1..], f, if Owns(n, ds[0], f) then Settle(ds[0].value, tok) else tok)
  }

  function SettledInTurn(n: Node, ds: seq<Declaration>, tokens: map<Path, string>): map<Path, string> {
    map f | f in tokens :: SettleInTurn(n, ds, f, tokens[f])
  }

  lemma OneEditSettles(n: Node, trail: string, tokens: map<Path, string>, d: Declaration)
    requires WellFormed(n) && AllSpace(trail) && Tokens(tokens) && d.format.Json?
    requires Places(ValueOf(n), d.format.target) <= tokens.Keys
    requires JsonEdit(Document(n, tokens, trail), d.format.target, d.value).Some?
    ensures Owned(n, tokens, d.format.target)
    ensures var fields := TargetFields(ValueOf(Rewrite(n, tokens, [])), d.format.target).value;
            (forall f :: f in fields <==> Owns(n, d, f)) && Tokens(SettleIn(fields, d.value, tokens))
            && JsonEdit(Document(n, tokens, trail), d.format.target, d.value)
            == Some(Document(n, SettleIn(fields, d.value, tokens), trail))
  {
    var m := Rewrite(n, tokens, []);
    RewriteWellFormed(n, tokens, []);
    DocumentsAreTheirText(Document(n, tokens, trail), m, trail);
    SamePlaces(n, tokens, d.format.target);
    TargetsArePlaces(ValueOf(m), d.format.target);
    EditSettles(n, trail, tokens, d.format.target, d.value);
    SettledTokens(TargetFields(ValueOf(m), d.format.target).value, d.value, tokens);
  }

  /** The edits of a file settle its fields one by one, and nothing else. */
  lemma {:induction false} EditsSettle(other: Editor, n: Node, trail: string, tokens: map<Path, string>,
                                       ds: seq<Declaration>)
    requires WellFormed(n) && AllSpace(trail) && Tokens(tokens) && AllJson(ds)
    requires forall d :: d in ds ==> Places(ValueOf(n), d.format.target) <= tokens.Keys
    requires EditInTurn(other, Document(n, tokens, trail), ds).Some?
    ensures Tokens(SettledInTurn(n, ds, tokens))
    ensures EditInTurn(other, Document(n, tokens, trail), ds) == Some(Document(n, SettledInTurn(n, ds, tokens), trail))
    decreases |ds|
  {
    if ds == [] {
      assert SettledInTurn(n, ds, tokens) == tokens;
    } else {
      assert ds[0] in ds && forall d :: d in ds[1..] ==> d in ds;
      OneEditSettles(n, trail, tokens, ds[0]);
      var fields := TargetFields(ValueOf(Rewrite(n, tokens, [])), ds[0].format.target).value;
      var after := SettleIn(fields, ds[0].value, tokens);
      EditsSettle(other, n, trail, after, ds[1..]);
      SettledFurther(n, ds, fields, tokens);
    }
  }

  lemma SettledFurther(n: Node, ds: seq<Declaration>, fields: seq<Path>, tokens: map<Path, string>)
    requires ds != [] && forall f :: f in fields <==> Owns(n, ds[0], f)
    ensures SettledInTurn(n, ds[1..], SettleIn(fields, ds[0].value, tokens)) == SettledInTurn(n, ds, tokens)
  {
  }

  // ---- what one field ends up with ----

  /** The token is one the edit leaves alone. */
  predicate Settled(value: Projected, tok: string) {
    Replacement(value, Some(Atom(TokenMeaning(tok)))) == Some(TokenMeaning(tok))
  }

  /** Some declaration owns the field. */
  predicate IsOwned(n: Node, ds: seq<Declaration>, f: Path) { exists d :: d in ds && Owns(n, d, f) }

  lemma {:induction false} SettleInTurnKeepsKind(n: Node, ds: seq<Declaration>, f: Path, tok: string)
    requires IsToken(tok)
    ensures var t := SettleInTurn(n, ds, f, tok);
            IsToken(t) && SameKind(tok, t) && (TokenMeaning(tok).Int? <==> TokenMeaning(t).Int?)
    decreases |ds|
  {
    if ds != [] {
      if Owns(n, ds[0], f) { SettleKeepsKind(ds[0].value, tok); }
      SettleInTurnKeepsKind(n, ds[1..], f, if Owns(n, ds[0], f) then Settle(ds[0].value, tok) else tok);
    }
  }

  /** When all owners want one value, the field settles at the first of them and is left alone by the others. */
  lemma {:induction false} SettlesAtFirst(n: Node, ds: seq<Declaration>, f: Path, tok: string, v: Scalar)
    requires IsToken(tok) && (v.Str? || v.Int?) && (v.Str? <==> TokenMeaning(tok).Str?)
        && (v.Int? <==> TokenMeaning(tok).Int?)
    requires forall d :: d in ds && Owns(n, d, f) ==> Replacement(d.value, Some(Atom(v))) == Some(v)
    ensures SettleInTurn(n, ds, f, tok)
         == if IsOwned(n, ds, f) && TokenMeaning(tok) != v then Dump(v) else tok
    decreases |ds|
  {
    if ds != [] {
      var rest := ds[1..];
      assert forall d :: d in ds <==> d == ds[0] || d in rest;
      if Owns(n, ds[0], f) {
        DumpReadsBack(v);
        SettlesAtFirst(n, rest, f, Settle(ds[0].value, tok), v);
      } else {
        SettlesAtFirst(n, rest, f, tok, v);
      }
    }
  }

  /** So in the end it has settled for each owner as if that one had been alone. */
  lemma SettlesForEach(n: Node, ds: seq<Declaration>, f: Path, tok: string, d: Declaration)
    requires IsToken(tok) && d in ds && Owns(n, d, f)
    requires forall c :: c in ds && Owns(n, c, f) ==> Settled(c.value, SettleInTurn(n, ds, f, tok))
    ensures SettleInTurn(n, ds, f, tok) == Settle(d.value, tok)
    ensures Replacement(d.value, Some(Atom(TokenMeaning(tok)))).Some?
  {
    var t := SettleInTurn(n, ds, f, tok);
    SettleInTurnKeepsKind(n, ds, f, tok);
    SettlesAtFirst(n, ds, f, tok, TokenMeaning(t));
  }

  // ---- when two files end alike ----

  /** The fields the declarations own hold scalars, if some text came of the file in which they all do. */
  lemma PlacesHaveSpans(other: Editor, n: Node, trail: string, tokens: map<Path, string>, d: Declaration)
    requires WellFormed(n) && AllSpace(trail) && Tokens(tokens) && d.format.Json?
    requires JsonEdit(Document(n, tokens, trail), d.format.target, d.value).Some?
    ensures forall f :: Owns(n, d, f) ==> f in Spans(n, 0, [])
  {
    var m := Rewrite(n, tokens, []);
    RewriteWellFormed(n, tokens, []);
    DocumentsAreTheirText(Document(n, tokens, trail), m, trail);
    SamePlaces(n, tokens, d.format.target);
    TargetsArePlaces(ValueOf(m), d.format.target);
    PlacesAreKeyPaths(ValueOf(m), d.format.target);
    forall f | Owns(n, d, f) ensures f in Spans(n, 0, []) {
      assert Replacement(d.value, Get(ValueOf(m), f)).Some?;
      SpanIffScalar(m, 0, [], f);
      assert [] + f == f;
      SpansAround(n, tokens, f);
    }
  }

  /** Editing in turn only ever sets tokens. */
  lemma {:induction false} EditsOnlySet(other: Editor, n: Node, trail: string, ds: seq<Declaration>)
    returns (tokens: map<Path, string>)
    requires WellFormed(n) && AllSpace(trail) && AllJson(ds) && EditInTurn(other, Print(n, trail), ds).Some?
    ensures Tokens(tokens) && EditInTurn(other, Print(n, trail), ds) == Some(Document(n, tokens, trail))
    decreases |ds|
  {
    if ds == [] {
      tokens := map[];
      RewriteNothing(n, []);
    } else {
      var d := ds[0];
      assert d in ds && forall c :: c in ds[1..] ==> c in ds;
      DocumentsAreTheirText(Print(n, trail), n, trail);
      var e := Dumps(Changes(ValueOf(n), TargetFields(ValueOf(n), d.format.target).value, d.value));
      DumpsAreTokens(Changes(ValueOf(n), TargetFields(ValueOf(n), d.format.target).value, d.value));
      RewriteWellFormed(n, e, []);
      var more := EditsOnlySet(other, Rewrite(n, e, []), trail, ds[1..]);
      tokens := e + more;
      RewriteTwice(n, e, more, []);
    }
  }

  lemma AllPlacesHaveSpans(other: Editor, text: string, n: Node, trail: string, ds: seq<Declaration>, text': string)
    requires AllJson(ds) && ParseDocument(text) == Some((n, trail)) && Becomes(other, text, ds, text')
    ensures forall f :: f in AllPlaces(n, ds) ==> f in Spans(n, 0, []) && IsKeyPath(f)
  {
    DocumentsAreTheirText(text, n, trail);
    var tokens := EditsOnlySet(other, n, trail, ds);
    AllPlacesAre(n, ds);
    forall f | f in AllPlaces(n, ds) ensures f in Spans(n, 0, []) && IsKeyPath(f) {
      var d :| d in ds && Owns(n, d, f);
      PlacesHaveSpans(other, n, trail, tokens, d);
      PlacesAreKeyPaths(ValueOf(n), d.format.target);
    }
  }

  /** What the edits leave settled stays as it is. */
  lemma HeldIsSettled(other: Editor, n: Node, trail: string, tokens: map<Path, string>, d: Declaration, f: Path)
    requires WellFormed(n) && AllSpace(trail) && Tokens(tokens) && d.format.Json? && Owns(n, d, f)
    requires PlacesOf(n, d) <= tokens.Keys && f in Spans(n, 0, [])
    requires EditFile(other, Document(n, tokens, trail), d) == Some(Document(n, tokens, trail))
    ensures Settled(d.value, tokens[f])
  {
    OneEditSettles(n, trail, tokens, d);
    var fields := TargetFields(ValueOf(Rewrite(n, tokens, [])), d.format.target).value;
    var after := SettleIn(fields, d.value, tokens);
    SameToken(n, trail, tokens, after, f);
    FieldIsToken(n, trail, tokens, d.format.target, d.value, f);
    LeftAlone(d.value, tokens[f]);
  }

  lemma SameToken(n: Node, trail: string, a: map<Path, string>, b: map<Path, string>, f: Path)
    requires WellFormed(n) && AllSpace(trail) && Tokens(a) && Tokens(b) && f in a && f in b && f in Spans(n, 0, [])
    requires Document(n, a, trail) == Document(n, b, trail)
    ensures a[f] == b[f]
  {
    SameDocumentSameTree(n, n, trail, trail, a, b);
    RewriteTells(n, a, b, 0, [], f);
  }

  lemma LeftAlone(value: Projected, tok: string)
    requires Replacement(value, Some(Atom(TokenMeaning(tok)))).Some? && Settle(value, tok) == tok
    ensures Settled(value, tok)
  {
    DumpReadsBack(Replacement(value, Some(Atom(TokenMeaning(tok)))).value);
  }

  /** Every owned field has settled as each of its owners would settle it. */
  ghost predicate SettledBy(n: Node, ds: seq<Declaration>, before: map<Path, string>, after: map<Path, string>) {
    before.Keys == after.Keys && forall d, f :: d in ds && Owns(n, d, f) ==>
      f in before && after[f] == Settle(d.value, before[f])
      && Replacement(d.value, Some(Atom(TokenMeaning(before[f])))).Some?
  }

  /** What a file becomes: its owned fields settled, each as every one of its owners would settle it. */
  lemma FileSettles(other: Editor, text: string, n: Node, trail: string, ds: seq<Declaration>, text': string)
    returns (before: map<Path, string>, after: map<Path, string>)
    requires AllJson(ds) && ParseDocument(text) == Some((n, trail)) && Becomes(other, text, ds, text')
    ensures before == OwnTokens(n, AllPlaces(n, ds)) && SettledBy(n, ds, before, after)
    ensures Tokens(before) && Tokens(after) && text' == Document(n, after, trail)
  {
    var fields := AllPlaces(n, ds);
    DocumentsAreTheirText(text, n, trail);
    AllPlacesAre(n, ds);
    AllPlacesHaveSpans(other, text, n, trail, ds, text');
    before := OwnTokens(n, fields);
    OwnTokensAreTokens(n, fields);
    OwnTokensStand(n, fields);
    EditsSettle(other, n, trail, before, ds);
    after := SettledInTurn(n, ds, before);
    forall d, f | d in ds && Owns(n, d, f)
      ensures f in before && after[f] == Settle(d.value, before[f])
      ensures Replacement(d.value, Some(Atom(TokenMeaning(before[f])))).Some?
    {
      assert f in fields;
      forall c | c in ds && Owns(n, c, f) ensures Settled(c.value, after[f]) {
        HeldIsSettled(other, n, trail, after, c, f);
      }
      SettlesForEach(n, ds, f, before[f], d);
    }
  }

  /**
   * Two JSON files alike around the fields declared for them, with each field the same token in both, or
   * the same kind of token in both and neither spelling the declared value in a way of its own.
   */
  ghost predicate AlikeFiles(s: string, t: string, ds: seq<Declaration>) {
    match (ParseDocument(s), ParseDocument(t))
    case (Some((n, trail)), Some((m, trail'))) =>
      && trail == trail' && AllPlaces(n, ds) == AllPlaces(m, ds)
      && Surroundings(n, AllPlaces(n, ds)) == Surroundings(m, AllPlaces(n, ds))
      && TokensAlike(n, m, ds)
    case _ => false
  }

  ghost predicate TokensAlike(n: Node, m: Node, ds: seq<Declaration>) {
    forall d, f :: d in ds && Owns(n, d, f) ==> EndsAlike(d.value, TokenAt(n, f), TokenAt(m, f))
  }

  lemma {:induction false} SameAllPlaces(n: Node, e: map<Path, string>, ds: seq<Declaration>)
    ensures AllPlaces(Rewrite(n, e, []), ds) == AllPlaces(n, ds)
    ensures forall d :: d in ds ==> PlacesOf(Rewrite(n, e, []), d) == PlacesOf(n, d)
  {
    if ds != [] {
      if ds[0].format.Json? { SamePlaces(n, e, ds[0].format.target); }
      SameAllPlaces(n, e, ds[1..]);
      assert forall d :: d in ds <==> d == ds[0] || d in ds[1..];
    }
  }

  lemma FieldEndsAlike(n: Node, m: Node, ds: seq<Declaration>, s: map<Path, string>, t: map<Path, string>,
                       s': map<Path, string>, t': map<Path, string>, d: Declaration, f: Path)
    requires d in ds && Owns(n, d, f) && PlacesOf(n, d) == PlacesOf(m, d) && Tokens(s) && Tokens(t)
    requires SettledBy(n, ds, s, s') && SettledBy(m, ds, t, t')
    ensures f in s && f in t && (s'[f] == t'[f] <==> EndsAlike(d.value, s[f], t[f]))
  {
    assert Owns(m, d, f);
    SettlesAlike(d.value, s[f], t[f]);
  }

  lemma TokensEndAlike(n: Node, m: Node, ds: seq<Declaration>, s: map<Path, string>, t: map<Path, string>,
                       s': map<Path, string>, t': map<Path, string>)
    requires s == OwnTokens(n, AllPlaces(n, ds)) && t == OwnTokens(m, AllPlaces(n, ds)) && Tokens(s) && Tokens(t)
    requires (forall d :: d in ds ==> PlacesOf(n, d) == PlacesOf(m, d)) && SettledBy(n, ds, s, s')
        && SettledBy(m, ds, t, t')
    ensures SameTokens(s', t') <==> TokensAlike(n, m, ds)
  {
    AllPlacesAre(n, ds);
    if SameTokens(s', t') {
      forall d, f | d in ds && Owns(n, d, f) ensures EndsAlike(d.value, TokenAt(n, f), TokenAt(m, f)) {
        FieldEndsAlike(n, m, ds, s, t, s', t', d, f);
      }
    }
    if TokensAlike(n, m, ds) {
      forall f | f in s' ensures f in t' && s'[f] == t'[f] {
        var d :| d in ds && Owns(n, d, f);
        FieldEndsAlike(n, m, ds, s, t, s', t', d, f);
      }
    }
  }

  /** Ending the same, or being alike around the fields, takes having the same fields. */
  lemma PlacesByFrame(n: Node, m: Node, trail: string, trail': string, a: map<Path, string>, b: map<Path, string>,
                      ds: seq<Declaration>)
    requires WellFormed(n) && AllSpace(trail) && Tokens(a) && WellFormed(m) && AllSpace(trail') && Tokens(b)
    ensures Document(n, a, trail) == Document(m, b, trail')
            || Surroundings(n, AllPlaces(n, ds)) == Surroundings(m, AllPlaces(n, ds)) ==>
              AllPlaces(n, ds) == AllPlaces(m, ds) && forall d :: d in ds ==> PlacesOf(n, d) == PlacesOf(m, d)
  {
    if Document(n, a, trail) == Document(m, b, trail') {
      SameDocumentSameTree(n, m, trail, trail', a, b);
      SameAllPlaces(n, a, ds);
      SameAllPlaces(m, b, ds);
    }
    if Surroundings(n, AllPlaces(n, ds)) == Surroundings(m, AllPlaces(n, ds)) {
      SameAllPlaces(n, map f | f in AllPlaces(n, ds) :: ZERO, ds);
      SameAllPlaces(m, map f | f in AllPlaces(n, ds) :: ZERO, ds);
    }
  }

  /** Two documents with the same fields, as their edits settle them. */
  lemma SettledEndAlike(n: Node, m: Node, trail: string, trail': string, fields: set<Path>, a: map<Path, string>,
                        b: map<Path, string>, alike: bool)
    requires WellFormed(n) && AllSpace(trail) && WellFormed(m) && AllSpace(trail') && Tokens(a) && Tokens(b)
    requires a.Keys == fields && b.Keys == fields && (SameTokens(a, b) <==> alike)
    requires forall f :: f in fields ==> f in Spans(n, 0, []) && IsKeyPath(f)
    ensures Document(n, a, trail) == Document(m, b, trail') <==>
              trail == trail' && Surroundings(n, fields) == Surroundings(m, fields) && alike
  {
    SetAlike(n, m, trail, trail', a, b);
  }

  /** A file's document, its own tokens in the declared fields, and those it ends up with. */
  ghost predicate Became(n: Node, trail: string, ds: seq<Declaration>, text': string, own: map<Path, string>,
                         set': map<Path, string>) {
    && WellFormed(n) && AllSpace(trail) && Tokens(own) && Tokens(set') && text' == Document(n, set', trail)
    && own == OwnTokens(n, AllPlaces(n, ds)) && set'.Keys == AllPlaces(n, ds) && SettledBy(n, ds, own, set')
    && forall f :: f in AllPlaces(n, ds) ==> f in Spans(n, 0, []) && IsKeyPath(f)
  }

  lemma FileBecomes(other: Editor, text: string, ds: seq<Declaration>, text': string)
    returns (n: Node, trail: string, own: map<Path, string>, set': map<Path, string>)
    requires AllJson(ds) && ds != [] && Becomes(other, text, ds, text')
    ensures ParseDocument(text) == Some((n, trail)) && Became(n, trail, ds, text', own, set')
  {
    assert ds[0] in ds;
    n, trail := ParseDocument(text).value.0, ParseDocument(text).value.1;
    own, set' := FileSettles(other, text, n, trail, ds, text');
    DocumentsAreTheirText(text, n, trail);
    AllPlacesHaveSpans(other, text, n, trail, ds, text');
    assert set'.Keys == own.Keys == AllPlaces(n, ds);
  }

  lemma BecameAlike(n: Node, m: Node, trail: string, trail': string, ds: seq<Declaration>, s': string, t': string,
                    a: map<Path, string>, b: map<Path, string>, a': map<Path, string>, b': map<Path, string>)
    requires Became(n, trail, ds, s', a, a') && Became(m, trail', ds, t', b, b')
    requires AllPlaces(n, ds) == AllPlaces(m, ds) && forall d :: d in ds ==> PlacesOf(n, d) == PlacesOf(m, d)
    ensures s' == t' <==>
              && trail == trail' && Surroundings(n, AllPlaces(n, ds)) == Surroundings(m, AllPlaces(n, ds))
              && TokensAlike(n, m, ds)
  {
    TokensEndAlike(n, m, ds, a, b, a', b');
    SettledEndAlike(n, m, trail, trail', AllPlaces(n, ds), a', b', TokensAlike(n, m, ds));
  }

  /** Exactly when two files are made the same by their declared edits. */
  lemma JsonFilesEndAlike(other: Editor, s: string, t: string, ds: seq<Declaration>, s': string, t': string)
    requires AllJson(ds) && ds != [] && Becomes(other, s, ds, s') && Becomes(other, t, ds, t')
    ensures s' == t' <==> AlikeFiles(s, t, ds)
  {
    var n, trail, a, a' := FileBecomes(other, s, ds, s');
    var m, trail', b, b' := FileBecomes(other, t, ds, t');
    PlacesByFrame(n, m, trail, trail', a', b', ds);
    if AllPlaces(n, ds) == AllPlaces(m, ds) && forall d :: d in ds ==> PlacesOf(n, d) == PlacesOf(m, d) {
      BecameAlike(n, m, trail, trail', ds, s', t', a, b, a', b');
    }
  }

  // ---- when two synchronisations end alike ----

  /** What has to be alike of one path: JSON files in the way above, others in what their editors make of them. */
  ghost predicate AlikeAt(other: Editor, s: string, t: string, ds: seq<Declaration>) {
    if AllJson(ds) then AlikeFiles(s, t, ds) else EditInTurn(other, s, ds) == EditInTurn(other, t, ds)
  }

  ghost predicate IsDeclared(ds: seq<Declaration>, p: string) { OfPath(ds, p) != [] }

  /**
   * Two starting points are synchronised to the same declared files exactly when they are alike at every declared
   * path.
   */
  lemma SyncsEndAlike(other: Editor, a: Files, b: Files, ds: seq<Declaration>)
    requires SyncOutcome(other, a, ds, false).Synced? && SyncOutcome(other, b, ds, false).Synced?
    ensures SyncOutcome(other, a, ds, false).edited == SyncOutcome(other, b, ds, false).edited <==>
              forall p :: IsDeclared(ds, p) ==> p in a && p in b && AlikeAt(other, a[p], b[p], OfPath(ds, p))
  {
    var x, y := SyncOutcome(other, a, ds, false).edited, SyncOutcome(other, b, ds, false).edited;
    forall p
      ensures p in x <==> IsDeclared(ds, p)
      ensures p in y <==> IsDeclared(ds, p)
      ensures IsDeclared(ds, p) ==> p in a && p in b && (x[p] == y[p] <==> AlikeAt(other, a[p], b[p], OfPath(ds, p)))
    {
      SyncedBecomes(other, a, ds, p);
      SyncedBecomes(other, b, ds, p);
      if IsDeclared(ds, p) && AllJson(OfPath(ds, p)) {
        JsonFilesEndAlike(other, a[p], b[p], OfPath(ds, p), x[p], y[p]);
      }
    }
    if forall p :: p in x ==> x[p] == y[p] {
      assert x == y;
    }
  }

  // ---- the digest ----

  /** What is digested: each declared file with the hash of its synchronised text, by path. */
  function Entries(hash: string -> string, edited: Files): seq<(string, string)> {
    var paths := Sorted(edited.Keys);
    seq(|paths|, i requires 0 <= i < |paths| => (paths[i], if paths[i] in edited then hash(edited[paths[i]]) else ""))
  }

  function EffectiveInputsDigest(hash: string -> string, render: seq<(string, string)> -> string,
                                 edited: Files): string {
    hash(render(Entries(hash, edited)))
  }

  lemma EntriesTell(hash: string -> string, a: Files, b: Files)
    requires forall x, y :: hash(x) == hash(y) ==> x == y
    ensures Entries(hash, a) == Entries(hash, b) ==> a == b
  {
    if Entries(hash, a) == Entries(hash, b) {
      var s, t := Sorted(a.Keys), Sorted(b.Keys);
      assert |s| == |Entries(hash, a)| == |Entries(hash, b)| == |t|;
      forall i | 0 <= i < |s| ensures s[i] == t[i] && s[i] in a && s[i] in b && a[s[i]] == b[s[i]] {
        assert s[i] in s && t[i] in t;
        assert Entries(hash, a)[i].0 == s[i] && Entries(hash, b)[i].0 == t[i];
        assert Entries(hash, a)[i].1 == hash(a[s[i]]) && Entries(hash, b)[i].1 == hash(b[t[i]]);
      }
      assert s == t;
      assert forall p :: p in a <==> p in s;
      assert a == b;
    }
  }

  /**
   * The digest of the effective inputs is the same for two starting points exactly when they are alike at
   * every declared path; it does depend on the state before synchronising where they are not.
   */
  lemma DigestsEndAlike(other: Editor, hash: string -> string, render: seq<(string, string)> -> string, a: Files,
                        b: Files, ds: seq<Declaration>)
    requires SyncOutcome(other, a, ds, false).Synced? && SyncOutcome(other, b, ds, false).Synced?
    requires (forall x, y :: hash(x) == hash(y) ==> x == y) && (forall x, y :: render(x) == render(y) ==> x == y)
    ensures EffectiveInputsDigest(hash, render, SyncOutcome(other, a, ds, false).edited)
         == EffectiveInputsDigest(hash, render, SyncOutcome(other, b, ds, false).edited)
       <==> forall p :: IsDeclared(ds, p) ==> p in a && p in b && AlikeAt(other, a[p], b[p], OfPath(ds, p))
  {
    SyncsEndAlike(other, a, b, ds);
    EntriesTell(hash, SyncOutcome(other, a, ds, false).edited, SyncOutcome(other, b, ds, false).edited);
  }

  // ---- a file that keeps its spelling ----

  function VersionField(path: string, value: Projected): Declaration {
    Declaration(path, Json(Manifest(["version"], None)), value)
  }

  function VersionKey(): string { Dump(Str("version")) }

  lemma VersionKeyNames()
    ensures IsKey(VersionKey()) && KeyName(VersionKey()) == "version"
  {
    DumpReadsBack(Str("version"));
  }

  /** A repository that is one manifest with this version token. */
  function OneManifest(path: string, tok: string): Files { map[path := Print(Manifested(VersionKey(), tok), "")] }

  /** A file that is one version field is synchronised to its settled token. */
  lemma ManifestSyncs(other: Editor, path: string, tok: string, value: Projected)
    requires IsToken(tok) && TokenMeaning(tok).Str?
    ensures SyncOutcome(other, OneManifest(path, tok), [VersionField(path, value)], false)
         == Synced(OneManifest(path, Settle(value, tok)), OneManifest(path, Settle(value, tok)))
  {
    var d := VersionField(path, value);
    VersionKeyNames();
    ManifestedEdit(VersionKey(), tok, None, value);
    SettlesOnce(value, tok);
    ManifestedEdit(VersionKey(), Settle(value, tok), None, value);
    OneFileSyncs(other, path, Print(Manifested(VersionKey(), tok), ""),
                 Print(Manifested(VersionKey(), Settle(value, tok)), ""), d);
  }

  lemma SettlesOnce(value: Projected, tok: string)
    requires IsToken(tok) && TokenMeaning(tok).Str?
    ensures var t := Settle(value, tok); IsToken(t) && TokenMeaning(t).Str? && Settle(value, t) == t
  {
    SettleKeepsKind(value, tok);
    DumpReadsBack(Str(WordingOf(value)));
  }

  lemma OneFileSyncs(other: Editor, path: string, text: string, text': string, d: Declaration)
    requires d.path == path && EditFile(other, text, d) == Some(text') && EditFile(other, text', d) == Some(text')
    ensures SyncOutcome(other, map[path := text], [d], false) == Synced(map[path := text'], map[path := text'])
  {
    assert [d][1..] == [];
    assert EditAll(other, map[path := text], map[path := text'], []) == Some(map[path := text']);
    assert map[path := text] + map[path := text'] == map[path := text'];
  }

  /** Both are synchronised, and not to the same bytes. */
  predicate EndApart(other: Editor, a: Files, b: Files, ds: seq<Declaration>) {
    match (SyncOutcome(other, a, ds, false), SyncOutcome(other, b, ds, false))
    case (Synced(_, x), Synced(_, y)) => x != y
    case _ => false
  }

  /**
   * For any version that begins with a digit: a manifest with another text in its version field, and one
   * that spells the version with its first character escaped.
   */
  lemma SpellingSurvives(other: Editor, path: string, version: string, was: string)
    requires version != "" && '0' <= version[0] <= '9' && was != version
    ensures EndApart(other, OneManifest(path, Dump(Str(was))), OneManifest(path, Numbered(version)),
                     [VersionField(path, Wording(version))])
  {
    DumpReadsBack(Str(was));
    DumpReadsBack(Str(version));
    NumberedMeans(version);
    PlainSettles(version, was);
    OddSettles(version);
    NumberedIsOdd(version);
    ManifestSyncs(other, path, Dump(Str(was)), Wording(version));
    ManifestSyncs(other, path, Numbered(version), Wording(version));
    ManifestsDiffer(path, Dump(Str(version)), Numbered(version));
  }

  lemma PlainSettles(version: string, was: string)
    ensures Settle(Wording(version), Dump(Str(was))) == Dump(Str(version))
  {
    DumpReadsBack(Str(was));
  }

  lemma OddSettles(version: string)
    requires version != "" && version[0] < '\U{80}'
    ensures Settle(Wording(version), Numbered(version)) == Numbered(version)
  {
    NumberedMeans(version);
  }

  lemma ManifestsDiffer(path: string, s: string, t: string)
    requires IsToken(s) && IsToken(t) && s != t
    ensures OneManifest(path, s) != OneManifest(path, t)
  {
    VersionKeyNames();
    if OneManifest(path, s) == OneManifest(path, t) {
      assert OneManifest(path, s)[path] == OneManifest(path, t)[path];
      ManifestedTells(VersionKey(), s, t);
    }
  }

  /** What ends apart is digested differently: the digest does depend on the state before synchronising. */
  lemma ApartIsToldApart(other: Editor, hash: string -> string, render: seq<(string, string)> -> string, a: Files,
                         b: Files, ds: seq<Declaration>)
    requires EndApart(other, a, b, ds)
    requires (forall x, y :: hash(x) == hash(y) ==> x == y) && (forall x, y :: render(x) == render(y) ==> x == y)
    ensures EffectiveInputsDigest(hash, render, SyncOutcome(other, a, ds, false).edited)
         != EffectiveInputsDigest(hash, render, SyncOutcome(other, b, ds, false).edited)
  {
    EntriesTell(hash, SyncOutcome(other, a, ds, false).edited, SyncOutcome(other, b, ds, false).edited);
  }
}
