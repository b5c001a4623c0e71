// Two files that differ only in how, or to what, their owned fields were set: when does an edit
// leave them byte for byte the same?
module JsonSpelling {
  import opened Wrappers
  import opened Sequences
  import opened Decimal
  import opened JsonTokens
  import opened JsonText
  import opened JsonEdits
  import opened JsonEditor

  /** The token that stands in an owned field after the edit. */
  function Settle(value: Projected, tok: string): string {
    match Replacement(value, Some(Atom(TokenMeaning(tok))))
    case None => tok
    case Some(v) => if TokenMeaning(tok) == v then tok else Dump(v)
  }

  /** The owned fields settle, and no other. */
  function SettleIn(fields: seq<Path>, value: Projected, tokens: map<Path, string>): map<Path, string> {
    map f | f in tokens :: if f in fields then Settle(value, tokens[f]) else tokens[f]
  }

  function Document(n: Node, tokens: map<Path, string>, trail: string): string {
    Print(Rewrite(n, tokens, []), trail)
  }

  /** The document's owned fields are among those the tokens stand for. */
  ghost predicate Owned(n: Node, tokens: map<Path, string>, target: Target) {
    var fields := TargetFields(ValueOf(Rewrite(n, tokens, [])), target);
    fields.Some? && forall f :: f in fields.value ==> f in tokens
  }

  lemma ScalarOfToken(n: Node, tokens: map<Path, string>, f: Path)
    requires f in tokens
    ensures var was := Get(ValueOf(Rewrite(n, tokens, [])), f);
            was.Some? && was.value.Atom? ==> was == Some(Atom(TokenMeaning(tokens[f])))
  {
    RewriteValue(n, tokens, []);
    GetAfterPut(ValueOf(n), Meanings(tokens), [], f);
    assert [] + f == f;
  }

  /** Whatever stood in the owned fields, the edit settles each of them and nothing else. */
  lemma EditSettles(n: Node, trail: string, tokens: map<Path, string>, target: Target, value: Projected)
    requires WellFormed(n) && AllSpace(trail) && Tokens(tokens) && Owned(n, tokens, target)
    requires JsonEdit(Document(n, tokens, trail), target, value).Some?
    ensures var fields := TargetFields(ValueOf(Rewrite(n, tokens, [])), target).value;
            JsonEdit(Document(n, tokens, trail), target, value)
              == Some(Document(n, SettleIn(fields, value, tokens), trail))
  {
    var m := Rewrite(n, tokens, []);
    RewriteWellFormed(n, tokens, []);
    DocumentsAreTheirText(Print(m, trail), m, trail);
    var data := ValueOf(m);
    var fields := TargetFields(data, target).value;
    forall f | f in fields ensures Get(data, f) == Some(Atom(TokenMeaning(tokens[f]))) {
      ScalarOfToken(n, tokens, f);
    }
    RewriteTwice(n, tokens, Dumps(Changes(data, fields, value)), []);
    ChangesSettle(data, fields, tokens, value);
  }

  lemma ChangeSettles(data: Json, fields: seq<Path>, tok: string, value: Projected, f: Path)
    requires Replaceable(data, fields, value) && f in fields && Get(data, f) == Some(Atom(TokenMeaning(tok)))
    ensures var changes := Changes(data, fields, value);
            Settle(value, tok) == if f in changes then Dump(changes[f]) else tok
  {
  }

  lemma Overlaid(under: map<Path, string>, over: map<Path, string>, result: map<Path, string>)
    requires under.Keys == result.Keys && over.Keys <= under.Keys
    requires forall f :: f in under ==> result[f] == if f in over then over[f] else under[f]
    ensures under + over == result
  {
  }

  lemma ChangesSettle(data: Json, fields: seq<Path>, tokens: map<Path, string>, value: Projected)
    requires Replaceable(data, fields, value) && forall f :: f in fields ==> f in tokens
    requires forall f :: f in fields ==> Get(data, f) == Some(Atom(TokenMeaning(tokens[f])))
    ensures tokens + Dumps(Changes(data, fields, value)) == SettleIn(fields, value, tokens)
  {
    var changes := Changes(data, fields, value);
    forall f | f in fields
      ensures Settle(value, tokens[f]) == if f in changes then Dump(changes[f]) else tokens[f]
    {
      ChangeSettles(data, fields, tokens[f], value, f);
    }
    Overlaid(tokens, Dumps(changes), SettleIn(fields, value, tokens));
  }

  // ---- one document, one set of tokens ----

  lemma {:induction false} RewriteTells(n: Node, a: map<Path, string>, b: map<Path, string>, at: nat, here: Path,
                                        p: Path)
    requires p in Spans(n, at, here) && p in a && p in b && Rewrite(n, a, here) == Rewrite(n, b, here)
    ensures a[p] == b[p]
    decreases n, 0
  {
    match n
    case Leaf(_, _) =>
    case Dict(lead, _, members) => MembersTell(members, a, b, at + |lead| + 1, here, p);
    case List(lead, _, elements) => ElementsTell(elements, a, b, at + |lead| + 1, here, 0, p);
  }

  lemma {:induction false} MembersTell(ms: seq<Member>, a: map<Path, string>, b: map<Path, string>, at: nat,
                                       here: Path, p: Path)
    requires p in MemberSpans(ms, at, here) && p in a && p in b
        && RewriteMembers(ms, a, here) == RewriteMembers(ms, b, here)
    ensures a[p] == b[p]
    decreases ms, 0
  {
    var step := here + [Key(KeyName(ms[0].key))];
    var ra, rb := RewriteMembers(ms, a, here), RewriteMembers(ms, b, here);
    if p in Spans(ms[0].value, at + ValueOffset(ms[0]), step) {
      assert ra[0].value == rb[0].value;
      RewriteTells(ms[0].value, a, b, at + ValueOffset(ms[0]), step, p);
    } else {
      assert ra[1..] == RewriteMembers(ms[1..], a, here) && rb[1..] == RewriteMembers(ms[1..], b, here);
      MembersTell(ms[1..], a, b, at + MemberLength(ms[0]) + 1, here, p);
    }
  }

  lemma {:induction false} ElementsTell(es: seq<Element>, a: map<Path, string>, b: map<Path, string>, at: nat,
                                        here: Path,
                                        index: nat, p: Path)
    requires p in ElementSpans(es, at, here, index) && p in a && p in b
    requires RewriteElements(es, a, here, index) == RewriteElements(es, b, here, index)
    ensures a[p] == b[p]
    decreases es, 0
  {
    var ra, rb := RewriteElements(es, a, here, index), RewriteElements(es, b, here, index);
    if p in Spans(es[0].value, at, here + [At(index)]) {
      assert ra[0].value == rb[0].value;
      RewriteTells(es[0].value, a, b, at, here + [At(index)], p);
    } else {
      assert ra[1..] == RewriteElements(es[1..], a, here, index + 1);
      assert rb[1..] == RewriteElements(es[1..], b, here, index + 1);
      ElementsTell(es[1..], a, b, at + Length(es[0].value) + |es[0].after| + 1, here, index + 1, p);
    }
  }

  // ---- when two starting points end alike ----

  /** The token does not spell the projected value in a way of its own. */
  predicate Plain(value: Projected, tok: string) {
    var v := Replacement(value, Some(Atom(TokenMeaning(tok))));
    v.Some? && TokenMeaning(tok) == v.value ==> tok == Dump(v.value)
  }

  predicate SameKind(s: string, t: string) { TokenMeaning(s).Str? <==> TokenMeaning(t).Str? }

  /** Two tokens settle alike exactly when they are one, or of one kind and neither of its own spelling. */
  lemma SettlesAlike(value: Projected, s: string, t: string)
    requires IsToken(s) && Replacement(value, Some(Atom(TokenMeaning(s)))).Some?
    requires IsToken(t) && Replacement(value, Some(Atom(TokenMeaning(t)))).Some?
    ensures Settle(value, s) == Settle(value, t) <==>
              s == t || (SameKind(s, t) && Plain(value, s) && Plain(value, t))
  {
    DumpReadsBack(Replacement(value, Some(Atom(TokenMeaning(s)))).value);
    DumpReadsBack(Replacement(value, Some(Atom(TokenMeaning(t)))).value);
  }

  predicate EndsAlike(value: Projected, s: string, t: string) {
    s == t || (SameKind(s, t) && Plain(value, s) && Plain(value, t))
  }

  /** Text stays text and a number a number. */
  lemma SettleKeepsKind(value: Projected, s: string)
    requires IsToken(s)
    ensures IsToken(Settle(value, s)) && SameKind(s, Settle(value, s))
    ensures TokenMeaning(s).Int? <==> TokenMeaning(Settle(value, s)).Int?
  {
    var v := Replacement(value, Some(Atom(TokenMeaning(s))));
    if v.Some? { DumpReadsBack(v.value); }
  }

  lemma SettledTokens(fields: seq<Path>, value: Projected, a: map<Path, string>)
    requires Tokens(a)
    ensures Tokens(SettleIn(fields, value, a))
  {
    forall f | f in a ensures IsToken(Settle(value, a[f])) { SettleKeepsKind(value, a[f]); }
  }

  lemma SameDocumentSameTree(n: Node, m: Node, trail: string, trail': string, a: map<Path, string>,
                             b: map<Path, string>)
    requires WellFormed(n) && AllSpace(trail) && Tokens(a) && WellFormed(m) && AllSpace(trail') && Tokens(b)
    requires Document(n, a, trail) == Document(m, b, trail')
    ensures Rewrite(n, a, []) == Rewrite(m, b, []) && trail == trail'
  {
    RewriteWellFormed(n, a, []);
    RewriteWellFormed(m, b, []);
    DocumentsAreTheirText(Document(n, a, trail), Rewrite(n, a, []), trail);
    DocumentsAreTheirText(Document(m, b, trail'), Rewrite(m, b, []), trail');
  }

  /** An edit can only succeed where its fields are scalars of a kind that takes the value. */
  lemma FieldIsToken(n: Node, trail: string, a: map<Path, string>, target: Target, value: Projected, f: Path)
    requires WellFormed(n) && AllSpace(trail) && Tokens(a) && Owned(n, a, target)
    requires JsonEdit(Document(n, a, trail), target, value).Some?
    requires f in TargetFields(ValueOf(Rewrite(n, a, [])), target).value
    ensures f in Spans(n, 0, []) && Replacement(value, Some(Atom(TokenMeaning(a[f])))).Some?
  {
    var m := Rewrite(n, a, []);
    RewriteWellFormed(n, a, []);
    DocumentsAreTheirText(Print(m, trail), m, trail);
    ScalarOfToken(n, a, f);
    TargetsAreKeyPaths(ValueOf(m), target);
    SpanIffScalar(n, 0, [], f);
    assert [] + f == f;
    RewriteValue(n, a, []);
    GetAfterPut(ValueOf(n), Meanings(a), [], f);
  }

  // ---- a document and its own tokens ----

  function OwnTokens(n: Node, fields: set<Path>): map<Path, string> { map f | f in fields :: TokenAt(n, f) }

  lemma OwnTokensSplit(n: Node, fields: set<Path>, f: Path)
    requires f in fields
    ensures OwnTokens(n, fields) == OwnTokens(n, fields - {f}) + map[f := TokenAt(n, f)]
  {
  }

  lemma OwnTokensAreTokens(n: Node, fields: set<Path>)
    requires WellFormed(n) && forall f :: f in fields ==> f in Spans(n, 0, [])
    ensures Tokens(OwnTokens(n, fields))
  {
    forall f | f in fields ensures IsToken(TokenAt(n, f)) { TokenStands(n, f); }
  }

  /** A document is its own tokens in their places. */
  lemma {:induction false} OwnTokensStand(n: Node, fields: set<Path>)
    requires WellFormed(n) && forall f :: f in fields ==> f in Spans(n, 0, [])
    ensures Rewrite(n, OwnTokens(n, fields), []) == n
    decreases |fields|
  {
    if fields == {} {
      assert OwnTokens(n, fields) == map[];
      RewriteNothing(n, []);
    } else {
      var f :| f in fields;
      OwnTokensStand(n, fields - {f});
      TokenStands(n, f);
      OwnTokensSplit(n, fields, f);
      RewriteTwice(n, OwnTokens(n, fields - {f}), map[f := TokenAt(n, f)], []);
    }
  }

  const ZERO := ['0']

  lemma ZeroIsToken()
    ensures IsToken(ZERO)
  {
    assert ZERO == Dump(Int(0)) by { assert IntText(0) == Digits(0) == ZERO; }
    DumpReadsBack(Int(0));
  }

  /** What a document is around some of its fields. */
  function Surroundings(n: Node, fields: set<Path>): Node { Rewrite(n, map f | f in fields :: ZERO, []) }

  /** Tokens set everywhere in some places leave what is around those places, and nothing else matters to them. */
  lemma SetInPlace(n: Node, tokens: map<Path, string>)
    ensures Surroundings(Rewrite(n, tokens, []), tokens.Keys) == Surroundings(n, tokens.Keys)
    ensures Rewrite(Surroundings(n, tokens.Keys), tokens, []) == Rewrite(n, tokens, [])
  {
    var zeros := map f | f in tokens.Keys :: ZERO;
    RewriteTwice(n, tokens, zeros, []);
    RewriteTwice(n, zeros, tokens, []);
    assert tokens + zeros == zeros && zeros + tokens == tokens;
  }

  predicate SameTokens(a: map<Path, string>, b: map<Path, string>) {
    forall f :: f in a ==> f in b && a[f] == b[f]
  }

  lemma SpansAround(n: Node, e: map<Path, string>, f: Path)
    requires WellFormed(n) && Tokens(e) && IsKeyPath(f)
    ensures f in Spans(Rewrite(n, e, []), 0, []) <==> f in Spans(n, 0, [])
  {
    RewriteWellFormed(n, e, []);
    SpanIffScalar(n, 0, [], f);
    SpanIffScalar(Rewrite(n, e, []), 0, [], f);
    assert [] + f == f;
    RewriteValue(n, e, []);
    GetAfterPut(ValueOf(n), Meanings(e), [], f);
  }

  /**
   * Two documents with their fields set are one exactly when they are alike around those fields and have
   * the same token in each.
   */
  lemma SetAlike(n: Node, m: Node, trail: string, trail': string, a: map<Path, string>, b: map<Path, string>)
    requires WellFormed(n) && AllSpace(trail) && Tokens(a) && WellFormed(m) && AllSpace(trail') && Tokens(b)
    requires a.Keys == b.Keys && forall f :: f in a ==> f in Spans(n, 0, []) && IsKeyPath(f)
    ensures Document(n, a, trail) == Document(m, b, trail') <==>
              trail == trail' && Surroundings(n, a.Keys) == Surroundings(m, a.Keys) && SameTokens(a, b)
  {
    SetInPlace(n, a);
    SetInPlace(m, b);
    if Document(n, a, trail) == Document(m, b, trail') {
      SameDocumentSameTree(n, m, trail, trail', a, b);
      var w := Surroundings(n, a.Keys);
      forall f | f in a ensures a[f] == b[f] {
        ZeroIsToken();
        SpansAround(n, map g | g in a.Keys :: ZERO, f);
        RewriteTells(w, a, b, 0, [], f);
      }
    }
    if trail == trail' && Surroundings(n, a.Keys) == Surroundings(m, a.Keys) && SameTokens(a, b) {
      assert a == b;
    }
  }

  // ---- an odd spelling ----

  /** A character written by its number. */
  function NumberOf(c: char): string
    requires c < '\U{80}'
  {
    ['\\', 'u', '0', '0', HexDigit(c as nat / 16), HexDigit(c as nat % 16)]
  }

  /** A string token whose first character is written by its number. */
  function Numbered(s: string): string
    requires s != "" && s[0] < '\U{80}'
  {
    "\"" + (NumberOf(s[0]) + (EscapeAll(s[1..]) + "\""))
  }

  lemma NumberIsChar(c: char, u: string)
    requires c < '\U{80}' && |u| >= 4 && u[..4] == NumberOf(c)[2..]
    ensures HexChar(u) == Some((c, 4))
  {
    assert u[0] == u[..4][0] && u[1] == u[..4][1] && u[2] == u[..4][2] && u[3] == u[..4][3];
    assert c as nat == c as nat / 16 * 16 + c as nat % 16;
  }

  lemma ScanNumbered(c: char, rest: string)
    requires c < '\U{80}' && ScanString(rest).Some?
    ensures ScanString(NumberOf(c) + rest) == Some(([c] + ScanString(rest).value.0, 6 + ScanString(rest).value.1))
  {
    var s := NumberOf(c) + rest;
    assert s[1..][1..][..4] == NumberOf(c)[2..];
    NumberIsChar(c, s[1..][1..]);
    assert Unescape(s[1..]) == Some((c, 5));
    assert s[6..] == rest;
  }

  lemma NumberedMeans(s: string)
    requires s != "" && s[0] < '\U{80}'
    ensures IsToken(Numbered(s)) && TokenMeaning(Numbered(s)) == Str(s)
  {
    var tail := EscapeAll(s[1..]) + "\"";
    ScanOfEscaped(s[1..], "");
    assert tail + "" == tail;
    ScanNumbered(s[0], tail);
    Prepended('"', NumberOf(s[0]) + tail);
    Front(s);
  }

  /** It is not how the text is written plainly. */
  lemma NumberedIsOdd(s: string)
    requires s != "" && ' ' <= s[0] < '\U{80}' && s[0] != '"' && s[0] != '\\'
    ensures Numbered(s) != Dump(Str(s))
  {
    assert Numbered(s)[1] == '\\';
    assert Dump(Str(s))[1] == EscapeAll(s)[0] == Escape(s[0])[0] == s[0];
  }

  /** A file that is one dictionary with this member. */
  function Manifested(key: string, tok: string): Node {
    Dict("", "", [Member("", key, "", Leaf("", tok), "")])
  }

  /** The path of its one field. */
  function FieldOf(key: string): Path { [Key(KeyName(key))] }

  lemma ManifestedField(key: string, tok: string)
    requires IsKey(key) && IsToken(tok)
    ensures WellFormed(Manifested(key, tok))
    ensures Get(ValueOf(Manifested(key, tok)), FieldOf(key)) == Some(Atom(TokenMeaning(tok)))
  {
    var m := Manifested(key, tok);
    assert m.members[1..] == [];
    assert WellFormed(Leaf("", tok));
    assert WellFormedMember(m.members[0], {});
    assert WellFormedMembers(m.members[1..], {} + {KeyOf(key)});
    assert FieldsOf(m.members) == [Field(KeyName(key), Atom(TokenMeaning(tok)))];
    assert Get(Atom(TokenMeaning(tok)), FieldOf(key)[1..]) == Some(Atom(TokenMeaning(tok)));
  }

  /** What the edit makes of such a file, which may itself be required to bear its owner's name. */
  lemma ManifestedEdit(key: string, tok: string, owner: Option<string>, value: Projected)
    requires IsKey(key) && IsToken(tok) && TokenMeaning(tok).Str?
    requires owner.Some? ==> KeyName(key) == "name" && TokenMeaning(tok) == Str(owner.value)
    ensures JsonEdit(Print(Manifested(key, tok), ""), Manifest([KeyName(key)], owner), value)
         == Some(Print(Manifested(key, Settle(value, tok)), ""))
  {
    var m, a := Manifested(key, tok), map[FieldOf(key) := tok];
    ManifestedField(key, tok);
    DocumentsAreTheirText(Print(m, ""), m, "");
    assert Keys([KeyName(key)]) == FieldOf(key);
    assert Replaceable(ValueOf(m), [FieldOf(key)], value);
    RewriteManifested(key, tok, a);
    EditSettles(m, "", a, Manifest([KeyName(key)], owner), value);
    RewriteManifested(key, tok, SettleIn([FieldOf(key)], value, a));
  }

  lemma RewriteManifested(key: string, tok: string, e: map<Path, string>)
    requires IsKey(key) && FieldOf(key) in e
    ensures Rewrite(Manifested(key, tok), e, []) == Manifested(key, e[FieldOf(key)])
  {
    var m := Manifested(key, tok);
    assert [] + [Key(KeyName(key))] == FieldOf(key);
    assert m.members[1..] == [];
    assert RewriteMembers(m.members, e, []) == [Member("", key, "", Leaf("", e[FieldOf(key)]), "")];
  }

  lemma AnotherNameIsRefused(key: string, tok: string, owner: string, value: Projected)
    requires IsKey(key) && KeyName(key) == "name" && IsToken(tok) && TokenMeaning(tok) != Str(owner)
    ensures JsonEdit(Print(Manifested(key, tok), ""), Manifest(["name"], Some(owner)), value).None?
  {
    var m := Manifested(key, tok);
    ManifestedField(key, tok);
    DocumentsAreTheirText(Print(m, ""), m, "");
    GetName(ValueOf(m));
  }

  /** A manifest whose owned field is its own name: giving it another name succeeds, once. */
  lemma RenamedIsRefused(key: string, owner: string, value: Projected)
    requires IsKey(key) && KeyName(key) == "name" && WordingOf(value) != owner
    ensures var target, text := Manifest(["name"], Some(owner)), Print(Manifested(key, Dump(Str(owner))), "");
            && RenamesOwner(target, value) && JsonEdit(text, target, value).Some?
            && JsonEdit(JsonEdit(text, target, value).value, target, value).None?
  {
    hide JsonEdit, Manifested;
    DumpReadsBack(Str(owner));
    DumpReadsBack(Str(WordingOf(value)));
    ManifestedEdit(key, Dump(Str(owner)), Some(owner), value);
    AnotherNameIsRefused(key, Settle(value, Dump(Str(owner))), owner, value);
  }

  /** Two such files are different texts when their tokens differ. */
  lemma ManifestedTells(key: string, s: string, t: string)
    requires IsKey(key) && IsToken(s) && IsToken(t)
    requires Print(Manifested(key, s), "") == Print(Manifested(key, t), "")
    ensures s == t
  {
    ManifestedField(key, s);
    ManifestedField(key, t);
    DocumentsAreTheirText(Print(Manifested(key, s), ""), Manifested(key, s), "");
    DocumentsAreTheirText(Print(Manifested(key, t), ""), Manifested(key, t), "");
    assert Manifested(key, s).members[0].value == Manifested(key, t).members[0].value;
  }
}
