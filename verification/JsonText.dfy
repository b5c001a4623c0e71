// JSON documents with every character of their text, and the parser's grammar over them.
module JsonText {
  import opened Wrappers
  import opened Sequences
  import opened JsonTokens

  /**
   * A parsed document together with its exact text: white space, tokens and structure in the order
   * in which they were read.
   */
  datatype Node =
    | Leaf(lead: string, tok: string)
    | Dict(lead: string, inner: string, members: seq<Member>)
    | List(lead: string, inner: string, elements: seq<Element>)

  datatype Member = Member(before: string, key: string, colon: string, value: Node, after: string)

  datatype Element = Element(value: Node, after: string)

  // ---- text ----

  /** The text of a value, followed by `tail`. */
  function Print(n: Node, tail: string): string
    decreases n, 0
  {
    match n
    case Leaf(lead, tok) => lead + (tok + tail)
    case Dict(lead, inner, members) =>
      lead + ("{" + (if members == [] then inner + ("}" + tail) else PrintMembers(members, tail)))
    case List(lead, inner, elements) =>
      lead + ("[" + (if elements == [] then inner + ("]" + tail) else PrintElements(elements, tail)))
  }

  function PrintMember(m: Member, tail: string): string
    decreases m, 0
  {
    m.before + (m.key + (m.colon + (":" + Print(m.value, m.after + tail))))
  }

  function PrintMembers(ms: seq<Member>, tail: string): string
    requires ms != []
    decreases ms, 0
  {
    PrintMember(ms[0], if |ms| == 1 then "}" + tail else "," + PrintMembers(ms[1..], tail))
  }

  function PrintElements(es: seq<Element>, tail: string): string
    requires es != []
    decreases es, 0
  {
    Print(es[0].value, es[0].after + (if |es| == 1 then "]" + tail else "," + PrintElements(es[1..], tail)))
  }

  // ---- which trees the parser builds ----

  predicate IsKey(tok: string) { IsToken(tok) && TokenValue(tok).Str? }

  function KeyOf(tok: string): string
    requires IsKey(tok)
  {
    TokenValue(tok).s
  }

  predicate WellFormed(n: Node)
    decreases n, 0
  {
    AllSpace(n.lead) &&
    match n
    case Leaf(_, tok) => IsToken(tok)
    case Dict(_, inner, members) => AllSpace(inner) && (members != [] ==> inner == "") && WellFormedMembers(members, {})
    case List(_, inner, elements) => AllSpace(inner) && (elements != [] ==> inner == "") && WellFormedElements(elements)
  }

  predicate WellFormedMember(m: Member, seen: set<string>)
    decreases m, 0
  {
    && AllSpace(m.before) && IsKey(m.key) && AllSpace(m.colon) && AllSpace(m.after)
    && KeyOf(m.key) !in seen && WellFormed(m.value)
  }

  /** Keys are strings, none twice and none among those already `seen`. */
  predicate WellFormedMembers(ms: seq<Member>, seen: set<string>)
    decreases ms, 0
  {
    ms == [] || (WellFormedMember(ms[0], seen) && WellFormedMembers(ms[1..], seen + {KeyOf(ms[0].key)}))
  }

  predicate WellFormedElements(es: seq<Element>)
    decreases es, 0
  {
    es == [] || (AllSpace(es[0].after) && WellFormed(es[0].value) && WellFormedElements(es[1..]))
  }

  // ---- parsing ----

  /** What was read, and the text left over. */
  type Parsed<T> = Option<(T, string)>

  /** The leading white space of a text. */
  function Space(s: string): string {
    if s == "" || !IsSpace(s[0]) then "" else [s[0]] + Space(s[1..])
  }

  /** The text after it. */
  function Skip(s: string): (r: string)
    ensures |r| <= |s|
  {
    if s == "" || !IsSpace(s[0]) then s else Skip(s[1..])
  }

  predicate IsBlank(c: char) { c in {' ', '\t', '\n', '\r'} }

  /** Spaces, tabs, line feeds and carriage returns are skipped, and nothing else is. */
  lemma {:induction false} BlanksAreSkipped(s: string) returns (i: nat)
    ensures i <= |s| && Space(s) == s[..i] && Skip(s) == s[i..]
    ensures (forall k :: 0 <= k < i ==> IsBlank(s[k])) && (i < |s| ==> !IsBlank(s[i]))
  {
    i := 0;
    if s != "" && IsSpace(s[0]) {
      var k := BlanksAreSkipped(s[1..]);
      i := k + 1;
      TakeFront(s, i);
    }
  }

  function ParseNode(s: string): (r: Parsed<Node>)
    ensures r.Some? ==> |r.value.1| < |s|
    decreases |s|, 2
  {
    var lead, t := Space(s), Skip(s);
    if t == "" then None
    else if t[0] == '{' then ParseDict(lead, t[1..])
    else if t[0] == '[' then ParseList(lead, t[1..])
    else match ScanScalar(t)
      case None => None
      case Some((_, n)) => Some((Leaf(lead, t[..n]), t[n..]))
  }

  function ParseDict(lead: string, s: string): (r: Parsed<Node>)
    ensures r.Some? ==> |r.value.1| < |s|
    decreases |s|, 2
  {
    if Skip(s) != "" && Skip(s)[0] == '}' then Some((Dict(lead, Space(s), []), Skip(s)[1..]))
    else match ParseMembers(s, {})
      case None => None
      case Some((ms, rest)) => Some((Dict(lead, "", ms), rest))
  }

  function ParseList(lead: string, s: string): (r: Parsed<Node>)
    ensures r.Some? ==> |r.value.1| < |s|
    decreases |s|, 5
  {
    if Skip(s) != "" && Skip(s)[0] == ']' then Some((List(lead, Space(s), []), Skip(s)[1..]))
    else match ParseElements(s)
      case None => None
      case Some((es, rest)) => Some((List(lead, "", es), rest))
  }

  /** A key, its colon and what follows the colon. */
  function ParseKey(s: string, seen: set<string>): (r: Parsed<(string, string, string)>)
    ensures r.Some? ==> |r.value.1| < |s| && IsKey(r.value.0.1) && KeyOf(r.value.0.1) !in seen
  {
    var t := Skip(s);
    if t == "" || t[0] != '"' then None
    else match ScanScalar(t)
      case None => None
      case Some((key, n)) =>
        var u := t[n..];
        ScanLocal(t, "");
        if !key.Str? || key.s in seen || Skip(u) == "" || Skip(u)[0] != ':' then None
        else Some(((Space(s), t[..n], Space(u)), Skip(u)[1..]))
  }

  /** One member up to the delimiter that follows it; the value keeps its own leading space. */
  function ParseMember(s: string, seen: set<string>): (r: Parsed<Member>)
    ensures r.Some? ==> 0 < |r.value.1| < |s| && IsKey(r.value.0.key)
    decreases |s|, 0
  {
    match ParseKey(s, seen)
    case None => None
    case Some(((before, key, colon), u)) =>
      match ParseNode(u)
      case None => None
      case Some((value, v)) =>
        if Skip(v) == "" then None else Some((Member(before, key, colon, value, Space(v)), Skip(v)))
  }

  function ParseMembers(s: string, seen: set<string>): (r: Parsed<seq<Member>>)
    ensures r.Some? ==> |r.value.1| < |s| && r.value.0 != []
    decreases |s|, 1
  {
    match ParseMember(s, seen)
    case None => None
    case Some((m, t)) =>
      if t[0] == '}' then Some(([m], t[1..]))
      else if t[0] != ',' then None
      else match ParseMembers(t[1..], seen + {KeyOf(m.key)})
        case None => None
        case Some((ms, rest)) => Some(([m] + ms, rest))
  }

  function ParseElement(s: string): (r: Parsed<Element>)
    ensures r.Some? ==> 0 < |r.value.1| < |s|
    decreases |s|, 3
  {
    match ParseNode(s)
    case None => None
    case Some((value, t)) => if Skip(t) == "" then None else Some((Element(value, Space(t)), Skip(t)))
  }

  function ParseElements(s: string): (r: Parsed<seq<Element>>)
    ensures r.Some? ==> |r.value.1| < |s| && r.value.0 != []
    decreases |s|, 4
  {
    match ParseElement(s)
    case None => None
    case Some((x, t)) =>
      if t[0] == ']' then Some(([x], t[1..]))
      else if t[0] != ',' then None
      else match ParseElements(t[1..])
        case None => None
        case Some((xs, rest)) => Some(([x] + xs, rest))
  }

  /** A whole document: one value, and nothing but white space after it. */
  function ParseDocument(s: string): Option<(Node, string)> {
    match ParseNode(s)
    case None => None
    case Some((n, rest)) => if AllSpace(rest) then Some((n, rest)) else None
  }

  // ---- what is parsed is the text ----

  lemma {:induction false} SpaceAndRest(s: string)
    ensures Space(s) + Skip(s) == s && AllSpace(Space(s))
    ensures Skip(s) == "" || !IsSpace(Skip(s)[0])
  {
    if s != "" && IsSpace(s[0]) {
      SpaceAndRest(s[1..]);
      Assoc([s[0]], Space(s[1..]), Skip(s[1..]));
      assert [s[0]] + s[1..] == s;
    }
  }

  /** A parsed value is well formed and prints as exactly the text it was read from. */
  lemma {:induction false} ParseNodeSound(s: string)
    requires ParseNode(s).Some?
    ensures var (n, rest) := ParseNode(s).value; WellFormed(n) && Print(n, rest) == s
    decreases |s|, 2
  {
    var lead, t := Space(s), Skip(s);
    SpaceAndRest(s);
    if t[0] == '{' {
      Front(t);
      ParseDictSound(lead, t[1..]);
    } else if t[0] == '[' {
      Front(t);
      ParseListSound(lead, t[1..]);
    } else {
      ScanLocal(t, "");
    }
  }

  lemma {:induction false} ParseDictSound(lead: string, s: string)
    requires ParseDict(lead, s).Some? && AllSpace(lead)
    ensures var (n, rest) := ParseDict(lead, s).value; WellFormed(n) && Print(n, rest) == lead + ("{" + s)
    decreases |s|, 2
  {
    if Skip(s) != "" && Skip(s)[0] == '}' {
      SpaceAndRest(s);
      Front(Skip(s));
    } else {
      ParseMembersSound(s, {});
    }
  }

  lemma {:induction false} ParseListSound(lead: string, s: string)
    requires ParseList(lead, s).Some? && AllSpace(lead)
    ensures var (n, rest) := ParseList(lead, s).value; WellFormed(n) && Print(n, rest) == lead + ("[" + s)
    decreases |s|, 5
  {
    if Skip(s) != "" && Skip(s)[0] == ']' {
      SpaceAndRest(s);
      Front(Skip(s));
    } else {
      ParseElementsSound(s);
    }
  }

  lemma CutAt(s: string, n: nat)
    requires n <= |s|
    ensures s[..n] + s[n..] == s
  {
  }

  lemma ParseKeySound(s: string, seen: set<string>)
    requires ParseKey(s, seen).Some?
    ensures var ((before, key, colon), rest) := ParseKey(s, seen).value;
            before + (key + (colon + (":" + rest))) == s && AllSpace(before) && AllSpace(colon)
  {
    var t := Skip(s);
    var n := ScanScalar(t).value.1;
    var u := t[n..];
    var v := Skip(u);
    SpaceAndRest(s);
    SpaceAndRest(u);
    CutAt(t, n);
    Front(v);
  }

  lemma {:induction false} ParseMemberSound(s: string, seen: set<string>)
    requires ParseMember(s, seen).Some?
    ensures var (m, rest) := ParseMember(s, seen).value; PrintMember(m, rest) == s && WellFormedMember(m, seen)
    decreases |s|, 0
  {
    ParseKeySound(s, seen);
    var u := ParseKey(s, seen).value.1;
    ParseNodeSound(u);
    SpaceAndRest(ParseNode(u).value.1);
  }

  lemma {:induction false} ParseMembersSound(s: string, seen: set<string>)
    requires ParseMembers(s, seen).Some?
    ensures var (ms, rest) := ParseMembers(s, seen).value; PrintMembers(ms, rest) == s && WellFormedMembers(ms, seen)
    decreases |s|, 1
  {
    var (m, t) := ParseMember(s, seen).value;
    ParseMemberSound(s, seen);
    Front(t);
    if t[0] == '}' {
      assert WellFormedMembers([m][1..], seen + {KeyOf(m.key)});
    } else {
      ParseMembersSound(t[1..], seen + {KeyOf(m.key)});
      var ms := ParseMembers(t[1..], seen + {KeyOf(m.key)}).value.0;
      assert ([m] + ms)[1..] == ms;
    }
  }

  lemma {:induction false} ParseElementsSound(s: string)
    requires ParseElements(s).Some?
    ensures var (es, rest) := ParseElements(s).value; PrintElements(es, rest) == s && WellFormedElements(es)
    decreases |s|, 4
  {
    var (x, t) := ParseElement(s).value;
    ParseNodeSound(s);
    SpaceAndRest(ParseNode(s).value.1);
    Front(t);
    if t[0] == ']' {
      assert WellFormedElements([x][1..]);
    } else {
      ParseElementsSound(t[1..]);
      var es := ParseElements(t[1..]).value.0;
      assert ([x] + es)[1..] == es;
    }
  }

  // ---- what is printed is parsed ----

  lemma {:induction false} SpaceBefore(w: string, rest: string)
    requires AllSpace(w) && (rest == "" || !IsSpace(rest[0]))
    ensures Space(w + rest) == w && Skip(w + rest) == rest
  {
    if w == "" {
      assert w + rest == rest;
    } else {
      assert (w + rest)[1..] == w[1..] + rest;
      SpaceBefore(w[1..], rest);
      assert [w[0]] + w[1..] == w;
    }
  }

  lemma ScanToken(tok: string, rest: string)
    requires IsToken(tok) && (Delimited(rest) || tok[0] == '"')
    ensures ScanScalar(tok + rest) == Some((TokenValue(tok), |tok|))
    ensures (tok + rest)[..|tok|] == tok && (tok + rest)[|tok|..] == rest && (tok + rest)[0] == tok[0]
  {
    assert tok[..|tok|] == tok;
    if tok[0] == '"' {
      ScanStringLocal(tok[1..], (tok + rest)[1..], |tok| - 1);
    } else {
      ScanLocal(tok, rest);
    }
  }

  /** A well-formed value is read back from its own text, whatever follows it in a document. */
  lemma {:induction false} ParseOfPrint(n: Node, rest: string)
    requires WellFormed(n) && Delimited(rest)
    ensures ParseNode(Print(n, rest)) == Some((n, rest))
    decreases n, 1
  {
    match n
    case Leaf(lead, tok) => ParseOfLeaf(lead, tok, rest);
    case Dict(lead, inner, members) =>
      if members == [] {
        EmptyDict(lead, inner, rest);
      } else {
        ParseOfMembers(members, {}, rest);
        MembersStart(members, {}, rest);
        Opens(lead, '{', PrintMembers(members, rest));
      }
    case List(lead, inner, elements) =>
      if elements == [] {
        EmptyList(lead, inner, rest);
      } else {
        ParseOfElements(elements, rest);
        ElementsStart(elements, rest);
        Opens(lead, '[', PrintElements(elements, rest));
      }
  }

  lemma Opens(lead: string, c: char, body: string)
    requires AllSpace(lead) && !IsSpace(c)
    ensures var s := lead + ([c] + body);
            Space(s) == lead && Skip(s) != "" && Skip(s)[0] == c && Skip(s)[1..] == body
  {
    SpaceBefore(lead, [c] + body);
  }

  lemma ParseOfLeaf(lead: string, tok: string, rest: string)
    requires AllSpace(lead) && IsToken(tok) && Delimited(rest)
    ensures ParseNode(lead + (tok + rest)) == Some((Leaf(lead, tok), rest))
  {
    TokenStart(tok);
    ScanToken(tok, rest);
    SpaceBefore(lead, tok + rest);
  }

  lemma EmptyDict(lead: string, inner: string, rest: string)
    requires AllSpace(lead) && AllSpace(inner)
    ensures ParseNode(lead + ("{" + (inner + ("}" + rest)))) == Some((Dict(lead, inner, []), rest))
  {
    Opens(lead, '{', inner + ("}" + rest));
    Opens(inner, '}', rest);
  }

  lemma EmptyList(lead: string, inner: string, rest: string)
    requires AllSpace(lead) && AllSpace(inner)
    ensures ParseNode(lead + ("[" + (inner + ("]" + rest)))) == Some((List(lead, inner, []), rest))
  {
    Opens(lead, '[', inner + ("]" + rest));
    Opens(inner, ']', rest);
  }

  lemma ParseOfKey(before: string, key: string, colon: string, rest: string, seen: set<string>)
    requires AllSpace(before) && IsKey(key) && AllSpace(colon) && KeyOf(key) !in seen
    ensures ParseKey(before + (key + (colon + (":" + rest))), seen) == Some(((before, key, colon), rest))
  {
    KeyStart(key);
    ScanToken(key, colon + (":" + rest));
    SpaceBefore(before, key + (colon + (":" + rest)));
    SpaceBefore(colon, ":" + rest);
    assert (":" + rest)[1..] == rest;
  }

  lemma KeyStart(tok: string)
    requires IsKey(tok)
    ensures tok != "" && tok[0] == '"'
  {
  }

  lemma AfterDelimits(after: string, rest: string)
    requires AllSpace(after) && rest != "" && rest[0] in {',', '}', ']'}
    ensures Delimited(after + rest) && Space(after + rest) == after && Skip(after + rest) == rest
  {
    SpaceBefore(after, rest);
    if after == "" { assert after + rest == rest; }
  }

  lemma {:induction false} ParseOfMember(m: Member, seen: set<string>, rest: string)
    requires WellFormedMember(m, seen) && rest != "" && rest[0] in {',', '}'}
    ensures ParseMember(PrintMember(m, rest), seen) == Some((m, rest))
    decreases m, 1
  {
    AfterDelimits(m.after, rest);
    ParseOfPrint(m.value, m.after + rest);
    ParseOfKey(m.before, m.key, m.colon, Print(m.value, m.after + rest), seen);
  }

  lemma {:induction false} ParseOfMembers(ms: seq<Member>, seen: set<string>, rest: string)
    requires ms != [] && WellFormedMembers(ms, seen)
    ensures ParseMembers(PrintMembers(ms, rest), seen) == Some((ms, rest))
    decreases ms, 0
  {
    var m := ms[0];
    var t := if |ms| == 1 then "}" + rest else "," + PrintMembers(ms[1..], rest);
    ParseOfMember(m, seen, t);
    if |ms| == 1 {
      assert ms == [m] && t[1..] == rest;
    } else {
      assert t[1..] == PrintMembers(ms[1..], rest) && [m] + ms[1..] == ms;
      ParseOfMembers(ms[1..], seen + {KeyOf(m.key)}, rest);
    }
  }

  lemma MembersStart(ms: seq<Member>, seen: set<string>, rest: string)
    requires ms != [] && WellFormedMembers(ms, seen)
    ensures var s := PrintMembers(ms, rest); Skip(s) != "" && Skip(s)[0] == '"'
  {
    var m := ms[0];
    KeyStart(m.key);
    var t := if |ms| == 1 then "}" + rest else "," + PrintMembers(ms[1..], rest);
    SpaceBefore(m.before, m.key + (m.colon + (":" + Print(m.value, m.after + t))));
  }

  lemma {:induction false} ParseOfElements(es: seq<Element>, rest: string)
    requires es != [] && WellFormedElements(es)
    ensures ParseElements(PrintElements(es, rest)) == Some((es, rest))
    decreases es, 0
  {
    var x := es[0];
    var t := if |es| == 1 then "]" + rest else "," + PrintElements(es[1..], rest);
    AfterDelimits(x.after, t);
    ParseOfPrint(x.value, x.after + t);
    assert ParseElement(Print(x.value, x.after + t)) == Some((x, t));
    if |es| == 1 {
      assert es == [x] && t[1..] == rest;
    } else {
      assert t[1..] == PrintElements(es[1..], rest) && [x] + es[1..] == es;
      ParseOfElements(es[1..], rest);
    }
  }

  lemma ElementsStart(es: seq<Element>, rest: string)
    requires es != [] && WellFormedElements(es)
    ensures var s := PrintElements(es, rest); Skip(s) != "" && Skip(s)[0] != ']'
  {
    var n := es[0].value;
    var t := es[0].after + (if |es| == 1 then "]" + rest else "," + PrintElements(es[1..], rest));
    match n
    case Leaf(lead, tok) =>
      TokenStart(tok);
      SpaceBefore(lead, tok + t);
    case Dict(lead, inner, members) =>
      SpaceBefore(lead, "{" + (if members == [] then inner + ("}" + t) else PrintMembers(members, t)));
    case List(lead, inner, elements) =>
      SpaceBefore(lead, "[" + (if elements == [] then inner + ("]" + t) else PrintElements(elements, t)));
  }

  /** The parser reads a document exactly when it is the text of a well-formed tree, which is unique. */
  lemma DocumentsAreTheirText(s: string, n: Node, trail: string)
    ensures ParseDocument(s) == Some((n, trail)) <==> WellFormed(n) && AllSpace(trail) && s == Print(n, trail)
  {
    if ParseDocument(s) == Some((n, trail)) {
      ParseNodeSound(s);
    }
    if WellFormed(n) && AllSpace(trail) && s == Print(n, trail) {
      ParseOfPrint(n, trail);
    }
  }
}
