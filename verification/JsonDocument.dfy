// The span-keeping JSON parser as the source runs it: offsets into one text, and a dictionary of
// scalar spans filled as it goes.
module JsonDocument {
  import opened Wrappers
  import opened Sequences
  import opened JsonTokens
  import opened JsonText
  import opened JsonEdits

  // ---- what the parser leaves over is the end of what it was given ----

  lemma NodeRest(s: string)
    requires ParseNode(s).Some?
    ensures var (n, rest) := ParseNode(s).value; s == Print(n, "") + rest
  {
    var (n, rest) := ParseNode(s).value;
    ParseNodeSound(s);
    NodeThen(n, rest);
  }

  lemma MemberRest(s: string, seen: set<string>)
    requires ParseMember(s, seen).Some?
    ensures var (m, rest) := ParseMember(s, seen).value; |s| == MemberLength(m) + |rest| && rest != ""
  {
    var (m, rest) := ParseMember(s, seen).value;
    ParseMemberSound(s, seen);
    MemberThen(m, rest);
  }

  lemma ElementRest(s: string)
    requires ParseElement(s).Some?
    ensures var (x, rest) := ParseElement(s).value; |s| == Length(x.value) + |x.after| + |rest| && rest != ""
  {
    NodeRest(s);
    SpaceAndRest(ParseNode(s).value.1);
  }

  lemma UnionAssoc<K, V>(a: map<K, V>, b: map<K, V>, c: map<K, V>)
    ensures (a + b) + c == a + (b + c)
  {
  }

  lemma UnionNothing<K, V>(a: map<K, V>)
    ensures a + map[] == a == map[] + a
  {
  }

  lemma FirstMemberSpans(m: Member, ms: seq<Member>, at: nat, here: Path)
    ensures MemberSpans([m] + ms, at, here) == Spans(m.value, at + ValueOffset(m), here + [Key(KeyName(m.key))])
              + MemberSpans(ms, at + MemberLength(m) + 1, here)
  {
    Prepended(m, ms);
  }

  lemma FirstElementSpans(x: Element, es: seq<Element>, at: nat, here: Path, index: nat)
    ensures ElementSpans([x] + es, at, here, index) == Spans(x.value, at, here + [At(index)])
              + ElementSpans(es, at + Length(x.value) + |x.after| + 1, here, index + 1)
  {
    Prepended(x, es);
  }

  function WithLead(n: Node, lead: string): Node {
    match n
    case Leaf(_, tok) => Leaf(lead, tok)
    case Dict(_, inner, members) => Dict(lead, inner, members)
    case List(_, inner, elements) => List(lead, inner, elements)
  }

  function Led(r: Parsed<Node>, lead: string): Parsed<Node> {
    if r.None? then None else Some((WithLead(r.value.0, lead), r.value.1))
  }

  /** The leading space plays no part in how a dictionary or list is read. */
  lemma LeadIsKept(lead: string, s: string)
    ensures ParseDict(lead, s) == Led(ParseDict("", s), lead)
    ensures ParseList(lead, s) == Led(ParseList("", s), lead)
    ensures ParseDict("", s).Some? ==> ParseDict("", s).value.0.Dict? && ParseDict("", s).value.0.lead == ""
    ensures ParseList("", s).Some? ==> ParseList("", s).value.0.List? && ParseList("", s).value.0.lead == ""
  {
  }

  /** A scalar that has been scanned at the start of `t`. */
  function LeafOf(lead: string, t: string, scanned: Option<(Scalar, nat)>): Parsed<Node>
    requires scanned.Some? ==> scanned.value.1 <= |t|
  {
    if scanned.None? then None else Some((Leaf(lead, t[..scanned.value.1]), t[scanned.value.1..]))
  }

  /** What has been read is the value `p`, and its spans have been added to those there were. */
  ghost predicate ValueRead(p: Parsed<Node>, r: Option<(Json, nat)>, index: nat, path: Path, was: map<Path, Span>,
                            now: map<Path, Span>) {
    match p
    case None => r.None?
    case Some((n, _)) => r.Some? && r.value.0 == ValueOf(n) && now == was + Spans(n, index, path)
  }

  /** The same value when the white space before it is counted in. */
  lemma LedRead(p: Parsed<Node>, lead: string, r: Option<(Json, nat)>, index: nat, path: Path, was: map<Path, Span>,
                now: map<Path, Span>)
    requires p.Some? ==> !p.value.0.Leaf? && p.value.0.lead == ""
    requires ValueRead(p, r, index + |lead|, path, was, now)
    ensures ValueRead(Led(p, lead), r, index, path, was, now)
  {
  }

  /** How a value is read, from where its first visible character stands. */
  lemma NodeByStart(s: string)
    ensures var t := Skip(s);
            ParseNode(s) == if t == "" then None
              else if t[0] == '{' then Led(ParseDict("", t[1..]), Space(s))
              else if t[0] == '[' then Led(ParseList("", t[1..]), Space(s))
              else LeafOf(Space(s), t, ScanScalar(t))
  {
    var t := Skip(s);
    if t != "" { LeadIsKept(Space(s), t[1..]); }
  }

  lemma LeafRead(lead: string, t: string, scanned: Option<(Scalar, nat)>, r: Option<(Json, nat)>, index: nat,
                 path: Path, was: map<Path, Span>, now: map<Path, Span>)
    requires scanned.Some? ==> scanned.value.1 <= |t|
    requires ValueRead(LeafOf("", t, scanned), r, index + |lead|, path, was, now)
    ensures ValueRead(LeafOf(lead, t, scanned), r, index, path, was, now)
  {
  }

  lemma SpaceLength(s: string)
    ensures |Space(s)| + |Skip(s)| == |s|
  {
    SpaceAndRest(s);
  }

  /** What has been read is the next member, and its spans have been added to those there were. */
  ghost predicate MemberRead(s: string, seen: set<string>, start: nat, path: Path, was: map<Path, Span>,
                             now: map<Path, Span>, r: (string, Json, nat)) {
    && ParseMember(s, seen).Some?
    && var (m, rest) := ParseMember(s, seen).value;
       && r.0 == KeyName(m.key) && r.1 == ValueOf(m.value) && r.2 == start + |s| - |rest|
       && now == was + Spans(m.value, start + ValueOffset(m), path + [Key(KeyName(m.key))])
  }

  ghost predicate MembersRead(p: Parsed<seq<Member>>, r: Option<(seq<Field>, nat)>, open: nat, path: Path,
                              was: map<Path, Span>, now: map<Path, Span>) {
    match p
    case None => r.None?
    case Some((ms, _)) => r.Some? && r.value.0 == FieldsOf(ms) && now == was + MemberSpans(ms, open, path)
  }

  /** A dictionary of the members read. */
  function DictOf(p: Parsed<seq<Member>>): Parsed<Node> {
    match p case None => None case Some((ms, rest)) => Some((Dict("", "", ms), rest))
  }

  lemma DictByMembers(s: string)
    ensures Skip(s) != "" && Skip(s)[0] == '}' ==> ParseDict("", s) == Some((Dict("", Space(s), []), Skip(s)[1..]))
    ensures !(Skip(s) != "" && Skip(s)[0] == '}') ==> ParseDict("", s) == DictOf(ParseMembers(s, {}))
  {
  }

  lemma EmptyDictRead(inner: string, rest: string, end: nat, index: nat, path: Path, spans: map<Path, Span>)
    ensures ValueRead(Some((Dict("", inner, []), rest)), Some((Object([]), end)), index, path, spans, spans)
  {
    UnionNothing(spans);
  }

  lemma DictRead(p: Parsed<seq<Member>>, r: Option<(seq<Field>, nat)>, index: nat, path: Path, was: map<Path, Span>,
                 now: map<Path, Span>)
    requires MembersRead(p, r, index + 1, path, was, now)
    ensures r.None? <==> DictOf(p).None?
    ensures r.Some? ==> DictOf(p).value.1 == p.value.1
    ensures r.Some? ==> ValueRead(DictOf(p), Some((Object(r.value.0), r.value.1)), index, path, was, now)
  {
    if p.Some? {
      SpansOfDict("", "", p.value.0, index, path);
    }
  }

  ghost predicate ElementRead(s: string, start: nat, path: Path, was: map<Path, Span>, now: map<Path, Span>,
                              r: (Json, nat)) {
    && ParseElement(s).Some?
    && var (x, rest) := ParseElement(s).value;
       && r.0 == ValueOf(x.value) && r.1 == start + |s| - |rest| && now == was + Spans(x.value, start, path)
  }

  /** How a key and its colon are read, from the texts at which they start. */
  lemma KeyByParts(s: string, seen: set<string>, t: string, u: string, v: string, key: Scalar, n: nat)
    requires t == Skip(s) && t != "" && t[0] == '"' && ScanScalar(t) == Some((key, n))
    requires u == t[n..] && v == Skip(u)
    ensures !key.Str? || key.s in seen || v == "" || v[0] != ':' ==> ParseKey(s, seen).None?
    ensures key.Str? && key.s !in seen && v != "" && v[0] == ':' ==>
              ParseKey(s, seen) == Some(((Space(s), t[..n], Space(u)), v[1..])) && KeyName(t[..n]) == key.s
  {
    ScannedToken(t);
  }

  /** What is left to read of the members from here, when these keys have been seen. */
  ghost predicate IsLeft(rest: Parsed<seq<Member>>, s: string, seen: set<string>) { rest == ParseMembers(s, seen) }

  /** A member before others that have been read. */
  function Before<T>(m: T, rest: Parsed<seq<T>>): Parsed<seq<T>> {
    match rest case None => None case Some((ms, end)) => Some(([m] + ms, end))
  }

  /** How the members are read: the next one, and after its delimiter the others. */
  lemma MembersByNext(s: string, seen: set<string>, m: Member, t: string)
    requires ParseMember(s, seen) == Some((m, t))
    ensures ParseMembers(s, seen) ==
              if t[0] == '}' then Some(([m] + [], t[1..]))
              else if t[0] == ',' then Before(m, ParseMembers(t[1..], seen + {KeyName(m.key)})) else None
  {
    ParseMemberSound(s, seen);
    assert [m] + [] == [m];
  }

  lemma NoNextMember(s: string, seen: set<string>)
    requires ParseMember(s, seen).None?
    ensures ParseMembers(s, seen).None?
  {
  }

  lemma NoNextElement(s: string)
    requires ParseElement(s).None?
    ensures ParseElements(s).None?
  {
  }

  lemma ElementsByNext(s: string, x: Element, t: string)
    requires ParseElement(s) == Some((x, t))
    ensures ParseElements(s) ==
              if t[0] == ']' then Some(([x] + [], t[1..]))
              else if t[0] == ',' then Before(x, ParseElements(t[1..])) else None
  {
    assert [x] + [] == [x];
  }

  /**
   * With `rest` still to be read from offset `start`, what has been read and recorded so far makes `whole`
   * of it.
   */
  ghost predicate Underway(whole: Parsed<seq<Member>>, rest: Parsed<seq<Member>>, open: nat, path: Path,
                           before: map<Path, Span>, result: seq<Field>, spans: map<Path, Span>, start: nat) {
    match rest
    case None => whole.None?
    case Some((ms, end)) =>
      && whole.Some? && whole.value.1 == end && FieldsOf(whole.value.0) == result + FieldsOf(ms)
      && before + MemberSpans(whole.value.0, open, path) == spans + MemberSpans(ms, start, path)
  }

  lemma BeginsUnderway(whole: Parsed<seq<Member>>, open: nat, path: Path, spans: map<Path, Span>)
    ensures Underway(whole, whole, open, path, spans, [], spans, open)
  {
    if whole.Some? { assert [] + FieldsOf(whole.value.0) == FieldsOf(whole.value.0); }
  }

  /** One more member: what it adds, and what is left. */
  lemma OneMore(whole: Parsed<seq<Member>>, m: Member, ms: seq<Member>, end: string, open: nat, path: Path,
                before: map<Path, Span>, result: seq<Field>, was: map<Path, Span>, start: nat)
    requires Underway(whole, Some(([m] + ms, end)), open, path, before, result, was, start)
    ensures Underway(whole, Some((ms, end)), open, path, before, result + [Field(KeyName(m.key), ValueOf(m.value))],
                     was + Spans(m.value, start + ValueOffset(m), path + [Key(KeyName(m.key))]),
                     start + MemberLength(m) + 1)
  {
    var field := Field(KeyName(m.key), ValueOf(m.value));
    Prepended(m, ms);
    Assoc(result, [field], FieldsOf(ms));
    FirstMemberSpans(m, ms, start, path);
    UnionAssoc(was, Spans(m.value, start + ValueOffset(m), path + [Key(KeyName(m.key))]),
               MemberSpans(ms, start + MemberLength(m) + 1, path));
  }

  lemma NoneLeft(whole: Parsed<seq<Member>>, end: string, open: nat, path: Path, before: map<Path, Span>,
                 result: seq<Field>, spans: map<Path, Span>, start: nat)
    requires Underway(whole, Some(([], end)), open, path, before, result, spans, start)
    ensures whole.Some? && whole.value.1 == end && FieldsOf(whole.value.0) == result
    ensures spans == before + MemberSpans(whole.value.0, open, path)
  {
    assert result + [] == result;
    UnionNothing(spans);
  }

  /** What the delimiter after a member says: `all` is what there was to read, `rest` what there is after it. */
  lemma MemberTaken(whole: Parsed<seq<Member>>, all: Parsed<seq<Member>>, rest: Parsed<seq<Member>>, m: Member,
                    delimiter: char, end: string, open: nat, path: Path, before: map<Path, Span>, result: seq<Field>,
                    was: map<Path, Span>, start: nat)
    requires Underway(whole, all, open, path, before, result, was, start)
    requires all == if delimiter == '}' then Some(([m] + [], end)) else if delimiter == ',' then Before(m, rest)
        else None
    ensures var result', now := result + [Field(KeyName(m.key), ValueOf(m.value))],
                                was + Spans(m.value, start + ValueOffset(m), path + [Key(KeyName(m.key))]);
            var next := start + MemberLength(m) + 1;
            && (delimiter == '}' ==> whole.Some? && whole.value.1 == end
                                     && MembersRead(whole, Some((result', next)), open, path, before, now))
            && (delimiter == ',' ==> Underway(whole, rest, open, path, before, result', now, next))
            && (delimiter != '}' && delimiter != ',' ==> whole.None?)
  {
    if delimiter == '}' {
      OneMore(whole, m, [], end, open, path, before, result, was, start);
      NoneLeft(whole, end, open, path, before, result + [Field(KeyName(m.key), ValueOf(m.value))],
               was + Spans(m.value, start + ValueOffset(m), path + [Key(KeyName(m.key))]), start + MemberLength(m) + 1);
    } else if delimiter == ',' && rest.Some? {
      OneMore(whole, m, rest.value.0, rest.value.1, open, path, before, result, was, start);
    }
  }

  ghost predicate ElementsRead(p: Parsed<seq<Element>>, r: Option<(seq<Json>, nat)>, open: nat, path: Path,
                               was: map<Path, Span>, now: map<Path, Span>) {
    match p
    case None => r.None?
    case Some((es, _)) => r.Some? && r.value.0 == ItemsOf(es) && now == was + ElementSpans(es, open, path, 0)
  }

  function ListOf(p: Parsed<seq<Element>>): Parsed<Node> {
    match p case None => None case Some((es, rest)) => Some((List("", "", es), rest))
  }

  lemma ListByElements(s: string)
    ensures Skip(s) != "" && Skip(s)[0] == ']' ==> ParseList("", s) == Some((List("", Space(s), []), Skip(s)[1..]))
    ensures !(Skip(s) != "" && Skip(s)[0] == ']') ==> ParseList("", s) == ListOf(ParseElements(s))
  {
  }

  lemma EmptyListRead(inner: string, rest: string, end: nat, index: nat, path: Path, spans: map<Path, Span>)
    ensures ValueRead(Some((List("", inner, []), rest)), Some((Array([]), end)), index, path, spans, spans)
  {
    UnionNothing(spans);
  }

  lemma ListRead(p: Parsed<seq<Element>>, r: Option<(seq<Json>, nat)>, index: nat, path: Path, was: map<Path, Span>,
                 now: map<Path, Span>)
    requires ElementsRead(p, r, index + 1, path, was, now)
    ensures r.None? <==> ListOf(p).None?
    ensures r.Some? ==> ListOf(p).value.1 == p.value.1
    ensures r.Some? ==> ValueRead(ListOf(p), Some((Array(r.value.0), r.value.1)), index, path, was, now)
  {
  }

  ghost predicate ItemsUnderway(whole: Parsed<seq<Element>>, rest: Parsed<seq<Element>>, open: nat, path: Path,
                                before: map<Path, Span>, result: seq<Json>, spans: map<Path, Span>, start: nat) {
    match rest
    case None => whole.None?
    case Some((es, end)) =>
      && whole.Some? && whole.value.1 == end && ItemsOf(whole.value.0) == result + ItemsOf(es)
      && before + ElementSpans(whole.value.0, open, path, 0) == spans + ElementSpans(es, start, path, |result|)
  }

  lemma BeginsItems(whole: Parsed<seq<Element>>, open: nat, path: Path, spans: map<Path, Span>)
    ensures ItemsUnderway(whole, whole, open, path, spans, [], spans, open)
  {
    if whole.Some? { assert [] + ItemsOf(whole.value.0) == ItemsOf(whole.value.0); }
  }

  lemma OneMoreItem(whole: Parsed<seq<Element>>, x: Element, es: seq<Element>, end: string, open: nat, path: Path,
                    before: map<Path, Span>, result: seq<Json>, was: map<Path, Span>, start: nat)
    requires ItemsUnderway(whole, Some(([x] + es, end)), open, path, before, result, was, start)
    ensures ItemsUnderway(whole, Some((es, end)), open, path, before, result + [ValueOf(x.value)],
                          was + Spans(x.value, start, path + [At(|result|)]), start + Length(x.value) + |x.after| + 1)
  {
    Prepended(x, es);
    Assoc(result, [ValueOf(x.value)], ItemsOf(es));
    FirstElementSpans(x, es, start, path, |result|);
    UnionAssoc(was, Spans(x.value, start, path + [At(|result|)]),
               ElementSpans(es, start + Length(x.value) + |x.after| + 1, path, |result| + 1));
  }

  lemma NoItemLeft(whole: Parsed<seq<Element>>, end: string, open: nat, path: Path, before: map<Path, Span>,
                   result: seq<Json>, spans: map<Path, Span>, start: nat)
    requires ItemsUnderway(whole, Some(([], end)), open, path, before, result, spans, start)
    ensures whole.Some? && whole.value.1 == end && ItemsOf(whole.value.0) == result
    ensures spans == before + ElementSpans(whole.value.0, open, path, 0)
  {
    assert result + [] == result;
    UnionNothing(spans);
  }

  lemma ElementTaken(whole: Parsed<seq<Element>>, all: Parsed<seq<Element>>, rest: Parsed<seq<Element>>, x: Element,
                     delimiter: char, end: string, open: nat, path: Path, before: map<Path, Span>, result: seq<Json>,
                     was: map<Path, Span>, start: nat)
    requires ItemsUnderway(whole, all, open, path, before, result, was, start)
    requires all == if delimiter == ']' then Some(([x] + [], end)) else if delimiter == ',' then Before(x, rest)
        else None
    ensures var result', now := result + [ValueOf(x.value)], was + Spans(x.value, start, path + [At(|result|)]);
            var next := start + Length(x.value) + |x.after| + 1;
            && (delimiter == ']' ==> whole.Some? && whole.value.1 == end
                                     && ElementsRead(whole, Some((result', next)), open, path, before, now))
            && (delimiter == ',' ==> ItemsUnderway(whole, rest, open, path, before, result', now, next))
            && (delimiter != ']' && delimiter != ',' ==> whole.None?)
  {
    if delimiter == ']' {
      OneMoreItem(whole, x, [], end, open, path, before, result, was, start);
      NoItemLeft(whole, end, open, path, before, result + [ValueOf(x.value)],
                 was + Spans(x.value, start, path + [At(|result|)]), start + Length(x.value) + |x.after| + 1);
    } else if delimiter == ',' && rest.Some? {
      OneMoreItem(whole, x, rest.value.0, rest.value.1, open, path, before, result, was, start);
    }
  }

  class JsonDocument {
    const text: string
    var spans: map<Path, Span>

    constructor (text: string)
      ensures this.text == text && spans == map[]
    {
      this.text, spans := text, map[];
    }

    /** `s` is the text from offset `i` on. */
    ghost predicate From(i: nat, s: string) {
      i + |s| == |text| && forall k :: 0 <= k < |s| ==> s[k] == text[i + k]
    }

    lemma FromRest(i: nat, s: string, n: nat)
      requires From(i, s) && n <= |s|
      ensures From(i + n, s[n..])
    {
    }

    method Whitespace(index: nat, ghost s: string) returns (i: nat)
      requires From(index, s)
      ensures From(i, Skip(s)) && i == index + |Space(s)|
    {
      i := index;
      ghost var t := s;
      while i < |text| && IsSpace(text[i])
        invariant From(i, t) && Skip(t) == Skip(s) && i + |Space(t)| == index + |Space(s)|
        decreases |text| - i
      {
        assert t[0] == text[i];
        FromRest(i, t, 1);
        t := t[1..];
        i := i + 1;
      }
      assert t != "" ==> t[0] == text[i];
    }

    method Parse(index: nat, path: Path, ghost s: string) returns (r: Option<(Json, nat)>)
      requires From(index, s)
      modifies this`spans
      ensures ValueRead(ParseNode(s), r, index, path, old(spans), spans)
      ensures r.Some? ==> From(r.value.1, ParseNode(s).value.1)
      decreases |text| - index, 2
    {
      hide ParseNode, ParseDict, ParseList, ScanScalar, Spans, Skip, Space;
      var i := Whitespace(index, s);
      NodeByStart(s);
      SpaceLength(s);
      ghost var t := Skip(s);
      if i == |text| {
        return None;
      }
      assert t[0] == text[i];
      FromRest(i, t, 1);
      hide From;
      LeadIsKept("", t[1..]);
      if text[i] == '{' {
        r := ParseObject(i, path, t[1..]);
        LedRead(ParseDict("", t[1..]), Space(s), r, index, path, old(spans), spans);
      } else if text[i] == '[' {
        r := ParseArray(i, path, t[1..]);
        LedRead(ParseList("", t[1..]), Space(s), r, index, path, old(spans), spans);
      } else {
        r := ParseScalar(i, path, t);
        LeafRead(Space(s), t, ScanScalar(t), r, index, path, old(spans), spans);
      }
    }

    method ParseScalar(i: nat, path: Path, ghost t: string) returns (r: Option<(Json, nat)>)
      requires From(i, t)
      modifies this`spans
      ensures ValueRead(LeafOf("", t, ScanScalar(t)), r, i, path, old(spans), spans)
      ensures r.Some? ==> From(r.value.1, LeafOf("", t, ScanScalar(t)).value.1)
    {
      hide ScanScalar;
      assert t == text[i..];
      var scanned := ScanScalar(text[i..]);
      if scanned.None? {
        return None;
      }
      ScannedToken(t);
      FromRest(i, t, scanned.value.1);
      spans := spans[path := (i, i + scanned.value.1)];
      return Some((Atom(scanned.value.0), i + scanned.value.1));
    }

    /** A key and its colon; the value starts where it returns. */
    method ParseKeyAt(start: nat, seen: set<string>, ghost s: string) returns (r: Option<(string, nat)>)
      requires From(start, s)
      ensures match ParseKey(s, seen)
              case None => r.None?
              case Some(((before, key, colon), rest)) =>
                r.Some? && r.value.0 == KeyName(key) && From(r.value.1, rest)
                && r.value.1 == start + |before| + |key| + |colon| + 1
    {
      var i := Whitespace(start, s);
      ghost var t := Skip(s);
      assert t != "" ==> t[0] == text[i];
      if i == |text| || text[i] != '"' {
        return None;
      }
      assert t == text[i..];
      var scanned := ScanScalar(text[i..]);
      if scanned.None? {
        return None;
      }
      var end := i + scanned.value.1;
      ghost var u := t[scanned.value.1..];
      FromRest(i, t, scanned.value.1);
      var colon := Whitespace(end, u);
      ghost var v := Skip(u);
      assert v != "" ==> v[0] == text[colon];
      KeyByParts(s, seen, t, u, v, scanned.value.0, scanned.value.1);
      if !scanned.value.0.Str? || scanned.value.0.s in seen || colon == |text| || text[colon] != ':' {
        return None;
      }
      FromRest(colon, v, 1);
      return Some((scanned.value.0.s, colon + 1));
    }

    /** One member: its key, its value and where the delimiter after it stands. */
    method ParseMemberAt(start: nat, seen: set<string>, path: Path, ghost s: string) returns (r: Option<(string,
                         Json, nat)>)
      requires From(start, s)
      modifies this`spans
      ensures r.None? <==> ParseMember(s, seen).None?
      ensures r.Some? ==> MemberRead(s, seen, start, path, old(spans), spans, r.value)
      ensures r.Some? ==> From(r.value.2, ParseMember(s, seen).value.1)
      decreases |text| - start, 0
    {
      var key := ParseKeyAt(start, seen, s);
      if key.None? {
        return None;
      }
      ghost var u := ParseKey(s, seen).value.1;
      var value := Parse(key.value.1, path + [Key(key.value.0)], u);
      if value.None? {
        return None;
      }
      ghost var v := ParseNode(u).value.1;
      var next := Whitespace(value.value.1, v);
      if next == |text| {
        return None;
      }
      return Some((key.value.0, value.value.0, next));
    }

    method ParseObject(index: nat, path: Path, ghost s: string) returns (r: Option<(Json, nat)>)
      requires From(index + 1, s)
      modifies this`spans
      ensures ValueRead(ParseDict("", s), r, index, path, old(spans), spans)
      ensures r.Some? ==> From(r.value.1, ParseDict("", s).value.1)
      decreases |text| - index, 1
    {
      hide ParseDict, ParseMembers, Spans, MemberSpans;
      DictByMembers(s);
      var i := Whitespace(index + 1, s);
      assert Skip(s) != "" ==> Skip(s)[0] == text[i];
      if i < |text| && text[i] == '}' {
        FromRest(i, Skip(s), 1);
        EmptyDictRead(Space(s), Skip(s)[1..], i + 1, index, path, spans);
        return Some((Object([]), i + 1));
      }
      var members := ParseMembersAt(index + 1, path, s);
      DictRead(ParseMembers(s, {}), members, index, path, old(spans), spans);
      if members.None? {
        return None;
      }
      return Some((Object(members.value.0), members.value.1));
    }

    /** One turn of the members' loop: the member, and what its delimiter makes of the reading of them all. */
    method NextMember(start: nat, seen: set<string>, path: Path, ghost whole: Parsed<seq<Member>>,
                      ghost all: Parsed<seq<Member>>, ghost s: string, ghost open: nat, ghost before: map<Path, Span>,
                      ghost result: seq<Field>)
      returns (r: Option<(string, Json, nat)>, ghost rest: Parsed<seq<Member>>, ghost s': string)
      requires From(start, s) && IsLeft(all, s, seen)
      requires Underway(whole, all, open, path, before, result, spans, start)
      modifies this`spans
      ensures r.None? ==> whole.None?
      ensures r.Some? ==> start < r.value.2 < |text|
      ensures r.Some? && text[r.value.2] == '}' ==>
                whole.Some? && From(r.value.2 + 1, whole.value.1)
                && MembersRead(whole, Some((result + [Field(r.value.0, r.value.1)], r.value.2 + 1)), open, path, before,
                  spans)
      ensures r.Some? && text[r.value.2] == ',' ==>
                From(r.value.2 + 1, s') && IsLeft(rest, s', seen + {r.value.0})
                && Underway(whole, rest, open, path, before, result + [Field(r.value.0, r.value.1)], spans,
                  r.value.2 + 1)
      ensures r.Some? && text[r.value.2] != '}' && text[r.value.2] != ',' ==> whole.None?
      decreases |text| - start, 1
    {
      rest, s' := None, s;
      ghost var was := spans;
      hide ParseMember, ParseMembers, Spans, MemberSpans;
      r := ParseMemberAt(start, seen, path, s);
      if r.None? {
        NoNextMember(s, seen);
      } else {
        ghost var (m, u) := ParseMember(s, seen).value;
        MemberRest(s, seen);
        MembersByNext(s, seen, m, u);
        s' := u[1..];
        rest := ParseMembers(s', seen + {r.value.0});
        MemberTaken(whole, all, rest, m, u[0], s', open, path, before, result, was, start);
        assert u[0] == text[r.value.2];
        FromRest(r.value.2, u, 1);
      }
    }

    method ParseMembersAt(open: nat, path: Path, ghost s: string) returns (r: Option<(seq<Field>, nat)>)
      requires From(open, s)
      modifies this`spans
      ensures MembersRead(ParseMembers(s, {}), r, open, path, old(spans), spans)
      ensures r.Some? ==> From(r.value.1, ParseMembers(s, {}).value.1)
      decreases |text| - open, 4
    {
      ghost var whole := ParseMembers(s, {});
      r := ParseAllMembers(open, path, s, whole);
    }

    method ParseAllMembers(open: nat, path: Path, ghost s: string, ghost whole: Parsed<seq<Member>>)
      returns (r: Option<(seq<Field>, nat)>)
      requires From(open, s) && IsLeft(whole, s, {})
      modifies this`spans
      ensures MembersRead(whole, r, open, path, old(spans), spans) && (r.Some? ==> From(r.value.1, whole.value.1))
      decreases |text| - open, 3
    {
      hide ParseMembers, MemberSpans;
      var result: seq<Field> := [];
      var start, seen: set<string> := open, {};
      ghost var t, rest := s, whole;
      BeginsUnderway(whole, open, path, spans);
      while true
        invariant open <= start && From(start, t) && IsLeft(rest, t, seen)
        invariant Underway(whole, rest, open, path, old(spans), result, spans, start)
        decreases |text| - start
      {
        var member;
        member, rest, t := NextMember(start, seen, path, whole, rest, t, open, old(spans), result);
        if member.None? {
          return None;
        }
        var (key, value, next) := member.value;
        result := result + [Field(key, value)];
        if text[next] == '}' {
          return Some((result, next + 1));
        }
        if text[next] != ',' {
          return None;
        }
        seen := seen + {key};
        start := next + 1;
      }
    }

    method ParseElementAt(start: nat, path: Path, ghost s: string) returns (r: Option<(Json, nat)>)
      requires From(start, s)
      modifies this`spans
      ensures r.None? <==> ParseElement(s).None?
      ensures r.Some? ==> ElementRead(s, start, path, old(spans), spans, r.value)
      ensures r.Some? ==> From(r.value.1, ParseElement(s).value.1)
      decreases |text| - start, 3
    {
      var value := Parse(start, path, s);
      if value.None? {
        return None;
      }
      var next := Whitespace(value.value.1, ParseNode(s).value.1);
      if next == |text| {
        return None;
      }
      ElementRest(s);
      return Some((value.value.0, next));
    }

    method ParseArray(index: nat, path: Path, ghost s: string) returns (r: Option<(Json, nat)>)
      requires From(index + 1, s)
      modifies this`spans
      ensures ValueRead(ParseList("", s), r, index, path, old(spans), spans)
      ensures r.Some? ==> From(r.value.1, ParseList("", s).value.1)
      decreases |text| - index, 1
    {
      hide ParseList, ParseElements, Spans, ElementSpans;
      ListByElements(s);
      var i := Whitespace(index + 1, s);
      assert Skip(s) != "" ==> Skip(s)[0] == text[i];
      if i < |text| && text[i] == ']' {
        FromRest(i, Skip(s), 1);
        EmptyListRead(Space(s), Skip(s)[1..], i + 1, index, path, spans);
        return Some((Array([]), i + 1));
      }
      var elements := ParseElementsAt(index + 1, path, s);
      ListRead(ParseElements(s), elements, index, path, old(spans), spans);
      if elements.None? {
        return None;
      }
      return Some((Array(elements.value.0), elements.value.1));
    }

    method NextElement(start: nat, path: Path, ghost whole: Parsed<seq<Element>>, ghost all: Parsed<seq<Element>>,
                       ghost s: string, ghost open: nat, ghost before: map<Path, Span>, result: seq<Json>)
      returns (r: Option<(Json, nat)>, ghost rest: Parsed<seq<Element>>, ghost s': string)
      requires From(start, s) && all == ParseElements(s)
      requires ItemsUnderway(whole, all, open, path, before, result, spans, start)
      modifies this`spans
      ensures r.None? ==> whole.None?
      ensures r.Some? ==> start < r.value.1 < |text|
      ensures r.Some? && text[r.value.1] == ']' ==>
                whole.Some? && From(r.value.1 + 1, whole.value.1)
                && ElementsRead(whole, Some((result + [r.value.0], r.value.1 + 1)), open, path, before, spans)
      ensures r.Some? && text[r.value.1] == ',' ==>
                From(r.value.1 + 1, s') && rest == ParseElements(s')
                && ItemsUnderway(whole, rest, open, path, before, result + [r.value.0], spans, r.value.1 + 1)
      ensures r.Some? && text[r.value.1] != ']' && text[r.value.1] != ',' ==> whole.None?
      decreases |text| - start, 4
    {
      rest, s' := None, s;
      ghost var was := spans;
      hide ParseElement, ParseElements, Spans, ElementSpans;
      r := ParseElementAt(start, path + [At(|result|)], s);
      if r.None? {
        NoNextElement(s);
      } else {
        ghost var (x, u) := ParseElement(s).value;
        ElementRest(s);
        ElementsByNext(s, x, u);
        s' := u[1..];
        rest := ParseElements(s');
        ElementTaken(whole, all, rest, x, u[0], s', open, path, before, result, was, start);
        assert u[0] == text[r.value.1];
        FromRest(r.value.1, u, 1);
      }
    }

    method ParseElementsAt(open: nat, path: Path, ghost s: string) returns (r: Option<(seq<Json>, nat)>)
      requires From(open, s)
      modifies this`spans
      ensures ElementsRead(ParseElements(s), r, open, path, old(spans), spans)
      ensures r.Some? ==> From(r.value.1, ParseElements(s).value.1)
      decreases |text| - open, 6
    {
      ghost var whole := ParseElements(s);
      r := ParseAllElements(open, path, s, whole);
    }

    method ParseAllElements(open: nat, path: Path, ghost s: string, ghost whole: Parsed<seq<Element>>)
      returns (r: Option<(seq<Json>, nat)>)
      requires From(open, s) && whole == ParseElements(s)
      modifies this`spans
      ensures ElementsRead(whole, r, open, path, old(spans), spans) && (r.Some? ==> From(r.value.1, whole.value.1))
      decreases |text| - open, 5
    {
      hide ParseElements, ElementSpans;
      var result: seq<Json> := [];
      var start := open;
      ghost var t, rest := s, whole;
      BeginsItems(whole, open, path, spans);
      while true
        invariant open <= start && From(start, t) && rest == ParseElements(t)
        invariant ItemsUnderway(whole, rest, open, path, old(spans), result, spans, start)
        decreases |text| - start
      {
        var item;
        item, rest, t := NextElement(start, path, whole, rest, t, open, old(spans), result);
        if item.None? {
          return None;
        }
        var (value, next) := item.value;
        result := result + [value];
        if text[next] == ']' {
          return Some((result, next + 1));
        }
        if text[next] != ',' {
          return None;
        }
        start := next + 1;
      }
    }
  }
}
