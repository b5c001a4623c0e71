// Values of JSON documents, where their scalars stand in the text, and replacing some of them there.
module JsonEdits {
  import opened Wrappers
  import opened Sequences
  import opened JsonTokens
  import opened JsonText

  datatype Json = Atom(v: Scalar) | Object(fields: seq<Field>) | Array(items: seq<Json>)

  datatype Field = Field(name: string, value: Json)

  datatype Step = Key(name: string) | At(index: nat)

  type Path = seq<Step>

  function KeyName(tok: string): string { if IsKey(tok) then KeyOf(tok) else "" }

  function TokenMeaning(tok: string): Scalar { if IsToken(tok) then TokenValue(tok) else Literal(tok) }

  function ValueOf(n: Node): Json
    decreases n, 0
  {
    match n
    case Leaf(_, tok) => Atom(TokenMeaning(tok))
    case Dict(_, _, members) => Object(FieldsOf(members))
    case List(_, _, elements) => Array(ItemsOf(elements))
  }

  function FieldsOf(ms: seq<Member>): seq<Field>
    decreases ms, 0
  {
    if ms == [] then [] else [Field(KeyName(ms[0].key), ValueOf(ms[0].value))] + FieldsOf(ms[1..])
  }

  function ItemsOf(es: seq<Element>): seq<Json>
    decreases es, 0
  {
    if es == [] then [] else [ValueOf(es[0].value)] + ItemsOf(es[1..])
  }

  // ---- where the scalars are ----

  type Span = (nat, nat)

  function Length(n: Node): nat { |Print(n, "")| }

  function MemberLength(m: Member): nat { |PrintMember(m, "")| }

  /** Where a member's value begins, after its key and colon. */
  function ValueOffset(m: Member): nat { |m.before| + |m.key| + |m.colon| + 1 }

  /** The span of every scalar of `n`, which starts at offset `at` and is reached by `here`. */
  function Spans(n: Node, at: nat, here: Path): map<Path, Span>
    decreases n, 0
  {
    match n
    case Leaf(lead, tok) => map[here := (at + |lead|, at + |lead| + |tok|)]
    case Dict(lead, _, members) => MemberSpans(members, at + |lead| + 1, here)
    case List(lead, _, elements) => ElementSpans(elements, at + |lead| + 1, here, 0)
  }

  function MemberSpans(ms: seq<Member>, at: nat, here: Path): map<Path, Span>
    decreases ms, 0
  {
    if ms == [] then map[] else
      Spans(ms[0].value, at + ValueOffset(ms[0]), here + [Key(KeyName(ms[0].key))])
      + MemberSpans(ms[1..], at + MemberLength(ms[0]) + 1, here)
  }

  function ElementSpans(es: seq<Element>, at: nat, here: Path, index: nat): map<Path, Span>
    decreases es, 0
  {
    if es == [] then map[] else
      Spans(es[0].value, at, here + [At(index)])
      + ElementSpans(es[1..], at + Length(es[0].value) + |es[0].after| + 1, here, index + 1)
  }

  // ---- replacing tokens ----

  /** The document with the tokens at the given paths replaced and nothing else touched. */
  function Rewrite(n: Node, edits: map<Path, string>, here: Path): Node
    decreases n, 0
  {
    match n
    case Leaf(lead, tok) => Leaf(lead, if here in edits then edits[here] else tok)
    case Dict(lead, inner, members) => Dict(lead, inner, RewriteMembers(members, edits, here))
    case List(lead, inner, elements) => List(lead, inner, RewriteElements(elements, edits, here, 0))
  }

  function RewriteMembers(ms: seq<Member>, edits: map<Path, string>, here: Path): (r: seq<Member>)
    ensures |r| == |ms|
    decreases ms, 0
  {
    if ms == [] then [] else
      [ms[0].(value := Rewrite(ms[0].value, edits, here + [Key(KeyName(ms[0].key))]))]
      + RewriteMembers(ms[1..], edits, here)
  }

  function RewriteElements(es: seq<Element>, edits: map<Path, string>, here: Path, index: nat): (r: seq<Element>)
    ensures |r| == |es|
    decreases es, 0
  {
    if es == [] then [] else
      [es[0].(value := Rewrite(es[0].value, edits, here + [At(index)]))]
      + RewriteElements(es[1..], edits, here, index + 1)
  }

  /** The value with the scalars at the given paths replaced. */
  function Put(j: Json, values: map<Path, Scalar>, here: Path): Json
    decreases j, 0
  {
    match j
    case Atom(v) => Atom(if here in values then values[here] else v)
    case Object(fields) => Object(PutFields(fields, values, here))
    case Array(items) => Array(PutItems(items, values, here, 0))
  }

  function PutFields(fs: seq<Field>, values: map<Path, Scalar>, here: Path): seq<Field>
    decreases fs, 0
  {
    if fs == [] then [] else
      [Field(fs[0].name, Put(fs[0].value, values, here + [Key(fs[0].name)]))] + PutFields(fs[1..], values, here)
  }

  function PutItems(js: seq<Json>, values: map<Path, Scalar>, here: Path, index: nat): seq<Json>
    decreases js, 0
  {
    if js == [] then [] else
      [Put(js[0], values, here + [At(index)])] + PutItems(js[1..], values, here, index + 1)
  }

  predicate Tokens(edits: map<Path, string>) { forall p :: p in edits ==> IsToken(edits[p]) }

  function Meanings(edits: map<Path, string>): map<Path, Scalar> { map p | p in edits :: TokenMeaning(edits[p]) }

  // ---- replacing tokens replaces exactly those values, and stays JSON ----

  lemma {:induction false} RewriteValue(n: Node, edits: map<Path, string>, here: Path)
    ensures ValueOf(Rewrite(n, edits, here)) == Put(ValueOf(n), Meanings(edits), here)
    decreases n, 0
  {
    match n
    case Leaf(_, _) =>
    case Dict(_, _, members) => RewriteFields(members, edits, here);
    case List(_, _, elements) => RewriteItems(elements, edits, here, 0);
  }

  lemma {:induction false} RewriteFields(ms: seq<Member>, edits: map<Path, string>, here: Path)
    ensures FieldsOf(RewriteMembers(ms, edits, here)) == PutFields(FieldsOf(ms), Meanings(edits), here)
    decreases ms, 0
  {
    if ms != [] {
      RewriteValue(ms[0].value, edits, here + [Key(KeyName(ms[0].key))]);
      RewriteFields(ms[1..], edits, here);
      var rs := RewriteMembers(ms, edits, here);
      assert rs[1..] == RewriteMembers(ms[1..], edits, here);
      assert FieldsOf(ms)[1..] == FieldsOf(ms[1..]);
    }
  }

  lemma {:induction false} RewriteItems(es: seq<Element>, edits: map<Path, string>, here: Path, index: nat)
    ensures ItemsOf(RewriteElements(es, edits, here, index)) == PutItems(ItemsOf(es), Meanings(edits), here, index)
    decreases es, 0
  {
    if es != [] {
      RewriteValue(es[0].value, edits, here + [At(index)]);
      RewriteItems(es[1..], edits, here, index + 1);
      assert RewriteElements(es, edits, here, index)[1..] == RewriteElements(es[1..], edits, here, index + 1);
      assert ItemsOf(es)[1..] == ItemsOf(es[1..]);
    }
  }

  lemma {:induction false} RewriteWellFormed(n: Node, edits: map<Path, string>, here: Path)
    requires WellFormed(n) && Tokens(edits)
    ensures WellFormed(Rewrite(n, edits, here))
    decreases n, 0
  {
    match n
    case Leaf(_, _) =>
    case Dict(_, _, members) => RewriteMembersWellFormed(members, edits, here, {});
    case List(_, _, elements) => RewriteElementsWellFormed(elements, edits, here, 0);
  }

  lemma {:induction false} RewriteMembersWellFormed(ms: seq<Member>, edits: map<Path, string>, here: Path,
                                                    seen: set<string>)
    requires WellFormedMembers(ms, seen) && Tokens(edits)
    ensures WellFormedMembers(RewriteMembers(ms, edits, here), seen)
    decreases ms, 0
  {
    if ms != [] {
      RewriteWellFormed(ms[0].value, edits, here + [Key(KeyName(ms[0].key))]);
      RewriteMembersWellFormed(ms[1..], edits, here, seen + {KeyOf(ms[0].key)});
      assert RewriteMembers(ms, edits, here)[1..] == RewriteMembers(ms[1..], edits, here);
    }
  }

  lemma {:induction false} RewriteElementsWellFormed(es: seq<Element>, edits: map<Path, string>, here: Path, index: nat)
    requires WellFormedElements(es) && Tokens(edits)
    ensures WellFormedElements(RewriteElements(es, edits, here, index))
    decreases es, 0
  {
    if es != [] {
      RewriteWellFormed(es[0].value, edits, here + [At(index)]);
      RewriteElementsWellFormed(es[1..], edits, here, index + 1);
      assert RewriteElements(es, edits, here, index)[1..] == RewriteElements(es[1..], edits, here, index + 1);
    }
  }

  // ---- text in and after other text ----

  /** What follows a value in the text is simply appended to it. */
  lemma {:induction false} PrintAppends(n: Node, a: string, b: string)
    ensures Print(n, a + b) == Print(n, a) + b
    decreases n, 1
  {
    match n
    case Leaf(lead, tok) =>
      Assoc(tok, a, b);
      Assoc(lead, tok + a, b);
    case Dict(lead, inner, members) =>
      if members == [] {
        Assoc("}", a, b);
        Assoc(inner, "}" + a, b);
        Assoc("{", inner + ("}" + a), b);
        Assoc(lead, "{" + (inner + ("}" + a)), b);
      } else {
        PrintMembersAppends(members, a, b);
        Assoc("{", PrintMembers(members, a), b);
        Assoc(lead, "{" + PrintMembers(members, a), b);
      }
    case List(lead, inner, elements) =>
      if elements == [] {
        Assoc("]", a, b);
        Assoc(inner, "]" + a, b);
        Assoc("[", inner + ("]" + a), b);
        Assoc(lead, "[" + (inner + ("]" + a)), b);
      } else {
        PrintElementsAppends(elements, a, b);
        Assoc("[", PrintElements(elements, a), b);
        Assoc(lead, "[" + PrintElements(elements, a), b);
      }
  }

  lemma {:induction false} PrintMemberAppends(m: Member, a: string, b: string)
    ensures PrintMember(m, a + b) == PrintMember(m, a) + b
    decreases m, 1
  {
    Assoc(m.after, a, b);
    PrintAppends(m.value, m.after + a, b);
    var x := Print(m.value, m.after + a);
    Assoc(":", x, b);
    Assoc(m.colon, ":" + x, b);
    Assoc(m.key, m.colon + (":" + x), b);
    Assoc(m.before, m.key + (m.colon + (":" + x)), b);
  }

  lemma {:induction false} PrintMembersAppends(ms: seq<Member>, a: string, b: string)
    requires ms != []
    ensures PrintMembers(ms, a + b) == PrintMembers(ms, a) + b
    decreases ms, 1
  {
    if |ms| == 1 {
      Assoc("}", a, b);
      PrintMemberAppends(ms[0], "}" + a, b);
    } else {
      PrintMembersAppends(ms[1..], a, b);
      Assoc(",", PrintMembers(ms[1..], a), b);
      PrintMemberAppends(ms[0], "," + PrintMembers(ms[1..], a), b);
    }
  }

  lemma {:induction false} PrintElementsAppends(es: seq<Element>, a: string, b: string)
    requires es != []
    ensures PrintElements(es, a + b) == PrintElements(es, a) + b
    decreases es, 1
  {
    var x := if |es| == 1 then "]" + a else "," + PrintElements(es[1..], a);
    if |es| == 1 {
      Assoc("]", a, b);
    } else {
      PrintElementsAppends(es[1..], a, b);
      Assoc(",", PrintElements(es[1..], a), b);
    }
    Assoc(es[0].after, x, b);
    PrintAppends(es[0].value, es[0].after + x, b);
  }

  /** A member's text with what follows it: its own text and then the rest. */
  lemma MemberThen(m: Member, tail: string)
    ensures PrintMember(m, tail) == PrintMember(m, "") + tail
  {
    PrintMemberAppends(m, "", tail);
    assert "" + tail == tail;
  }

  lemma NodeThen(n: Node, tail: string)
    ensures Print(n, tail) == Print(n, "") + tail
  {
    PrintAppends(n, "", tail);
    assert "" + tail == tail;
  }

  // ---- paths below a node ----

  /** Every scalar of a node is reached by a path through the node. */
  lemma {:induction false} SpansBelow(n: Node, at: nat, here: Path, p: Path)
    requires p in Spans(n, at, here)
    ensures here <= p
    decreases n, 1
  {
    match n
    case Leaf(_, _) =>
    case Dict(lead, _, members) => MemberSpansBelow(members, at + |lead| + 1, here, p);
    case List(lead, _, elements) => ElementSpansBelow(elements, at + |lead| + 1, here, 0, p);
  }

  lemma {:induction false} MemberSpansBelow(ms: seq<Member>, at: nat, here: Path, p: Path)
    requires p in MemberSpans(ms, at, here)
    ensures here <= p && |p| > |here| && p[|here|].Key?
    ensures exists i :: 0 <= i < |ms| && p[|here|].name == KeyName(ms[i].key)
    decreases ms, 1
  {
    var step := here + [Key(KeyName(ms[0].key))];
    if p in Spans(ms[0].value, at + ValueOffset(ms[0]), step) {
      SpansBelow(ms[0].value, at + ValueOffset(ms[0]), step, p);
    } else {
      MemberSpansBelow(ms[1..], at + MemberLength(ms[0]) + 1, here, p);
      var i :| 0 <= i < |ms[1..]| && p[|here|].name == KeyName(ms[1..][i].key);
      assert ms[1..][i] == ms[i + 1];
    }
  }

  lemma {:induction false} ElementSpansBelow(es: seq<Element>, at: nat, here: Path, index: nat, p: Path)
    requires p in ElementSpans(es, at, here, index)
    ensures here <= p && |p| > |here| && p[|here|].At? && p[|here|].index >= index
    decreases es, 1
  {
    if p in Spans(es[0].value, at, here + [At(index)]) {
      SpansBelow(es[0].value, at, here + [At(index)], p);
    } else {
      ElementSpansBelow(es[1..], at + Length(es[0].value) + |es[0].after| + 1, here, index + 1, p);
    }
  }

  lemma StepPrefix(here: Path, x: Step, p: Path)
    ensures here + [x] <= p <==> here < p && p[|here|] == x
  {
    if here < p && p[|here|] == x {
      assert p[..|here| + 1] == p[..|here|] + [x];
    }
    assert here + [x] <= p ==> (here + [x])[|here|] == p[|here|];
  }

  /** Replacements elsewhere leave a node alone. */
  lemma {:induction false} RewriteElsewhere(n: Node, edits: map<Path, string>, here: Path)
    requires forall p :: p in edits ==> !(here <= p)
    ensures Rewrite(n, edits, here) == n
    decreases n, 1
  {
    match n
    case Leaf(_, _) =>
    case Dict(_, _, members) => RewriteMembersElsewhere(members, edits, here);
    case List(_, _, elements) => RewriteElementsElsewhere(elements, edits, here, 0);
  }

  lemma {:induction false} RewriteMembersElsewhere(ms: seq<Member>, edits: map<Path, string>, here: Path)
    requires forall p :: p in edits && here < p && p[|here|].Key? ==>
               forall i :: 0 <= i < |ms| ==> KeyName(ms[i].key) != p[|here|].name
    ensures RewriteMembers(ms, edits, here) == ms
    decreases ms, 1
  {
    if ms != [] {
      var step := here + [Key(KeyName(ms[0].key))];
      forall p | p in edits ensures !(step <= p) {
        StepPrefix(here, step[|here|], p);
      }
      RewriteElsewhere(ms[0].value, edits, step);
      RewriteMembersElsewhere(ms[1..], edits, here);
    }
  }

  lemma {:induction false} RewriteElementsElsewhere(es: seq<Element>, edits: map<Path, string>, here: Path, index: nat)
    requires forall p :: p in edits && here < p && p[|here|].At? ==> p[|here|].index < index
    ensures RewriteElements(es, edits, here, index) == es
    decreases es, 1
  {
    if es != [] {
      var step := here + [At(index)];
      forall p | p in edits ensures !(step <= p) {
        StepPrefix(here, step[|here|], p);
      }
      RewriteElsewhere(es[0].value, edits, step);
      RewriteElementsElsewhere(es[1..], edits, here, index + 1);
    }
  }

  lemma {:induction false} LaterKeysDiffer(ms: seq<Member>, seen: set<string>, i: nat)
    requires WellFormedMembers(ms, seen) && i < |ms|
    ensures KeyName(ms[i].key) !in seen
    decreases ms, 1
  {
    if i > 0 {
      LaterKeysDiffer(ms[1..], seen + {KeyOf(ms[0].key)}, i - 1);
    }
  }

  /** With distinct keys a path leads through one member only. */
  lemma FirstOrRest(ms: seq<Member>, seen: set<string>, at: nat, here: Path, p: Path)
    requires ms != [] && WellFormedMembers(ms, seen) && p in MemberSpans(ms, at, here)
    ensures var step := here + [Key(KeyName(ms[0].key))];
            if p in Spans(ms[0].value, at + ValueOffset(ms[0]), step)
            then step <= p && p !in MemberSpans(ms[1..], at + MemberLength(ms[0]) + 1, here)
            else !(step <= p) && p in MemberSpans(ms[1..], at + MemberLength(ms[0]) + 1, here)
  {
    var step := here + [Key(KeyName(ms[0].key))];
    assert step[|here|] == Key(KeyName(ms[0].key));
    if p in Spans(ms[0].value, at + ValueOffset(ms[0]), step) {
      SpansBelow(ms[0].value, at + ValueOffset(ms[0]), step, p);
    }
    if p in MemberSpans(ms[1..], at + MemberLength(ms[0]) + 1, here) {
      MemberSpansBelow(ms[1..], at + MemberLength(ms[0]) + 1, here, p);
      var i :| 0 <= i < |ms[1..]| && p[|here|].name == KeyName(ms[1..][i].key);
      LaterKeysDiffer(ms[1..], seen + {KeyOf(ms[0].key)}, i);
    }
  }

  lemma FirstOrRestElement(es: seq<Element>, at: nat, here: Path, index: nat, p: Path)
    requires es != [] && p in ElementSpans(es, at, here, index)
    ensures var step := here + [At(index)];
            var rest := ElementSpans(es[1..], at + Length(es[0].value) + |es[0].after| + 1, here, index + 1);
            if p in Spans(es[0].value, at, step) then step <= p && p !in rest else !(step <= p) && p in rest
  {
    var step := here + [At(index)];
    assert step[|here|] == At(index);
    if p in Spans(es[0].value, at, step) {
      SpansBelow(es[0].value, at, step, p);
    }
    if p in ElementSpans(es[1..], at + Length(es[0].value) + |es[0].after| + 1, here, index + 1) {
      ElementSpansBelow(es[1..], at + Length(es[0].value) + |es[0].after| + 1, here, index + 1, p);
    }
  }

  function MemberPrefix(m: Member): string { m.before + m.key + m.colon + ":" }

  lemma MemberFromPrefix(m: Member, tail: string)
    ensures PrintMember(m, tail) == MemberPrefix(m) + Print(m.value, m.after + tail)
    ensures |MemberPrefix(m)| == ValueOffset(m)
    ensures MemberLength(m) == ValueOffset(m) + Length(m.value) + |m.after|
  {
    var x := Print(m.value, m.after + tail);
    Assoc(m.before, m.key, m.colon + (":" + x));
    Assoc(m.before + m.key, m.colon, ":" + x);
    Assoc(m.before + m.key + m.colon, ":", x);
    var y := Print(m.value, m.after + "");
    assert m.after + "" == m.after;
    NodeThen(m.value, m.after);
  }

  lemma EachEditElsewhere(p: Path, t: string, step: Path)
    requires !(step <= p)
    ensures forall q :: q in map[p := t] ==> !(step <= q)
  {
  }

  // ---- one replacement is one splice ----

  /**
   * `s` reads `pre`, a token, `post`, and `s'` the same with `t` in place of the token; the token
   * starts at `i` and ends at `j`.
   */
  ghost predicate Differ(s: string, s': string, i: int, j: int, t: string, pre: string, tok: string, post: string) {
    && s == pre + (tok + post) && s' == pre + (t + post)
    && i == |pre| && j == |pre| + |tok| && tok != ""
  }

  lemma Around(a: string, s: string, s': string, i: int, j: int, t: string, pre: string, tok: string, post: string)
    requires Differ(s, s', i, j, t, pre, tok, post)
    ensures Differ(a + s, a + s', |a| + i, |a| + j, t, a + pre, tok, post)
  {
    Assoc(a, pre, tok + post);
    Assoc(a, pre, t + post);
  }

  lemma ElementThen(x: Element, rest: string)
    ensures Print(x.value, x.after + ("," + rest)) == (Print(x.value, "") + x.after + ",") + rest
  {
    NodeThen(x.value, x.after + ("," + rest));
    Assoc(Print(x.value, ""), x.after, "," + rest);
    Assoc(Print(x.value, "") + x.after, ",", rest);
  }

  lemma CommaThen(m: Member, rest: string)
    ensures PrintMember(m, "," + rest) == (PrintMember(m, "") + ",") + rest
  {
    MemberThen(m, "," + rest);
    Assoc(PrintMember(m, ""), ",", rest);
  }

  /** Replacing one token changes the text at that token's span and nowhere else. */
  lemma {:induction false} RewriteAt(n: Node, at: nat, here: Path, p: Path, t: string, tail: string)
    returns (pre: string, tok: string, post: string)
    requires WellFormed(n) && p in Spans(n, at, here)
    ensures var (i, j) := Spans(n, at, here)[p];
            Differ(Print(n, tail), Print(Rewrite(n, map[p := t], here), tail), i - at, j - at, t, pre, tok, post)
    ensures IsToken(tok)
    decreases n, 2
  {
    var (i, j) := Spans(n, at, here)[p];
    var k := at + |n.lead| + 1;
    match n
    case Leaf(lead, token) =>
      TokenStart(token);
      pre, tok, post := lead, token, tail;
    case Dict(lead, inner, members) =>
      pre, tok, post := RewriteMembersAt(members, {}, k, here, p, t, tail);
      var s, s' := PrintMembers(members, tail), PrintMembers(RewriteMembers(members, map[p := t], here), tail);
      Around("{", s, s', i - k, j - k, t, pre, tok, post);
      Around(lead, "{" + s, "{" + s', i - k + 1, j - k + 1, t, "{" + pre, tok, post);
      pre := lead + ("{" + pre);
    case List(lead, inner, elements) =>
      pre, tok, post := RewriteElementsAt(elements, k, here, 0, p, t, tail);
      var s, s' := PrintElements(elements, tail), PrintElements(RewriteElements(elements, map[p := t], here, 0), tail);
      Around("[", s, s', i - k, j - k, t, pre, tok, post);
      Around(lead, "[" + s, "[" + s', i - k + 1, j - k + 1, t, "[" + pre, tok, post);
      pre := lead + ("[" + pre);
  }

  lemma {:induction false} RewriteMembersAt(ms: seq<Member>, seen: set<string>, at: nat, here: Path, p: Path,
                                            t: string, tail: string)
    returns (pre: string, tok: string, post: string)
    requires WellFormedMembers(ms, seen) && p in MemberSpans(ms, at, here)
    ensures ms != []
    ensures var (i, j) := MemberSpans(ms, at, here)[p];
            Differ(PrintMembers(ms, tail), PrintMembers(RewriteMembers(ms, map[p := t], here), tail),
                   i - at, j - at, t, pre, tok, post)
    ensures IsToken(tok)
    decreases ms, 1
  {
    var m := ms[0];
    var step := here + [Key(KeyName(m.key))];
    var rs := RewriteMembers(ms, map[p := t], here);
    assert rs[1..] == RewriteMembers(ms[1..], map[p := t], here);
    FirstOrRest(ms, seen, at, here, p);
    if p in Spans(m.value, at + ValueOffset(m), step) {
      var x := if |ms| == 1 then "}" + tail else "," + PrintMembers(ms[1..], tail);
      var vat := at + ValueOffset(m);
      var (i, j) := Spans(m.value, vat, step)[p];
      pre, tok, post := RewriteAt(m.value, vat, step, p, t, m.after + x);
      RestUntouched(ms, seen, at, here, p, t);
      MemberFromPrefix(m, x);
      MemberFromPrefix(rs[0], x);
      Around(MemberPrefix(m), Print(m.value, m.after + x), Print(rs[0].value, m.after + x), i - vat, j - vat, t, pre,
             tok, post);
      pre := MemberPrefix(m) + pre;
    } else {
      var rat := at + MemberLength(m) + 1;
      var (i, j) := MemberSpans(ms[1..], rat, here)[p];
      EachEditElsewhere(p, t, step);
      RewriteElsewhere(m.value, map[p := t], step);
      pre, tok, post := RewriteMembersAt(ms[1..], seen + {KeyOf(m.key)}, rat, here, p, t, tail);
      var s, s' := PrintMembers(ms[1..], tail), PrintMembers(rs[1..], tail);
      CommaThen(m, s);
      CommaThen(m, s');
      var a := PrintMember(m, "") + ",";
      Around(a, s, s', i - rat, j - rat, t, pre, tok, post);
      pre := a + pre;
    }
  }

  lemma RestUntouched(ms: seq<Member>, seen: set<string>, at: nat, here: Path, p: Path, t: string)
    requires ms != [] && WellFormedMembers(ms, seen)
    requires here + [Key(KeyName(ms[0].key))] <= p
    ensures RewriteMembers(ms[1..], map[p := t], here) == ms[1..]
  {
    assert p[|here|] == (here + [Key(KeyName(ms[0].key))])[|here|];
    forall i | 0 <= i < |ms[1..]| ensures KeyName(ms[1..][i].key) != p[|here|].name {
      LaterKeysDiffer(ms[1..], seen + {KeyOf(ms[0].key)}, i);
    }
    RewriteMembersElsewhere(ms[1..], map[p := t], here);
  }

  lemma {:induction false} RewriteElementsAt(es: seq<Element>, at: nat, here: Path, index: nat, p: Path, t: string,
                                             tail: string)
    returns (pre: string, tok: string, post: string)
    requires WellFormedElements(es) && p in ElementSpans(es, at, here, index)
    ensures es != []
    ensures var (i, j) := ElementSpans(es, at, here, index)[p];
            Differ(PrintElements(es, tail), PrintElements(RewriteElements(es, map[p := t], here, index), tail),
                   i - at, j - at, t, pre, tok, post)
    ensures IsToken(tok)
    decreases es, 1
  {
    var x := es[0];
    var step := here + [At(index)];
    var rs := RewriteElements(es, map[p := t], here, index);
    assert rs[1..] == RewriteElements(es[1..], map[p := t], here, index + 1);
    FirstOrRestElement(es, at, here, index, p);
    if p in Spans(x.value, at, step) {
      var after := x.after + (if |es| == 1 then "]" + tail else "," + PrintElements(es[1..], tail));
      pre, tok, post := RewriteAt(x.value, at, step, p, t, after);
      StepPrefix(here, At(index), p);
      RewriteElementsElsewhere(es[1..], map[p := t], here, index + 1);
    } else {
      var rat := at + Length(x.value) + |x.after| + 1;
      var (i, j) := ElementSpans(es[1..], rat, here, index + 1)[p];
      EachEditElsewhere(p, t, step);
      RewriteElsewhere(x.value, map[p := t], step);
      pre, tok, post := RewriteElementsAt(es[1..], rat, here, index + 1, p, t, tail);
      var s, s' := PrintElements(es[1..], tail), PrintElements(rs[1..], tail);
      ElementThen(x, s);
      ElementThen(x, s');
      var a := Print(x.value, "") + x.after + ",";
      Around(a, s, s', i - rat, j - rat, t, pre, tok, post);
      pre := a + pre;
    }
  }

  function Splice(s: string, i: nat, j: nat, t: string): string
    requires i <= j <= |s|
  {
    s[..i] + (t + s[j..])
  }

  /** Where a span lies within its node's text. */
  lemma SpanWithin(n: Node, at: nat, here: Path, p: Path)
    requires WellFormed(n) && p in Spans(n, at, here)
    ensures at <= Spans(n, at, here)[p].0 < Spans(n, at, here)[p].1 <= at + Length(n)
  {
    var (i, j) := Spans(n, at, here)[p];
    var pre, tok, post := RewriteAt(n, at, here, p, "", "");
    SpliceOfDiffer(Print(n, ""), Print(Rewrite(n, map[p := ""], here), ""), i - at, j - at, "", pre, tok, post);
  }

  /** Spans lie within the text of their node, and replacing a token is splicing at its span. */
  lemma RewriteIsSplice(n: Node, at: nat, here: Path, p: Path, t: string, tail: string)
    requires WellFormed(n) && p in Spans(n, at, here)
    ensures var (i, j) := Spans(n, at, here)[p];
            at <= i < j <= at + Length(n) <= at + |Print(n, tail)|
            && Print(Rewrite(n, map[p := t], here), tail) == Splice(Print(n, tail), i - at, j - at, t)
  {
    TokenIsSpliced(n, at, here, p, t, tail);
    SpanWithin(n, at, here, p);
    PrintIsLonger(n, tail);
  }

  lemma TokenIsSpliced(n: Node, at: nat, here: Path, p: Path, t: string, tail: string)
    requires WellFormed(n) && p in Spans(n, at, here)
    ensures var (i, j) := Spans(n, at, here)[p];
            at <= i < j <= at + |Print(n, tail)|
            && Print(Rewrite(n, map[p := t], here), tail) == Splice(Print(n, tail), i - at, j - at, t)
  {
    hide Spans, Rewrite, Print, WellFormed;
    var (i, j) := Spans(n, at, here)[p];
    var pre, tok, post := RewriteAt(n, at, here, p, t, tail);
    SpliceOfDiffer(Print(n, tail), Print(Rewrite(n, map[p := t], here), tail), i - at, j - at, t, pre, tok, post);
  }

  lemma PrintIsLonger(n: Node, tail: string)
    ensures Length(n) <= |Print(n, tail)|
  {
    NodeThen(n, tail);
  }

  lemma SpliceOfDiffer(s: string, s': string, i: int, j: int, t: string, pre: string, tok: string, post: string)
    requires Differ(s, s', i, j, t, pre, tok, post)
    ensures 0 <= i < j <= |s| && s[i..j] == tok && s' == Splice(s, i, j, t)
  {
    assert s[..i] == pre && s[j..] == post;
  }

  /** The token that stands for a scalar. */
  function TokenAt(n: Node, p: Path): string {
    if p in Spans(n, 0, []) && Spans(n, 0, [])[p].0 <= Spans(n, 0, [])[p].1 <= Length(n) then
      Print(n, "")[Spans(n, 0, [])[p].0..Spans(n, 0, [])[p].1]
    else ""
  }

  /** Replacing a scalar's token with itself changes nothing. */
  lemma TokenStands(n: Node, p: Path)
    requires WellFormed(n) && p in Spans(n, 0, [])
    ensures IsToken(TokenAt(n, p)) && Rewrite(n, map[p := TokenAt(n, p)], []) == n
  {
    var s, t := Print(n, ""), TokenAt(n, p);
    RewriteIsSplice(n, 0, [], p, t, "");
    var (i, j) := Spans(n, 0, [])[p];
    var pre, tok, post := RewriteAt(n, 0, [], p, t, "");
    SpliceOfDiffer(s, Print(Rewrite(n, map[p := t], []), ""), i, j, t, pre, tok, post);
    RewriteWellFormed(n, map[p := t], []);
    DocumentsAreTheirText(s, n, "");
    DocumentsAreTheirText(s, Rewrite(n, map[p := t], []), "");
  }

  // ---- several replacements ----

  lemma {:induction false} RewriteTwice(n: Node, a: map<Path, string>, b: map<Path, string>, here: Path)
    ensures Rewrite(Rewrite(n, a, here), b, here) == Rewrite(n, a + b, here)
    decreases n, 0
  {
    match n
    case Leaf(_, _) =>
    case Dict(_, _, members) => RewriteMembersTwice(members, a, b, here);
    case List(_, _, elements) => RewriteElementsTwice(elements, a, b, here, 0);
  }

  lemma {:induction false} RewriteMembersTwice(ms: seq<Member>, a: map<Path, string>, b: map<Path, string>, here: Path)
    ensures RewriteMembers(RewriteMembers(ms, a, here), b, here) == RewriteMembers(ms, a + b, here)
    decreases ms, 0
  {
    if ms != [] {
      RewriteTwice(ms[0].value, a, b, here + [Key(KeyName(ms[0].key))]);
      RewriteMembersTwice(ms[1..], a, b, here);
      assert RewriteMembers(ms, a, here)[1..] == RewriteMembers(ms[1..], a, here);
    }
  }

  lemma {:induction false} RewriteElementsTwice(es: seq<Element>, a: map<Path, string>, b: map<Path, string>,
                                                here: Path, index: nat)
    ensures RewriteElements(RewriteElements(es, a, here, index), b, here, index)
        == RewriteElements(es, a + b, here, index)
    decreases es, 0
  {
    if es != [] {
      RewriteTwice(es[0].value, a, b, here + [At(index)]);
      RewriteElementsTwice(es[1..], a, b, here, index + 1);
      assert RewriteElements(es, a, here, index)[1..] == RewriteElements(es[1..], a, here, index + 1);
    }
  }

  lemma {:induction false} RewriteNothing(n: Node, here: Path)
    ensures Rewrite(n, map[], here) == n
  {
    RewriteElsewhere(n, map[], here);
  }

  predicate Disjoint(a: Span, b: Span) { a.1 <= b.0 || b.1 <= a.0 }

  lemma MemberSpanStarts(ms: seq<Member>, seen: set<string>, at: nat, here: Path, p: Path)
    requires WellFormedMembers(ms, seen) && p in MemberSpans(ms, at, here)
    ensures at <= MemberSpans(ms, at, here)[p].0 < MemberSpans(ms, at, here)[p].1
  {
    var _, _, _ := RewriteMembersAt(ms, seen, at, here, p, "", "");
  }

  lemma ElementSpanStarts(es: seq<Element>, at: nat, here: Path, index: nat, p: Path)
    requires WellFormedElements(es) && p in ElementSpans(es, at, here, index)
    ensures at <= ElementSpans(es, at, here, index)[p].0 < ElementSpans(es, at, here, index)[p].1
  {
    var _, _, _ := RewriteElementsAt(es, at, here, index, p, "", "");
  }

  /** Spans of the first member end before those of the others start. */
  lemma FirstComesFirst(ms: seq<Member>, seen: set<string>, at: nat, here: Path, p: Path, q: Path)
    requires ms != [] && WellFormedMembers(ms, seen) && q in MemberSpans(ms[1..], at + MemberLength(ms[0]) + 1, here)
    requires p in Spans(ms[0].value, at + ValueOffset(ms[0]), here + [Key(KeyName(ms[0].key))])
    ensures var first := Spans(ms[0].value, at + ValueOffset(ms[0]), here + [Key(KeyName(ms[0].key))])[p];
            var later := MemberSpans(ms[1..], at + MemberLength(ms[0]) + 1, here)[q];
            first.0 < first.1 <= later.0 < later.1
  {
    MemberFromPrefix(ms[0], "");
    SpanWithin(ms[0].value, at + ValueOffset(ms[0]), here + [Key(KeyName(ms[0].key))], p);
    MemberSpanStarts(ms[1..], seen + {KeyOf(ms[0].key)}, at + MemberLength(ms[0]) + 1, here, q);
  }

  lemma FirstElementComesFirst(es: seq<Element>, at: nat, here: Path, index: nat, p: Path, q: Path)
    requires es != [] && WellFormedElements(es) && p in Spans(es[0].value, at, here + [At(index)])
    requires q in ElementSpans(es[1..], at + Length(es[0].value) + |es[0].after| + 1, here, index + 1)
    ensures var first := Spans(es[0].value, at, here + [At(index)])[p];
            var later := ElementSpans(es[1..], at + Length(es[0].value) + |es[0].after| + 1, here, index + 1)[q];
            first.0 < first.1 <= later.0 < later.1
  {
    SpanWithin(es[0].value, at, here + [At(index)], p);
    ElementSpanStarts(es[1..], at + Length(es[0].value) + |es[0].after| + 1, here, index + 1, q);
  }

  /** Spans of different scalars do not overlap. */
  lemma {:induction false} SpansDisjoint(n: Node, at: nat, here: Path, p: Path, q: Path)
    requires WellFormed(n) && p != q && p in Spans(n, at, here) && q in Spans(n, at, here)
    ensures Disjoint(Spans(n, at, here)[p], Spans(n, at, here)[q])
    decreases n, 2
  {
    match n
    case Leaf(_, _) =>
    case Dict(lead, _, members) => MemberSpansDisjoint(members, {}, at + |lead| + 1, here, p, q);
    case List(lead, _, elements) => ElementSpansDisjoint(elements, at + |lead| + 1, here, 0, p, q);
  }

  lemma {:induction false} MemberSpansDisjoint(ms: seq<Member>, seen: set<string>, at: nat, here: Path, p: Path,
                                               q: Path)
    requires WellFormedMembers(ms, seen) && p != q && p in MemberSpans(ms, at, here) && q in MemberSpans(ms, at, here)
    ensures Disjoint(MemberSpans(ms, at, here)[p], MemberSpans(ms, at, here)[q])
    decreases ms, 1
  {
    var m := ms[0];
    var step := here + [Key(KeyName(m.key))];
    var vat, rat, more := at + ValueOffset(m), at + MemberLength(m) + 1, seen + {KeyOf(m.key)};
    FirstOrRest(ms, seen, at, here, p);
    FirstOrRest(ms, seen, at, here, q);
    var inP, inQ := p in Spans(m.value, vat, step), q in Spans(m.value, vat, step);
    if inP && inQ {
      SpansDisjoint(m.value, vat, step, p, q);
    } else if inP {
      FirstComesFirst(ms, seen, at, here, p, q);
    } else if inQ {
      FirstComesFirst(ms, seen, at, here, q, p);
    } else {
      MemberSpansDisjoint(ms[1..], more, rat, here, p, q);
    }
  }

  lemma {:induction false} ElementSpansDisjoint(es: seq<Element>, at: nat, here: Path, index: nat, p: Path, q: Path)
    requires WellFormedElements(es) && p != q
    requires p in ElementSpans(es, at, here, index) && q in ElementSpans(es, at, here, index)
    ensures Disjoint(ElementSpans(es, at, here, index)[p], ElementSpans(es, at, here, index)[q])
    decreases es, 1
  {
    var n := es[0].value;
    var step := here + [At(index)];
    var rat := at + Length(n) + |es[0].after| + 1;
    FirstOrRestElement(es, at, here, index, p);
    FirstOrRestElement(es, at, here, index, q);
    var inP, inQ := p in Spans(n, at, step), q in Spans(n, at, step);
    if inP && inQ {
      SpansDisjoint(n, at, step, p, q);
    } else if inP {
      FirstElementComesFirst(es, at, here, index, p, q);
    } else if inQ {
      FirstElementComesFirst(es, at, here, index, q, p);
    } else {
      ElementSpansDisjoint(es[1..], rat, here, index + 1, p, q);
    }
  }

  /** A span lying before a replaced token stays where it is. */
  lemma {:induction false} SpanStays(n: Node, at: nat, here: Path, p: Path, q: Path, t: string)
    requires WellFormed(n) && p in Spans(n, at, here) && q in Spans(n, at, here)
    requires Spans(n, at, here)[q].1 <= Spans(n, at, here)[p].0
    ensures var n' := Rewrite(n, map[p := t], here);
            q in Spans(n', at, here) && Spans(n', at, here)[q] == Spans(n, at, here)[q]
    decreases n, 2
  {
    match n
    case Leaf(_, _) => SpanWithin(n, at, here, q);
    case Dict(lead, inner, members) =>
      MemberSpanStays(members, {}, at + |lead| + 1, here, p, q, t);
      SpansOfDict(lead, inner, members, at, here);
      SpansOfDict(lead, inner, RewriteMembers(members, map[p := t], here), at, here);
    case List(lead, _, elements) => ElementSpanStays(elements, at + |lead| + 1, here, 0, p, q, t);
  }

  lemma SpansOfDict(lead: string, inner: string, ms: seq<Member>, at: nat, here: Path)
    ensures Spans(Dict(lead, inner, ms), at, here) == MemberSpans(ms, at + |lead| + 1, here)
  {
  }

  lemma {:induction false} MemberSpanStays(ms: seq<Member>, seen: set<string>, at: nat, here: Path, p: Path, q: Path,
                                           t: string)
    requires WellFormedMembers(ms, seen) && p in MemberSpans(ms, at, here) && q in MemberSpans(ms, at, here)
    requires MemberSpans(ms, at, here)[q].1 <= MemberSpans(ms, at, here)[p].0
    ensures var ms' := RewriteMembers(ms, map[p := t], here);
            q in MemberSpans(ms', at, here) && MemberSpans(ms', at, here)[q] == MemberSpans(ms, at, here)[q]
    decreases ms, 1
  {
    var m := ms[0];
    var step := here + [Key(KeyName(m.key))];
    var vat, rat, more := at + ValueOffset(m), at + MemberLength(m) + 1, seen + {KeyOf(m.key)};
    FirstOrRest(ms, seen, at, here, p);
    FirstOrRest(ms, seen, at, here, q);
    if p in Spans(m.value, vat, step) {
      BeforeFirst(ms, seen, at, here, p, q);
      SpanStays(m.value, vat, step, p, q, t);
      InFirst(ms, seen, at, here, q, map[p := t]);
    } else {
      EachEditElsewhere(p, t, step);
      RewriteElsewhere(m.value, map[p := t], step);
      if q in Spans(m.value, vat, step) {
        InFirst(ms, seen, at, here, q, map[p := t]);
      } else {
        MemberSpanStays(ms[1..], more, rat, here, p, q, t);
        InRest(ms, at, here, q, map[p := t]);
      }
    }
  }

  /** What ends before a span of the first member starts is in the first member too. */
  lemma BeforeFirst(ms: seq<Member>, seen: set<string>, at: nat, here: Path, p: Path, q: Path)
    requires WellFormedMembers(ms, seen) && p in MemberSpans(ms, at, here) && q in MemberSpans(ms, at, here)
    requires MemberSpans(ms, at, here)[q].1 <= MemberSpans(ms, at, here)[p].0
    requires p in Spans(ms[0].value, at + ValueOffset(ms[0]), here + [Key(KeyName(ms[0].key))])
    ensures q in Spans(ms[0].value, at + ValueOffset(ms[0]), here + [Key(KeyName(ms[0].key))])
  {
    FirstOrRest(ms, seen, at, here, p);
    FirstOrRest(ms, seen, at, here, q);
    if q in MemberSpans(ms[1..], at + MemberLength(ms[0]) + 1, here) {
      FirstComesFirst(ms, seen, at, here, p, q);
    }
  }

  /** A span of the first member, rewritten, is found there. */
  lemma InFirst(ms: seq<Member>, seen: set<string>, at: nat, here: Path, q: Path, edits: map<Path, string>)
    requires ms != [] && WellFormedMembers(ms, seen) && here + [Key(KeyName(ms[0].key))] <= q
    requires var step := here + [Key(KeyName(ms[0].key))]; var vat := at + ValueOffset(ms[0]);
             q in Spans(ms[0].value, vat, step) && q in Spans(Rewrite(ms[0].value, edits, step), vat, step)
    ensures var step := here + [Key(KeyName(ms[0].key))]; var vat := at + ValueOffset(ms[0]);
            var ms' := RewriteMembers(ms, edits, here);
            && q in MemberSpans(ms', at, here) && q in MemberSpans(ms, at, here)
            && MemberSpans(ms', at, here)[q] == Spans(Rewrite(ms[0].value, edits, step), vat, step)[q]
            && MemberSpans(ms, at, here)[q] == Spans(ms[0].value, vat, step)[q]
  {
    hide Spans, MemberSpans, Rewrite, WellFormed, WellFormedMembers;
    var ms' := RewriteMembers(ms, edits, here);
    assert ms'[1..] == RewriteMembers(ms[1..], edits, here);
    RestHidesNothing(ms, seen, at + MemberLength(ms'[0]) + 1, here, q, edits);
    RestHasNone(ms, seen, at + MemberLength(ms[0]) + 1, here, q);
    OnlyInFirst(ms', at, here, q);
    OnlyInFirst(ms, at, here, q);
  }

  lemma OnlyInFirst(ms: seq<Member>, at: nat, here: Path, q: Path)
    requires ms != [] && q !in MemberSpans(ms[1..], at + MemberLength(ms[0]) + 1, here)
    requires q in Spans(ms[0].value, at + ValueOffset(ms[0]), here + [Key(KeyName(ms[0].key))])
    ensures q in MemberSpans(ms, at, here)
    ensures MemberSpans(ms, at, here)[q]
         == Spans(ms[0].value, at + ValueOffset(ms[0]), here + [Key(KeyName(ms[0].key))])[q]
  {
  }

  lemma RestHasNone(ms: seq<Member>, seen: set<string>, rat: nat, here: Path, q: Path)
    requires ms != [] && WellFormedMembers(ms, seen) && here + [Key(KeyName(ms[0].key))] <= q
    ensures q !in MemberSpans(ms[1..], rat, here)
  {
    StepPrefix(here, Key(KeyName(ms[0].key)), q);
    if q in MemberSpans(ms[1..], rat, here) {
      MemberSpansBelow(ms[1..], rat, here, q);
      var i :| 0 <= i < |ms[1..]| && q[|here|].name == KeyName(ms[1..][i].key);
      LaterKeysDiffer(ms[1..], seen + {KeyOf(ms[0].key)}, i);
    }
  }

  /** A span of a later member is where it is among the later members, when the first is left alone. */
  lemma InRest(ms: seq<Member>, at: nat, here: Path, q: Path, edits: map<Path, string>)
    requires ms != [] && Rewrite(ms[0].value, edits, here + [Key(KeyName(ms[0].key))]) == ms[0].value
    requires q in MemberSpans(ms[1..], at + MemberLength(ms[0]) + 1, here)
    requires q in MemberSpans(RewriteMembers(ms[1..], edits, here), at + MemberLength(ms[0]) + 1, here)
    ensures var rat := at + MemberLength(ms[0]) + 1; var ms' := RewriteMembers(ms, edits, here);
            && q in MemberSpans(ms', at, here)
            && MemberSpans(ms', at, here)[q] == MemberSpans(RewriteMembers(ms[1..], edits, here), rat, here)[q]
            && q in MemberSpans(ms, at, here) && MemberSpans(ms, at, here)[q] == MemberSpans(ms[1..], rat, here)[q]
  {
    hide Spans, Rewrite, WellFormed;
    var ms' := RewriteMembers(ms, edits, here);
    assert ms'[1..] == RewriteMembers(ms[1..], edits, here) && ms'[0] == ms[0];
  }

  /** A path into the first member leads nowhere in the others, rewritten or not. */
  lemma RestHidesNothing(ms: seq<Member>, seen: set<string>, rat: nat, here: Path, q: Path, edits: map<Path, string>)
    requires ms != [] && WellFormedMembers(ms, seen) && here + [Key(KeyName(ms[0].key))] <= q
    ensures q !in MemberSpans(RewriteMembers(ms[1..], edits, here), rat, here)
  {
    var rs := RewriteMembers(ms[1..], edits, here);
    StepPrefix(here, Key(KeyName(ms[0].key)), q);
    if q in MemberSpans(rs, rat, here) {
      MemberSpansBelow(rs, rat, here, q);
      var i :| 0 <= i < |rs| && q[|here|].name == KeyName(rs[i].key);
      SameKeys(ms[1..], edits, here, i);
      LaterKeysDiffer(ms[1..], seen + {KeyOf(ms[0].key)}, i);
    }
  }

  lemma {:induction false} SameKeys(ms: seq<Member>, edits: map<Path, string>, here: Path, i: nat)
    requires i < |ms|
    ensures RewriteMembers(ms, edits, here)[i].key == ms[i].key
    decreases ms, 0
  {
    if i > 0 {
      SameKeys(ms[1..], edits, here, i - 1);
    }
  }

  lemma {:induction false} ElementSpanStays(es: seq<Element>, at: nat, here: Path, index: nat, p: Path, q: Path,
                                            t: string)
    requires WellFormedElements(es) && p in ElementSpans(es, at, here, index) && q in ElementSpans(es, at, here, index)
    requires ElementSpans(es, at, here, index)[q].1 <= ElementSpans(es, at, here, index)[p].0
    ensures var es' := RewriteElements(es, map[p := t], here, index);
            q in ElementSpans(es', at, here, index)
            && ElementSpans(es', at, here, index)[q] == ElementSpans(es, at, here, index)[q]
    decreases es, 1
  {
    var n := es[0].value;
    var step := here + [At(index)];
    var rat := at + Length(n) + |es[0].after| + 1;
    FirstOrRestElement(es, at, here, index, p);
    FirstOrRestElement(es, at, here, index, q);
    if p in Spans(n, at, step) {
      BeforeFirstElement(es, at, here, index, p, q);
      SpanStays(n, at, step, p, q, t);
      InFirstElement(es, at, here, index, q, map[p := t]);
    } else {
      EachEditElsewhere(p, t, step);
      RewriteElsewhere(n, map[p := t], step);
      if q in Spans(n, at, step) {
        InFirstElement(es, at, here, index, q, map[p := t]);
      } else {
        ElementSpanStays(es[1..], rat, here, index + 1, p, q, t);
        InLaterElement(es, at, here, index, q, map[p := t]);
      }
    }
  }

  lemma InFirstElement(es: seq<Element>, at: nat, here: Path, index: nat, q: Path, edits: map<Path, string>)
    requires es != [] && here + [At(index)] <= q
    requires q in Spans(es[0].value, at, here + [At(index)])
    requires q in Spans(Rewrite(es[0].value, edits, here + [At(index)]), at, here + [At(index)])
    ensures var es' := RewriteElements(es, edits, here, index);
            && q in ElementSpans(es', at, here, index) && q in ElementSpans(es, at, here, index)
            && ElementSpans(es', at, here, index)[q]
               == Spans(Rewrite(es[0].value, edits, here + [At(index)]), at, here + [At(index)])[q]
            && ElementSpans(es, at, here, index)[q] == Spans(es[0].value, at, here + [At(index)])[q]
  {
    var es' := RewriteElements(es, edits, here, index);
    LaterElementsHideNothing(es'[1..], at + Length(es'[0].value) + |es[0].after| + 1, here, index, q);
    LaterElementsHideNothing(es[1..], at + Length(es[0].value) + |es[0].after| + 1, here, index, q);
  }

  lemma InLaterElement(es: seq<Element>, at: nat, here: Path, index: nat, q: Path, edits: map<Path, string>)
    requires es != [] && Rewrite(es[0].value, edits, here + [At(index)]) == es[0].value
    requires q in ElementSpans(es[1..], at + Length(es[0].value) + |es[0].after| + 1, here, index + 1)
    requires q in ElementSpans(RewriteElements(es[1..], edits, here, index + 1),
                               at + Length(es[0].value) + |es[0].after| + 1, here, index + 1)
    ensures var rat := at + Length(es[0].value) + |es[0].after| + 1; var es' := RewriteElements(es, edits, here, index);
            && q in ElementSpans(es', at, here, index) && q in ElementSpans(es, at, here, index)
            && ElementSpans(es', at, here, index)[q]
               == ElementSpans(RewriteElements(es[1..], edits, here, index + 1), rat, here, index + 1)[q]
            && ElementSpans(es, at, here, index)[q] == ElementSpans(es[1..], rat, here, index + 1)[q]
  {
    var es' := RewriteElements(es, edits, here, index);
    assert es'[1..] == RewriteElements(es[1..], edits, here, index + 1) && es'[0] == es[0];
  }

  lemma BeforeFirstElement(es: seq<Element>, at: nat, here: Path, index: nat, p: Path, q: Path)
    requires WellFormedElements(es) && p in ElementSpans(es, at, here, index) && q in ElementSpans(es, at, here, index)
    requires ElementSpans(es, at, here, index)[q].1 <= ElementSpans(es, at, here, index)[p].0
    requires p in Spans(es[0].value, at, here + [At(index)])
    ensures q in Spans(es[0].value, at, here + [At(index)])
  {
    FirstOrRestElement(es, at, here, index, p);
    FirstOrRestElement(es, at, here, index, q);
    if q in ElementSpans(es[1..], at + Length(es[0].value) + |es[0].after| + 1, here, index + 1) {
      FirstElementComesFirst(es, at, here, index, p, q);
    }
  }

  lemma LaterElementsHideNothing(es: seq<Element>, at: nat, here: Path, index: nat, q: Path)
    requires here + [At(index)] <= q
    ensures q !in ElementSpans(es, at, here, index + 1)
  {
    StepPrefix(here, At(index), q);
    if q in ElementSpans(es, at, here, index + 1) {
      ElementSpansBelow(es, at, here, index + 1, q);
    }
  }

  /** One prepared edit: the scalar at `path`, whose token stands at `start..end`, becomes `tok`. */
  datatype Edit = Edit(path: Path, start: nat, end: nat, tok: string)

  ghost predicate Fits(n: Node, edits: seq<Edit>) {
    forall i :: 0 <= i < |edits| ==>
      edits[i].path in Spans(n, 0, []) && Spans(n, 0, [])[edits[i].path] == (edits[i].start, edits[i].end)
  }

  /** From the back of the text to its front, each scalar at most once. */
  ghost predicate Descending(edits: seq<Edit>) {
    forall i, j :: 0 <= i < j < |edits| ==> edits[i].start > edits[j].start && edits[i].path != edits[j].path
  }

  function SpliceAll(s: string, edits: seq<Edit>): Option<string>
    decreases |edits|
  {
    if edits == [] then Some(s)
    else if edits[0].start <= edits[0].end <= |s| then
      SpliceAll(Splice(s, edits[0].start, edits[0].end, edits[0].tok), edits[1..])
    else None
  }

  function Assigned(edits: seq<Edit>): map<Path, string> {
    if edits == [] then map[] else map[edits[0].path := edits[0].tok] + Assigned(edits[1..])
  }

  /** The edits before the last one in the text still fit once that is made. */
  lemma RestStaysFit(n: Node, edits: seq<Edit>)
    requires edits != [] && WellFormed(n) && Fits(n, edits) && Descending(edits)
    ensures Fits(Rewrite(n, map[edits[0].path := edits[0].tok], []), edits[1..])
  {
    var e, rest := edits[0], edits[1..];
    var n' := Rewrite(n, map[e.path := e.tok], []);
    forall i | 0 <= i < |rest|
      ensures rest[i].path in Spans(n', 0, []) && Spans(n', 0, [])[rest[i].path] == (rest[i].start, rest[i].end)
    {
      var q := edits[i + 1];
      assert rest[i] == q && e.start > q.start;
      SpansDisjoint(n, 0, [], e.path, q.path);
      SpanWithin(n, 0, [], e.path);
      SpanStays(n, 0, [], e.path, q.path, e.tok);
    }
  }

  /** The first splice, the last in the text, replaces its token and leaves the others prepared. */
  lemma FirstSplice(n: Node, trail: string, edits: seq<Edit>)
    requires edits != [] && WellFormed(n) && Fits(n, edits) && Descending(edits)
    requires forall i :: 0 <= i < |edits| ==> IsToken(edits[i].tok)
    ensures var e := edits[0]; var n' := Rewrite(n, map[e.path := e.tok], []);
            && e.start <= e.end <= |Print(n, trail)|
            && Splice(Print(n, trail), e.start, e.end, e.tok) == Print(n', trail)
            && WellFormed(n') && Fits(n', edits[1..]) && Descending(edits[1..])
  {
    hide Rewrite, Print, Spans, WellFormed;
    var e := edits[0];
    RewriteIsSplice(n, 0, [], e.path, e.tok, trail);
    RewriteWellFormed(n, map[e.path := e.tok], []);
    RestStaysFit(n, edits);
  }

  /** Splicing from the back, at offsets all taken from the original text, is rewriting the document. */
  lemma {:induction false} SpliceAllIsRewrite(n: Node, trail: string, edits: seq<Edit>)
    requires WellFormed(n) && Fits(n, edits) && Descending(edits)
    requires forall i :: 0 <= i < |edits| ==> IsToken(edits[i].tok)
    ensures SpliceAll(Print(n, trail), edits) == Some(Print(Rewrite(n, Assigned(edits), []), trail))
    decreases |edits|
  {
    if edits == [] {
      RewriteNothing(n, []);
    } else {
      var one := map[edits[0].path := edits[0].tok];
      FirstSplice(n, trail, edits);
      SpliceAllIsRewrite(Rewrite(n, one, []), trail, edits[1..]);
      RewriteTwice(n, one, Assigned(edits[1..]), []);
    }
  }
}
