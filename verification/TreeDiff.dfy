// Describing how two JSON values differ, depth first over an explicit stack.
module TreeDiff {
  import opened Wrappers
  import opened Sequences
  import opened Lexicographic
  import Decimal

  datatype Value =
    | Null | Boolean(b: bool) | Whole(n: int) | Floating(x: real) | Text(s: string)
    | List(items: seq<Value>) | Mapping(fields: map<string, Value>)

  datatype Kind = NoneType | Bool | Int | Float | Str | Sequence | Dict

  function KindOf(v: Value): Kind {
    match v
    case Null => NoneType
    case Boolean(_) => Bool
    case Whole(_) => Int
    case Floating(_) => Float
    case Text(_) => Str
    case List(_) => Sequence
    case Mapping(_) => Dict
  }

  // ---- Python's equality ----

  /** Truth values and numbers compare by number, whatever their types. */
  function Number(v: Value): Option<real> {
    match v
    case Boolean(b) => Some(if b then 1.0 else 0.0)
    case Whole(n) => Some(n as real)
    case Floating(x) => Some(x)
    case _ => None
  }

  predicate Same(a: Value, b: Value)
    decreases a
  {
    if a.List? && b.List? then
      |a.items| == |b.items| && forall i :: 0 <= i < |a.items| ==> Same(a.items[i], b.items[i])
    else if a.Mapping? && b.Mapping? then
      a.fields.Keys == b.fields.Keys && forall k :: k in a.fields.Keys ==> Same(a.fields[k], b.fields[k])
    else if Number(a).Some? then Number(a) == Number(b)
    else a == b
  }

  // ---- labels ----

  predicate IsPlain(c: char) {
    'A' <= c <= 'Z' || 'a' <= c <= 'z' || '0' <= c <= '9' || c in "_./~-"
  }

  type Digest = string -> string

  function Label(digest: Digest, s: string): string {
    if 1 <= |s| <= 200 && forall i :: 0 <= i < |s| ==> IsPlain(s[i]) then s else "redacted-sha256-" + digest(s)
  }

  /** A key inside a path: a tilde and a slash written as two characters each. */
  function Escaped(key: string): string {
    if key == "" then ""
    else (if key[0] == '~' then "~0" else if key[0] == '/' then "~1" else [key[0]]) + Escaped(key[1..])
  }

  // ---- what is compared ----

  /** Two values at one path; `None` where that side has none. */
  datatype Entry = Entry(path: string, before: Option<Value>, after: Option<Value>)

  datatype Change = MissingInAccepted | MissingInFinal | TypeChanged(was: Kind, now: Kind) | ValueChanged

  function Lookup(fields: map<string, Value>, key: string): Option<Value> {
    if key in fields then Some(fields[key]) else None
  }

  function ItemAt(items: seq<Value>, i: nat): Option<Value> { if i < |items| then Some(items[i]) else None }

  function Max(a: nat, b: nat): nat { if a < b then b else a }

  function FieldEntry(digest: Digest, path: string, a: map<string, Value>, b: map<string, Value>, key: string): Entry {
    Entry(Label(digest, path + "/" + Escaped(key)), Lookup(a, key), Lookup(b, key))
  }

  function ItemEntry(digest: Digest, path: string, a: seq<Value>, b: seq<Value>, i: nat): Entry {
    Entry(Label(digest, path + "/" + Decimal.Digits(i)), ItemAt(a, i), ItemAt(b, i))
  }

  /** Unequal containers of one kind are compared inside. */
  predicate Opens(e: Entry) {
    e.before.Some? && e.after.Some? && !Same(e.before.value, e.after.value)
    && ((e.before.value.List? && e.after.value.List?) || (e.before.value.Mapping? && e.after.value.Mapping?))
  }

  /** What is inside, by key in ascending order or by position. */
  function Inside(digest: Digest, e: Entry): (r: seq<Entry>)
    ensures forall i :: 0 <= i < |r| && r[i].before.Some? ==> e.before.Some? && r[i].before.value < e.before.value
  {
    if !Opens(e) then []
    else
      var a, b := e.before.value, e.after.value;
      if a.List? then
        seq(Max(|a.items|, |b.items|), i requires 0 <= i => ItemEntry(digest, e.path, a.items, b.items, i))
      else
        var keys := Sorted(a.fields.Keys + b.fields.Keys);
        seq(|keys|, i requires 0 <= i < |keys| => FieldEntry(digest, e.path, a.fields, b.fields, keys[i]))
  }

  function Report(e: Entry): Option<Change> {
    if e.before.None? then Some(MissingInAccepted)
    else if e.after.None? then Some(MissingInFinal)
    else if Same(e.before.value, e.after.value) || Opens(e) then None
    else if KindOf(e.before.value) != KindOf(e.after.value) then
      Some(TypeChanged(KindOf(e.before.value), KindOf(e.after.value)))
    else Some(ValueChanged)
  }

  // ---- the recursive diff ----

  function Flatten(xss: seq<seq<Entry>>): seq<Entry> {
    if xss == [] then [] else xss[0] + Flatten(xss[1..])
  }

  /** The entry and all it opens, depth first. */
  function Visits(digest: Digest, e: Entry): (r: seq<Entry>)
    ensures r != []
    decreases e.before.Some?, if e.before.Some? then e.before.value else Null
  {
    var inside := Inside(digest, e);
    [e] + Flatten(seq(|inside|, i requires 0 <= i < |inside| => Visits(digest, inside[i])))
  }

  function VisitsAll(digest: Digest, es: seq<Entry>): seq<Entry> {
    if es == [] then [] else Visits(digest, es[0]) + VisitsAll(digest, es[1..])
  }

  function Reports(es: seq<Entry>): seq<(string, Change)> {
    if es == [] then [] else Told(es[0]) + Reports(es[1..])
  }

  function Told(e: Entry): seq<(string, Change)> {
    match Report(e)
    case None => []
    case Some(change) => [(e.path, change)]
  }

  /** The recursive diff: every visited entry with something to report, in the order of the visit. */
  function Diff(digest: Digest, original: Value, current: Value): seq<(string, Change)> {
    Reports(Visits(digest, Entry("toolchain", Some(original), Some(current))))
  }

  lemma {:induction false} FlattenIsAll(digest: Digest, xss: seq<seq<Entry>>, es: seq<Entry>)
    requires |xss| == |es| && forall i :: 0 <= i < |es| ==> xss[i] == Visits(digest, es[i])
    ensures Flatten(xss) == VisitsAll(digest, es)
  {
    if es != [] {
      FlattenIsAll(digest, xss[1..], es[1..]);
    }
  }

  lemma VisitsOpen(digest: Digest, e: Entry)
    ensures Visits(digest, e) == [e] + VisitsAll(digest, Inside(digest, e))
  {
    var inside := Inside(digest, e);
    FlattenIsAll(digest, seq(|inside|, i requires 0 <= i < |inside| => Visits(digest, inside[i])), inside);
  }

  lemma {:induction false} ReportsConcat(a: seq<Entry>, b: seq<Entry>)
    ensures Reports(a + b) == Reports(a) + Reports(b)
  {
    if a == [] {
      assert a + b == b;
    } else {
      assert (a + b)[1..] == a[1..] + b;
      ReportsConcat(a[1..], b);
    }
  }

  // ---- the explicit stack ----

  function Reversed(es: seq<Entry>): seq<Entry> { if es == [] then [] else Reversed(es[1..]) + [es[0]] }

  /** All that is still to be visited, when the stack is popped from its end. */
  function Unwound(digest: Digest, pending: seq<Entry>): seq<Entry> {
    if pending == [] then [] else
      Visits(digest, pending[|pending| - 1]) + Unwound(digest, pending[..|pending| - 1])
  }

  lemma Popped(digest: Digest, rest: seq<Entry>, e: Entry)
    ensures Unwound(digest, rest + [e]) == Visits(digest, e) + Unwound(digest, rest)
  {
    assert (rest + [e])[..|rest|] == rest;
  }

  lemma {:induction false} PushedReversed(digest: Digest, pending: seq<Entry>, es: seq<Entry>)
    ensures Unwound(digest, pending + Reversed(es)) == VisitsAll(digest, es) + Unwound(digest, pending)
  {
    if es == [] {
      assert pending + Reversed(es) == pending;
    } else {
      Assoc(pending, Reversed(es[1..]), [es[0]]);
      Popped(digest, pending + Reversed(es[1..]), es[0]);
      PushedReversed(digest, pending, es[1..]);
      Assoc(Visits(digest, es[0]), VisitsAll(digest, es[1..]), Unwound(digest, pending));
    }
  }

  lemma ReversedTail(es: seq<Entry>, k: nat)
    requires k < |es|
    ensures Reversed(es[k..]) == Reversed(es[k + 1..]) + [es[k]]
  {
    assert es[k..][1..] == es[k + 1..];
  }

  ghost predicate FieldEntries(digest: Digest, path: string, a: map<string, Value>, b: map<string, Value>,
                               es: seq<Entry>) {
    var keys := Sorted(a.Keys + b.Keys);
    |es| == |keys| && forall i :: 0 <= i < |es| ==> es[i] == FieldEntry(digest, path, a, b, keys[i])
  }

  ghost predicate ItemEntries(digest: Digest, path: string, a: seq<Value>, b: seq<Value>, es: seq<Entry>) {
    |es| == Max(|a|, |b|) && forall i :: 0 <= i < |es| ==> es[i] == ItemEntry(digest, path, a, b, i)
  }

  lemma InsideEntries(digest: Digest, e: Entry)
    requires Opens(e)
    ensures e.before.value.Mapping? ==>
              FieldEntries(digest, e.path, e.before.value.fields, e.after.value.fields, Inside(digest, e))
    ensures e.before.value.List? ==>
              ItemEntries(digest, e.path, e.before.value.items, e.after.value.items, Inside(digest, e))
  {
  }

  method QueueMapping(digest: Digest, pending: seq<Entry>, path: string, a: map<string, Value>, b: map<string, Value>,
                      ghost inside: seq<Entry>)
    returns (r: seq<Entry>)
    requires FieldEntries(digest, path, a, b, inside)
    ensures r == pending + Reversed(inside)
  {
    r := pending;
    var keys := Sorted(a.Keys + b.Keys);
    for k := |keys| downto 0
      invariant r == pending + Reversed(inside[k..])
    {
      ReversedTail(inside, k);
      Assoc(pending, Reversed(inside[k + 1..]), [inside[k]]);
      r := r + [FieldEntry(digest, path, a, b, keys[k])];
    }
    assert inside[0..] == inside;
  }

  method QueueList(digest: Digest, pending: seq<Entry>, path: string, a: seq<Value>, b: seq<Value>,
                   ghost inside: seq<Entry>)
    returns (r: seq<Entry>)
    requires ItemEntries(digest, path, a, b, inside)
    ensures r == pending + Reversed(inside)
  {
    r := pending;
    for k := Max(|a|, |b|) downto 0
      invariant r == pending + Reversed(inside[k..])
    {
      ReversedTail(inside, k);
      Assoc(pending, Reversed(inside[k + 1..]), [inside[k]]);
      r := r + [ItemEntry(digest, path, a, b, k)];
    }
    assert inside[0..] == inside;
  }

  /** What one popped entry adds to the report and to the stack. */
  method Compare(digest: Digest, e: Entry, rest: seq<Entry>, out: seq<(string, Change)>)
    returns (pending: seq<Entry>, told: seq<(string, Change)>)
    ensures pending == rest + Reversed(Inside(digest, e)) && told == out + Told(e)
  {
    hide Same;
    pending, told := rest, out;
    if e.before.None? {
      told := out + [(e.path, MissingInAccepted)];
    } else if e.after.None? {
      told := out + [(e.path, MissingInFinal)];
    } else {
      var before, after := e.before.value, e.after.value;
      if Same(before, after) {
      } else if KindOf(before) != KindOf(after) {
        told := out + [(e.path, TypeChanged(KindOf(before), KindOf(after)))];
      } else if before.Mapping? {
        InsideEntries(digest, e);
        pending := QueueMapping(digest, rest, e.path, before.fields, after.fields, Inside(digest, e));
      } else if before.List? {
        InsideEntries(digest, e);
        pending := QueueList(digest, rest, e.path, before.items, after.items, Inside(digest, e));
      } else {
        told := out + [(e.path, ValueChanged)];
      }
    }
  }

  /** What has been told and is still to be told, before and after one entry is popped. */
  lemma StepUnwinds(digest: Digest, rest: seq<Entry>, e: Entry, out: seq<(string, Change)>, todo: seq<Entry>,
                    after: seq<Entry>, told: seq<(string, Change)>)
    requires todo == Unwound(digest, rest + [e])
    requires after == rest + Reversed(Inside(digest, e)) && told == out + Told(e)
    ensures |Unwound(digest, after)| < |todo| && told + Reports(Unwound(digest, after)) == out + Reports(todo)
  {
    var next := Unwound(digest, after);
    Popped(digest, rest, e);
    VisitsOpen(digest, e);
    PushedReversed(digest, rest, Inside(digest, e));
    Assoc([e], VisitsAll(digest, Inside(digest, e)), Unwound(digest, rest));
    assert todo == [e] + next;
    assert todo[1..] == next;
    Assoc(out, Told(e), Reports(next));
  }

  lemma RootUnwinds(digest: Digest, root: Entry)
    ensures Unwound(digest, [root]) == Visits(digest, root)
  {
    assert [root] == [] + [root];
    Popped(digest, [], root);
    assert Visits(digest, root) + [] == Visits(digest, root);
  }

  /** One turn of the loop: what has been told and is still to be told stays the same. */
  method Turn(digest: Digest, pending: seq<Entry>, out: seq<(string, Change)>, ghost todo: seq<Entry>)
    returns (after: seq<Entry>, told: seq<(string, Change)>, ghost left: seq<Entry>)
    requires pending != [] && todo == Unwound(digest, pending)
    ensures left == Unwound(digest, after) && |left| < |todo| && told + Reports(left) == out + Reports(todo)
  {
    hide Inside, Unwound, Told, Same;
    var e, rest := pending[|pending| - 1], pending[..|pending| - 1];
    assert pending == rest + [e];
    after, told := Compare(digest, e, rest, out);
    StepUnwinds(digest, rest, e, out, todo, after, told);
    left := Unwound(digest, after);
  }

  /** The stack visits what the recursion visits, in the same order, and ends. */
  method ToolchainChanges(digest: Digest, original: Value, current: Value) returns (out: seq<(string, Change)>)
    ensures out == Diff(digest, original, current)
  {
    var root := Entry("toolchain", Some(original), Some(current));
    RootUnwinds(digest, root);
    var pending := [root];
    out := [];
    ghost var todo := Visits(digest, root);
    ghost var goal := Reports(todo);
    assert out + goal == goal;
    while pending != []
      invariant todo == Unwound(digest, pending) && out + Reports(todo) == goal
      decreases |todo|
    {
      pending, out, todo := Turn(digest, pending, out, todo);
    }
    assert out + [] == out;
  }

  // ---- silence means equality ----

  /** Nothing is reported if and only if the two values are equal. */
  lemma SilentIffSame(digest: Digest, original: Value, current: Value)
    ensures Diff(digest, original, current) == [] <==> Same(original, current)
  {
    var root := Entry("toolchain", Some(original), Some(current));
    VisitsOpen(digest, root);
    assert [root][1..] == [];
    ReportsConcat([root], VisitsAll(digest, Inside(digest, root)));
    if !Same(original, current) {
      Speaks(digest, root);
    }
  }

  lemma {:induction false} Speaks(digest: Digest, e: Entry)
    requires e.before.None? || e.after.None? || !Same(e.before.value, e.after.value)
    ensures Reports(Visits(digest, e)) != []
    decreases e.before.Some?, if e.before.Some? then e.before.value else Null
  {
    var inside := Inside(digest, e);
    VisitsOpen(digest, e);
    ReportsConcat([e], VisitsAll(digest, inside));
    if Opens(e) {
      var i := DiffersInside(digest, e);
      Speaks(digest, inside[i]);
      OneSpeaks(digest, inside, i);
    }
  }

  lemma {:induction false} OneSpeaks(digest: Digest, es: seq<Entry>, i: nat)
    requires i < |es| && Reports(Visits(digest, es[i])) != []
    ensures Reports(VisitsAll(digest, es)) != []
    decreases |es|
  {
    ReportsConcat(Visits(digest, es[0]), VisitsAll(digest, es[1..]));
    if i > 0 {
      OneSpeaks(digest, es[1..], i - 1);
    }
  }

  /** Unequal containers have something unequal inside. */
  lemma DiffersInside(digest: Digest, e: Entry) returns (i: nat)
    requires Opens(e)
    ensures i < |Inside(digest, e)|
    ensures var x := Inside(digest, e)[i]; x.before.None? || x.after.None? || !Same(x.before.value, x.after.value)
  {
    var a, b := e.before.value, e.after.value;
    if a.List? {
      if |a.items| == |b.items| {
        i :| i < |a.items| && !Same(a.items[i], b.items[i]);
      } else {
        i := if |a.items| < |b.items| then |a.items| else |b.items|;
      }
    } else {
      var all := a.fields.Keys + b.fields.Keys;
      var key :| key in all && (key !in a.fields || key !in b.fields || !Same(a.fields[key], b.fields[key]));
      assert key in Sorted(all);
      i :| i < |Sorted(all)| && Sorted(all)[i] == key;
    }
  }
}
