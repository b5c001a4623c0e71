// Scalar tokens of JSON text: RFC 8259, sections 2, 3, 6 and 7, with the literals Python adds.
module JsonTokens {
  import opened Wrappers
  import opened Sequences
  import opened Decimal

  datatype Scalar = Str(s: string) | Int(n: int) | Real(text: string) | Literal(text: string)

  predicate IsSpace(c: char) { c == ' ' || c == '\n' || c == '\r' || c == '\t' }

  predicate AllSpace(s: string) { forall i :: 0 <= i < |s| ==> IsSpace(s[i]) }

  /** Text at which a number token must end. */
  predicate Delimited(s: string) {
    s == "" || IsSpace(s[0]) || s[0] == ',' || s[0] == '}' || s[0] == ']' || s[0] == ':'
  }

  // ---- strings ----

  function HexValue(c: char): (r: Option<nat>)
    ensures r.Some? ==> r.value < 16
  {
    if '0' <= c <= '9' then Some((c - '0') as nat)
    else if 'a' <= c <= 'f' then Some((c - 'a') as nat + 10)
    else if 'A' <= c <= 'F' then Some((c - 'A') as nat + 10)
    else None
  }

  function HexDigit(n: nat): (c: char)
    requires n < 16
    ensures HexValue(c) == Some(n)
  {
    if n < 10 then '0' + n as char else 'a' + (n - 10) as char
  }

  /** The number four hexadecimal digits write. */
  function HexUnit(s: string): (r: Option<nat>)
    ensures r.Some? ==> |s| >= 4 && r.value < 0x1_0000
  {
    if |s| < 4 then None else
      match (HexValue(s[0]), HexValue(s[1]), HexValue(s[2]), HexValue(s[3]))
      case (Some(a), Some(b), Some(c), Some(d)) =>
        Some(((a * 16 + b) * 16 + c) * 16 + d)
      case _ => None
  }

  predicate IsHigh(n: nat) { 0xD800 <= n < 0xDC00 }

  predicate IsLow(n: nat) { 0xDC00 <= n < 0xE000 }

  /** What follows `\\u`: one unit, or two that are the halves of a character; a half alone is no character. */
  function HexChar(s: string): (r: Option<(char, nat)>)
    ensures r.Some? ==> 4 <= r.value.1 <= |s|
  {
    match HexUnit(s)
    case None => None
    case Some(n) =>
      if !IsHigh(n) && !IsLow(n) then Some((n as char, 4))
      else if IsHigh(n) && "\\u" <= s[4..] && HexUnit(s[6..]).Some? && IsLow(HexUnit(s[6..]).value) then
        Some(((0x1_0000 + (n - 0xD800) * 0x400 + (HexUnit(s[6..]).value - 0xDC00)) as char, 10))
      else None
  }

  /** One escape after its backslash: the character and how much text it took. */
  function Unescape(s: string): (r: Option<(char, nat)>)
    ensures r.Some? ==> 0 < r.value.1 <= |s|
  {
    if s == "" then None
    else
      var c := s[0];
      if c == '"' || c == '\\' || c == '/' then Some((c, 1))
      else if c == 'b' then Some(('\U{08}', 1))
      else if c == 'f' then Some(('\U{0C}', 1))
      else if c == 'n' then Some(('\n', 1))
      else if c == 'r' then Some(('\r', 1))
      else if c == 't' then Some(('\t', 1))
      else if c == 'u' then
        match HexChar(s[1..])
        case None => None
        case Some((x, n)) => Some((x, n + 1))
      else None
  }

  /** The body of a string up to and including its closing quote: its value and its length. */
  function ScanString(s: string): (r: Option<(string, nat)>)
    ensures r.Some? ==> 0 < r.value.1 <= |s|
    decreases |s|
  {
    if s == "" then None
    else if s[0] == '"' then Some(("", 1))
    else if s[0] == '\\' then
      match Unescape(s[1..])
      case None => None
      case Some((c, n)) =>
        match ScanString(s[1 + n..])
        case None => None
        case Some((v, m)) => Some(([c] + v, 1 + n + m))
    else if s[0] < ' ' then None
    else match ScanString(s[1..])
      case None => None
      case Some((v, m)) => Some(([s[0]] + v, 1 + m))
  }

  lemma HexLocal(s: string, t: string, n: nat)
    requires HexChar(s).Some? && HexChar(s).value.1 == n <= |t| && forall i :: 0 <= i < n ==> t[i] == s[i]
    ensures HexChar(t) == HexChar(s)
  {
    if n == 10 {
      assert s[4..][..2] == "\\u";
      assert t[4..][..2] == s[4..][..2];
    }
  }

  lemma UnescapeLocal(s: string, t: string, n: nat)
    requires Unescape(s).Some? && Unescape(s).value.1 == n <= |t| && forall i :: 0 <= i < n ==> t[i] == s[i]
    ensures Unescape(t) == Unescape(s)
  {
    if s[0] == 'u' {
      HexLocal(s[1..], t[1..], n - 1);
    }
  }

  /** Where a string ends is decided by the string alone. */
  lemma {:induction false} ScanStringLocal(s: string, t: string, n: nat)
    requires ScanString(s).Some? && ScanString(s).value.1 == n <= |t| && forall i :: 0 <= i < n ==> t[i] == s[i]
    ensures ScanString(t) == ScanString(s)
    decreases |s|
  {
    hide Unescape;
    if s[0] == '\\' {
      var k := Unescape(s[1..]).value.1;
      SameAfter(s, t, n, 1);
      SameAfter(s, t, n, 1 + k);
      UnescapeLocal(s[1..], t[1..], k);
      ScanStringLocal(s[1 + k..], t[1 + k..], n - 1 - k);
    } else if s[0] != '"' {
      SameAfter(s, t, n, 1);
      ScanStringLocal(s[1..], t[1..], n - 1);
    }
  }

  lemma SameAfter(s: string, t: string, n: nat, k: nat)
    requires k <= n <= |s| && n <= |t| && forall i :: 0 <= i < n ==> t[i] == s[i]
    ensures forall i :: 0 <= i < n - k ==> t[k..][i] == s[k..][i]
  {
  }

  /** The letter of a two-character escape, where JSON has one and `json.dumps` uses it. */
  function ShortEscape(c: char): Option<char> {
    if c == '"' || c == '\\' then Some(c)
    else if c == '\n' then Some('n')
    else if c == '\r' then Some('r')
    else if c == '\t' then Some('t')
    else if c == '\U{08}' then Some('b')
    else if c == '\U{0C}' then Some('f')
    else None
  }

  /** How `json.dumps` writes one character when it may leave the others as they are. */
  function Escape(c: char): string {
    match ShortEscape(c)
    case Some(x) => ['\\', x]
    case None =>
      if c < ' ' then ['\\', 'u', '0', '0', HexDigit(c as nat / 16), HexDigit(c as nat % 16)] else [c]
  }

  function EscapeAll(s: string): string {
    if s == "" then "" else Escape(s[0]) + EscapeAll(s[1..])
  }

  lemma HexOfControl(c: char, u: string)
    requires c < ' ' && |u| >= 4
    requires u[0] == '0' && u[1] == '0' && u[2] == HexDigit(c as nat / 16) && u[3] == HexDigit(c as nat % 16)
    ensures HexChar(u) == Some((c, 4))
  {
    var n := c as nat;
    assert n == n / 16 * 16 + n % 16;
  }

  lemma UnescapeOfEscape(c: char, rest: string)
    requires Escape(c)[0] == '\\' && |Escape(c)| > 1
    ensures Unescape(Escape(c)[1..] + rest) == Some((c, |Escape(c)| - 1))
  {
    var s := Escape(c)[1..] + rest;
    if ShortEscape(c).Some? {
      assert s[0] == ShortEscape(c).value;
    } else {
      var u := s[1..];
      assert s[0] == 'u' && u[0] == '0' && u[1] == '0' && u[2] == Escape(c)[4] && u[3] == Escape(c)[5];
      HexOfControl(c, u);
    }
  }

  lemma EscapeOne(c: char, rest: string)
    requires ScanString(rest).Some?
    ensures ScanString(Escape(c) + rest)
        == Some(([c] + ScanString(rest).value.0, |Escape(c)| + ScanString(rest).value.1))
  {
    var e := Escape(c);
    var s := e + rest;
    assert s[0] == e[0] && s[|e|..] == rest;
    if |e| > 1 {
      UnescapeOfEscape(c, rest);
      assert s[1..] == e[1..] + rest;
    }
  }

  /** A written string reads back as itself. */
  lemma {:induction false} ScanOfEscaped(s: string, rest: string)
    ensures ScanString(EscapeAll(s) + "\"" + rest) == Some((s, |EscapeAll(s)| + 1))
  {
    if s == "" {
      assert EscapeAll(s) + "\"" + rest == "\"" + rest;
    } else {
      var first, more, quote := Escape(s[0]), EscapeAll(s[1..]), "\"";
      ScanOfEscaped(s[1..], rest);
      EscapeOne(s[0], (more + quote) + rest);
      Assoc(first, more, quote);
      Assoc(first, more + quote, rest);
      Front(s);
    }
  }

  // ---- numbers ----

  /** The pattern `-?(0|[1-9][0-9]*)(\.[0-9]+)?([eE][-+]?[0-9]+)?` as an automaton. */
  datatype Phase = Begin | Minus | Zero | Whole | Point | Fraction | Exp | ExpSign | Exponent | Stuck

  function Next(q: Phase, c: char): Phase {
    match q
    case Begin => if c == '-' then Minus else if c == '0' then Zero else if IsDigit(c) then Whole else Stuck
    case Minus => if c == '0' then Zero else if IsDigit(c) then Whole else Stuck
    case Zero => if c == '.' then Point else if c == 'e' || c == 'E' then Exp else Stuck
    case Whole => if IsDigit(c) then Whole else if c == '.' then Point else if c == 'e' || c == 'E' then Exp else Stuck
    case Point => if IsDigit(c) then Fraction else Stuck
    case Fraction => if IsDigit(c) then Fraction else if c == 'e' || c == 'E' then Exp else Stuck
    case Exp => if c == '+' || c == '-' then ExpSign else if IsDigit(c) then Exponent else Stuck
    case ExpSign => if IsDigit(c) then Exponent else Stuck
    case Exponent => if IsDigit(c) then Exponent else Stuck
    case Stuck => Stuck
  }

  predicate Accepts(q: Phase) { q.Zero? || q.Whole? || q.Fraction? || q.Exponent? }

  /** The longest prefix the pattern accepts from `q`: its length and the phase it ends in. */
  function Munch(s: string, q: Phase): (r: Option<(nat, Phase)>)
    ensures r.Some? ==> r.value.0 <= |s| && Accepts(r.value.1)
  {
    var here := if Accepts(q) then Some((0, q)) else None;
    if s == "" || Next(q, s[0]).Stuck? then here
    else match Munch(s[1..], Next(q, s[0]))
      case None => here
      case Some((n, f)) => Some((n + 1, f))
  }

  /** A number ends where it does whatever delimiter follows. */
  lemma {:induction false} MunchLocal(s: string, q: Phase, rest: string)
    requires Munch(s, q).Some? && Delimited(rest)
    ensures Munch(s[..Munch(s, q).value.0] + rest, q) == Munch(s, q)
  {
    var n := Munch(s, q).value.0;
    if n == 0 {
      assert s[..0] + rest == rest;
    } else {
      var u := s[1..][..n - 1] + rest;
      MunchLocal(s[1..], Next(q, s[0]), rest);
      MunchAlike(s[0], s[1..], u, q);
      TakeFront(s, n);
      Assoc([s[0]], s[1..][..n - 1], rest);
      Front(s);
    }
  }

  lemma MunchAlike(c: char, s: string, t: string, q: Phase)
    requires Munch(s, Next(q, c)) == Munch(t, Next(q, c))
    ensures Munch([c] + s, q) == Munch([c] + t, q)
  {
    Prepended(c, s);
    Prepended(c, t);
  }

  lemma {:induction false} MunchOfDigits(s: string, rest: string)
    requires AllDigits(s) && Delimited(rest)
    ensures Munch(s + rest, Whole) == Some((|s|, Whole))
  {
    if s == "" {
      assert s + rest == rest;
    } else {
      assert (s + rest)[1..] == s[1..] + rest;
      MunchOfDigits(s[1..], rest);
    }
  }

  function NumberLength(s: string): (n: nat)
    ensures n <= |s|
  {
    match Munch(s, Begin) case None => 0 case Some((n, _)) => n
  }

  /** `int(s)` of a sign and digits. */
  function IntValue(s: string): int {
    if s == "" then 0
    else if s == "-" then 0
    else
      var n, d := IntValue(s[..|s| - 1]), if IsDigit(s[|s| - 1]) then DigitValue(s[|s| - 1]) else 0;
      if s[0] == '-' then n * 10 - d else n * 10 + d
  }

  lemma {:induction false} IntValueIsNumber(d: string)
    requires AllDigits(d)
    ensures IntValue(d) == Number(d) && IntValue("-" + d) == 0 - Number(d)
  {
    if d != "" {
      var init := d[..|d| - 1];
      IntValueIsNumber(init);
      assert ("-" + d)[..|d|] == "-" + init && ("-" + d)[|d|] == d[|d| - 1];
    }
  }

  function NumberValue(s: string): Scalar
    requires Munch(s, Begin).Some?
  {
    var (n, f) := Munch(s, Begin).value;
    if f.Zero? || f.Whole? then Int(IntValue(s[..n])) else Real(s[..n])
  }

  /** A number token reads the same before any delimiter. */
  lemma NumberLocal(s: string, rest: string)
    requires Munch(s, Begin).Some? && Delimited(rest)
    ensures var t := s[..NumberLength(s)] + rest;
            Munch(t, Begin) == Munch(s, Begin) && NumberValue(t) == NumberValue(s)
  {
    var n := NumberLength(s);
    MunchLocal(s, Begin, rest);
    assert (s[..n] + rest)[..n] == s[..n];
  }

  function IntText(n: int): string { if n < 0 then "-" + Digits(-n) else Digits(n) }

  lemma MunchOfNumeral(d: string, q: Phase, rest: string)
    requires IsNumeral(d) && (q.Begin? || q.Minus?) && Delimited(rest)
    ensures Munch(d + rest, q).Some? && Munch(d + rest, q).value.0 == |d|
    ensures Munch(d + rest, q).value.1.Zero? || Munch(d + rest, q).value.1.Whole?
  {
    var t := d + rest;
    assert t[0] == d[0] && t[1..] == d[1..] + rest;
    if d[0] == '0' {
      assert t[1..] == rest;
    } else {
      MunchOfDigits(d[1..], rest);
    }
  }

  lemma ScanOfInt(n: int, rest: string)
    requires Delimited(rest)
    ensures var t := IntText(n);
            Munch(t + rest, Begin).Some? && NumberLength(t + rest) == |t| && NumberValue(t + rest) == Int(n)
  {
    var t := IntText(n);
    var m: nat := if n < 0 then -n else n;
    NumberOfDigits(m);
    assert (t + rest)[..|t|] == t;
    IntValueIsNumber(Digits(m));
    if n < 0 {
      MunchOfNumeral(Digits(m), Minus, rest);
      assert (t + rest)[1..] == Digits(m) + rest;
    } else {
      MunchOfNumeral(Digits(m), Begin, rest);
    }
  }

  // ---- scalars ----

  predicate StartsWith(s: string, word: string) {
    word == "" || (s != "" && s[0] == word[0] && StartsWith(s[1..], word[1..]))
  }

  lemma {:induction false} StartsWithPrefix(s: string, word: string)
    ensures StartsWith(s, word) <==> word <= s
  {
    if word != "" && s != "" && s[0] == word[0] {
      StartsWithPrefix(s[1..], word[1..]);
      assert s == [s[0]] + s[1..] && word == [word[0]] + word[1..];
    }
  }

  const LITERALS := ["null", "true", "false", "NaN", "Infinity", "-Infinity"]

  function FirstLiteral(s: string, words: seq<string>): (r: Option<string>)
    ensures r.Some? ==> r.value in words && StartsWith(s, r.value)
  {
    if words == [] then None
    else if StartsWith(s, words[0]) then Some(words[0])
    else FirstLiteral(s, words[1..])
  }

  /** The literal a text starts with, if any. */
  function LiteralAt(s: string): Option<string> { FirstLiteral(s, LITERALS) }

  /** `raw_decode` on a text that starts with neither a brace nor a bracket: value and length. */
  function ScanScalar(s: string): (r: Option<(Scalar, nat)>)
    ensures r.Some? ==> 0 < r.value.1 <= |s|
  {
    if s == "" then None
    else if s[0] == '"' then
      match ScanString(s[1..])
      case None => None
      case Some((v, n)) => Some((Str(v), n + 1))
    else match LiteralAt(s)
      case Some(text) =>
        StartsWithPrefix(s, text);
        Some((Literal(text), |text|))
      case None =>
        if Munch(s, Begin).Some? then
          MunchSome(s);
          Some((NumberValue(s), NumberLength(s)))
        else None
  }

  lemma MunchSome(s: string)
    ensures Munch(s, Begin).Some? ==> NumberLength(s) > 0 && (s[0] == '-' || IsDigit(s[0]))
  {
  }

  predicate IsToken(tok: string) { ScanScalar(tok).Some? && ScanScalar(tok).value.1 == |tok| }

  function TokenValue(tok: string): Scalar
    requires IsToken(tok)
  {
    ScanScalar(tok).value.0
  }

  lemma LiteralLocal(s: string, rest: string)
    requires LiteralAt(s).Some?
    ensures LiteralAt(LiteralAt(s).value + rest) == LiteralAt(s)
  {
    var t := LiteralAt(s).value;
    var u := t + rest;
    forall word | word in LITERALS ensures StartsWith(u, word) <==> word == t {
      StartsWithPrefix(u, word);
      assert t <= u && u[0] == t[0];
    }
    LiteralIs(u, t);
  }

  lemma LiteralIs(s: string, t: string)
    requires t in LITERALS && forall word :: word in LITERALS ==> (StartsWith(s, word) <==> word == t)
    ensures LiteralAt(s) == Some(t)
  {
    assert LITERALS[1..] == ["true", "false", "NaN", "Infinity", "-Infinity"];
    assert LITERALS[1..][1..] == ["false", "NaN", "Infinity", "-Infinity"];
    assert LITERALS[1..][1..][1..] == ["NaN", "Infinity", "-Infinity"];
    assert LITERALS[1..][1..][1..][1..] == ["Infinity", "-Infinity"];
    assert LITERALS[1..][1..][1..][1..][1..] == ["-Infinity"];
    FirstLiteralIs(s, LITERALS, t);
  }

  lemma {:induction false} FirstLiteralIs(s: string, words: seq<string>, t: string)
    requires t in words && forall word :: word in words ==> (StartsWith(s, word) <==> word == t)
    ensures FirstLiteral(s, words) == Some(t)
  {
    if !StartsWith(s, words[0]) {
      FirstLiteralIs(s, words[1..], t);
    }
  }

  /** A scalar token reads the same wherever it stands, before any delimiter. */
  lemma ScanLocal(s: string, rest: string)
    requires ScanScalar(s).Some? && Delimited(rest)
    ensures var tok := s[..ScanScalar(s).value.1];
            IsToken(tok) && TokenValue(tok) == ScanScalar(s).value.0
            && ScanScalar(tok + rest) == ScanScalar(s)
  {
    ScanLocalAt(s, rest);
    ScanLocalAt(s, "");
    var tok := s[..ScanScalar(s).value.1];
    assert tok + "" == tok;
  }

  lemma ScannedToken(s: string)
    requires ScanScalar(s).Some?
    ensures var tok := s[..ScanScalar(s).value.1]; IsToken(tok) && TokenValue(tok) == ScanScalar(s).value.0
  {
    ScanLocal(s, "");
  }

  lemma ScanLocalAt(s: string, rest: string)
    requires ScanScalar(s).Some? && Delimited(rest)
    ensures ScanScalar(s[..ScanScalar(s).value.1] + rest) == ScanScalar(s)
  {
    var n := ScanScalar(s).value.1;
    var t := s[..n] + rest;
    assert t[0] == s[0];
    if s[0] == '"' {
      ScanStringLocal(s[1..], t[1..], n - 1);
    } else if LiteralAt(s).Some? {
      StartsWithPrefix(s, LiteralAt(s).value);
      assert s[..n] == LiteralAt(s).value;
      LiteralLocal(s, rest);
    } else {
      NumberLocal(s, rest);
      NumberIsNoLiteral(t);
    }
  }

  lemma NumberIsNoLiteral(s: string)
    ensures LiteralAt(s).Some? ==> Munch(s, Begin).None?
  {
    if LiteralAt(s).Some? {
      StartsWithPrefix(s, LiteralAt(s).value);
      assert s[0] == LiteralAt(s).value[0];
      if LiteralAt(s).value == "-Infinity" {
        assert s[1..][0] == 'I';
      }
    }
  }

  /** A token stands neither for white space nor for structure. */
  lemma TokenStart(tok: string)
    requires IsToken(tok)
    ensures tok != "" && !IsSpace(tok[0]) && tok[0] !in {'{', '[', '}', ']', ',', ':'}
  {
    if tok[0] != '"' && LiteralAt(tok).None? {
      assert tok[0] == '-' || IsDigit(tok[0]);
    }
  }

  /** `json.dumps(value, ensure_ascii=False)` of a string or an integer. */
  function Dump(v: Scalar): string
    requires v.Str? || v.Int?
  {
    match v
    case Str(s) => "\"" + EscapeAll(s) + "\""
    case Int(n) => IntText(n)
  }

  /** What is written reads back as exactly the value written. */
  lemma DumpReadsBack(v: Scalar)
    requires v.Str? || v.Int?
    ensures IsToken(Dump(v)) && TokenValue(Dump(v)) == v
  {
    var t := Dump(v);
    match v
    case Str(s) =>
      ScanOfEscaped(s, "");
      assert t[1..] == EscapeAll(s) + "\"" + "";
    case Int(n) =>
      ScanOfInt(n, "");
      assert t + "" == t;
      assert t[0] == '-' || IsDigit(t[0]);
      NumberIsNoLiteral(t);
  }
}
