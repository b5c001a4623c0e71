// The grammar of JSON scalars, written out: which texts are strings, numbers and literals and what
// they mean, RFC 8259, sections 3, 6 and 7, against the scanner that reads them.
module JsonGrammar {
  import opened Wrappers
  import opened Sequences
  import opened Decimal
  import opened JsonTokens

  // ---- characters of strings ----

  ghost predicate IsHexDigit(c: char, n: int) {
    0 <= n < 16 && ("0123456789abcdef"[n] == c || "0123456789ABCDEF"[n] == c)
  }

  lemma HexDigits(c: char, n: nat)
    ensures HexValue(c) == Some(n) <==> IsHexDigit(c, n)
  {
  }

  ghost predicate IsUnit(t: string, n: int) {
    exists a, b, c, d ::
      && |t| == 4 && IsHexDigit(t[0], a) && IsHexDigit(t[1], b) && IsHexDigit(t[2], c) && IsHexDigit(t[3], d)
      && n == 4096 * a + 256 * b + 16 * c + d
  }

  lemma UnitIs(s: string, n: nat)
    ensures HexUnit(s) == Some(n) <==> |s| >= 4 && IsUnit(s[..4], n)
  {
    hide HexValue, IsHexDigit;
    if |s| >= 4 {
      var t := s[..4];
      assert t[0] == s[0] && t[1] == s[1] && t[2] == s[2] && t[3] == s[3];
      if HexUnit(s) == Some(n) {
        var a, b, c, d := HexValue(s[0]).value, HexValue(s[1]).value, HexValue(s[2]).value, HexValue(s[3]).value;
        HexDigits(s[0], a);
        HexDigits(s[1], b);
        HexDigits(s[2], c);
        HexDigits(s[3], d);
      }
      if IsUnit(t, n) {
        var a, b, c, d :| IsHexDigit(t[0], a) && IsHexDigit(t[1], b) && IsHexDigit(t[2], c) && IsHexDigit(t[3], d)
                          && n == 4096 * a + 256 * b + 16 * c + d;
        HexRange(t[0], a);
        HexRange(t[1], b);
        HexRange(t[2], c);
        HexRange(t[3], d);
      }
    }
  }

  lemma HexRange(c: char, n: int)
    requires IsHexDigit(c, n)
    ensures n >= 0 && HexValue(c) == Some(n)
  {
    HexDigits(c, n);
  }

  /** The escapes of two characters. */
  ghost predicate IsShort(x: char, c: char) {
    || (x == '"' && c == '"') || (x == '\\' && c == '\\') || (x == '/' && c == '/')
    || (x == 'b' && c as int == 8) || (x == 't' && c as int == 9) || (x == 'n' && c as int == 10)
    || (x == 'f' && c as int == 12) || (x == 'r' && c as int == 13)
  }

  /** The text of one character inside a string. */
  ghost predicate Spells(t: string, c: char) {
    || (|t| == 1 && t[0] == c && c as int >= 32 && c != '"' && c != '\\')
    || (|t| >= 2 && t[0] == '\\' && EscapeSpells(t[1..], c))
  }

  /** What follows a backslash: a letter, one unit of four digits, or two that are the halves of a character. */
  ghost predicate EscapeSpells(t: string, c: char) {
    || (|t| == 1 && IsShort(t[0], c))
    || (|t| == 5 && t[0] == 'u' && IsUnit(t[1..], c as int))
    || (exists high, low ::
          && |t| == 11 && t[0] == 'u' && t[5..7] == "\\u" && IsUnit(t[1..5], high) && IsUnit(t[7..], low)
          && 0xD800 <= high <= 0xDBFF && 0xDC00 <= low <= 0xDFFF
          && c as int == 0x1_0000 + 1024 * (high - 0xD800) + (low - 0xDC00))
  }

  lemma CharIs(s: string, c: char, n: nat)
    ensures HexChar(s) == Some((c, n)) <==> n <= |s| && n in {4, 10} && EscapeSpells("u" + s[..n], c)
  {
    hide HexUnit, IsUnit;
    forall m: nat ensures HexUnit(s) == Some(m) <==> |s| >= 4 && IsUnit(s[..4], m) { UnitIs(s, m); }
    if |s| >= 4 && n == 4 {
      assert ("u" + s[..4])[1..] == s[..4];
    }
    if |s| >= 10 {
      forall m: nat ensures HexUnit(s[6..]) == Some(m) <==> IsUnit(s[6..10], m) {
        UnitIs(s[6..], m);
        assert s[6..][..4] == s[6..10];
      }
      var t := "u" + s[..10];
      assert t[1..5] == s[..4] && t[5..7] == s[4..6] && t[7..] == s[6..10];
      assert "\\u" <= s[4..] <==> s[4..6] == "\\u" by { assert s[4..][..2] == s[4..6]; }
    }
  }

  lemma EscapeIs(s: string, c: char, n: nat)
    ensures Unescape(s) == Some((c, n)) <==> 0 < n <= |s| && EscapeSpells(s[..n], c)
  {
    hide HexChar, IsUnit;
    if s != "" {
      if s[0] == 'u' && n > 0 {
        CharIs(s[1..], c, n - 1);
        if n <= |s| { assert "u" + s[1..][..n - 1] == s[..n]; }
      } else if 0 < n <= |s| {
        assert s[..n][0] == s[0];
      }
    }
  }

  /** A string's body: the spelling of each of its characters, and the closing quote. */
  ghost predicate IsBody(t: string, v: string, pieces: seq<string>) {
    && |pieces| == |v| && t == Concat(pieces) + "\""
    && forall i :: 0 <= i < |v| ==> Spells(pieces[i], v[i])
  }

  function Concat(pieces: seq<string>): string { if pieces == [] then "" else pieces[0] + Concat(pieces[1..]) }

  lemma BodyFirst(p: string, c: char, t: string, v: string, pieces: seq<string>)
    requires Spells(p, c) && IsBody(t, v, pieces)
    ensures IsBody(p + t, [c] + v, [p] + pieces)
  {
    hide Spells;
    Prepended(p, pieces);
    Assoc(p, Concat(pieces), "\"");
  }

  lemma {:induction false} ScannedIsBody(s: string) returns (pieces: seq<string>)
    requires ScanString(s).Some?
    ensures var (v, n) := ScanString(s).value; IsBody(s[..n], v, pieces)
    decreases |s|
  {
    hide Unescape, EscapeSpells;
    var (v, n) := ScanString(s).value;
    if s[0] == '"' {
      pieces := [];
      assert s[..1] == "" + "\"";
    } else if s[0] == '\\' {
      var (c, k) := Unescape(s[1..]).value;
      var rest := ScannedIsBody(s[1 + k..]);
      var p := s[..1 + k];
      pieces := [p] + rest;
      EscapeIs(s[1..], c, k);
      assert p[1..] == s[1..][..k] && s[..n] == p + s[1 + k..][..n - 1 - k];
      BodyFirst(p, c, s[1 + k..][..n - 1 - k], v[1..], rest);
    } else {
      var rest := ScannedIsBody(s[1..]);
      var p := s[..1];
      pieces := [p] + rest;
      assert s[..n] == p + s[1..][..n - 1] && p == [s[0]];
      BodyFirst(p, s[0], s[1..][..n - 1], v[1..], rest);
    }
  }

  lemma {:induction false} BodyIsScanned(s: string, n: nat, v: string, pieces: seq<string>)
    requires n <= |s| && IsBody(s[..n], v, pieces)
    ensures ScanString(s) == Some((v, n))
    decreases |pieces|
  {
    hide Unescape, EscapeSpells;
    if v == "" {
      assert s[..n] == "\"" && s[0] == s[..n][0];
    } else {
      var p, rest := pieces[0], pieces[1..];
      var k, t := |p|, Concat(rest) + "\"";
      assert Spells(p, v[0]);
      Assoc(p, Concat(rest), "\"");
      assert s[..n] == p + t;
      assert s[..k] == p && s[k..][..n - k] == t by {
        assert s[..n][..k] == p && s[..n][k..] == t && s[..n][..k] == s[..k] && s[..n][k..] == s[k..][..n - k];
      }
      assert forall i :: 0 <= i < |rest| ==> Spells(rest[i], v[1..][i]);
      BodyIsScanned(s[k..], n - k, v[1..], rest);
      assert s[0] == p[0];
      if k == 1 {
        assert v == [v[0]] + v[1..];
      } else {
        assert s[1..][..k - 1] == p[1..];
        EscapeIs(s[1..], v[0], k - 1);
        assert s[1 + (k - 1)..] == s[k..] && v == [v[0]] + v[1..];
      }
    }
  }

  /** A string is read exactly from the spellings of its characters and the quote after them. */
  lemma StringsAreSpelt(s: string, v: string, n: nat)
    ensures ScanString(s) == Some((v, n)) <==> n <= |s| && exists pieces :: IsBody(s[..n], v, pieces)
  {
    if ScanString(s) == Some((v, n)) {
      var pieces := ScannedIsBody(s);
    }
    if n <= |s| {
      if pieces :| IsBody(s[..n], v, pieces) { BodyIsScanned(s, n, v, pieces); }
    }
  }

  // ---- how strings are written ----

  /** The one spelling `json.dumps` uses: the character, else its letter, else four digits in lower case. */
  ghost predicate IsWritten(t: string, c: char) {
    if c as int >= 32 && c != '"' && c != '\\' then t == [c]
    else if exists x :: x != '/' && IsShort(x, c) then |t| == 2 && t[0] == '\\' && IsShort(t[1], c)
    else
      && |t| == 6 && t[..4] == "\\u00"
      && t[4] == "0123456789abcdef"[c as int / 16 % 16] && t[5] == "0123456789abcdef"[c as int % 16]
  }

  lemma EscapesAreWritten(c: char)
    ensures IsWritten(Escape(c), c)
  {
    hide HexDigit;
    if ShortEscape(c).Some? {
      assert IsShort(ShortEscape(c).value, c) && ShortEscape(c).value != '/';
    } else if c < ' ' {
      ControlsAreWritten(c);
    }
  }

  lemma ControlsAreWritten(c: char)
    requires c < ' ' && ShortEscape(c) == None
    ensures IsWritten(Escape(c), c)
  {
    var a, b := c as nat / 16, c as nat % 16;
    HexDigits(HexDigit(a), a);
    HexDigits(HexDigit(b), b);
    assert "0123456789abcdef"[a] == HexDigit(a) && "0123456789abcdef"[b] == HexDigit(b);
    hide HexDigit, HexValue, IsHexDigit;
    assert Escape(c)[..4] == "\\u00";
  }

  /** A written string is a quote, the spelling of each character in turn, and a quote. */
  lemma {:induction false} StringsAreWritten(v: string) returns (pieces: seq<string>)
    ensures EscapeAll(v) == Concat(pieces) && Dump(Str(v)) == "\"" + Concat(pieces) + "\""
    ensures |pieces| == |v| && forall i :: 0 <= i < |v| ==> IsWritten(pieces[i], v[i])
  {
    hide Escape, IsWritten;
    if v == "" {
      pieces := [];
    } else {
      var rest := StringsAreWritten(v[1..]);
      pieces := [Escape(v[0])] + rest;
      EscapesAreWritten(v[0]);
      Prepended(Escape(v[0]), rest);
    }
  }

  // ---- numbers ----

  ghost predicate IsFraction(t: string) { t == "" || (|t| >= 2 && t[0] == '.' && AllDigits(t[1..])) }

  ghost predicate IsPower(t: string) { t == "" || ((t[0] == 'e' || t[0] == 'E') && IsSigned(t[1..])) }

  /** Digits, with or without a sign. */
  ghost predicate IsSigned(t: string) {
    || (t != "" && AllDigits(t))
    || (|t| >= 2 && (t[0] == '+' || t[0] == '-') && AllDigits(t[1..]))
  }

  ghost predicate IsTail(t: string) { exists f, x :: t == f + x && IsFraction(f) && IsPower(x) }

  /** A minus or none, a whole number without leading zeros, a fraction or none and an exponent or none. */
  ghost predicate IsNumber(t: string, sign: string, whole: string, fraction: string, power: string) {
    && t == sign + (whole + (fraction + power)) && (sign == "" || sign == "-")
    && whole != "" && AllDigits(whole) && (whole[0] == '0' ==> whole == "0")
    && IsFraction(fraction) && IsPower(power)
  }

  /** The phase after a text. */
  function Run(q: Phase, t: string): Phase
    decreases |t|
  {
    if t == "" then q else Run(Next(q, t[0]), t[1..])
  }

  lemma StartOf(a: string, b: string)
    ensures if a == "" then a + b == b else (a + b)[0] == a[0]
  {
  }

  lemma {:induction false} StaysStuck(t: string)
    ensures Run(Stuck, t) == Stuck
  {
    if t != "" { StaysStuck(t[1..]); }
  }

  lemma {:induction false} RunConcat(q: Phase, a: string, b: string)
    ensures Run(q, a + b) == Run(Run(q, a), b)
    decreases |a|
  {
    if a == "" {
      assert a + b == b;
    } else {
      assert (a + b)[0] == a[0] && (a + b)[1..] == a[1..] + b;
      RunConcat(Next(q, a[0]), a[1..], b);
    }
  }

  lemma {:induction false} ExponentRun(t: string)
    ensures Run(Exponent, t) == if AllDigits(t) then Exponent else Stuck
  {
    if t != "" {
      ExponentRun(t[1..]);
      StaysStuck(t[1..]);
      Front(t);
    }
  }

  lemma PowerRun(t: string)
    ensures t != "" && (t[0] == 'e' || t[0] == 'E') ==> (Accepts(Run(Exp, t[1..])) <==> IsSigned(t[1..]))
  {
    if t != "" && (t[0] == 'e' || t[0] == 'E') && t[1..] != "" {
      var u := t[1..];
      ExponentRun(u[1..]);
      StaysStuck(u[1..]);
      Front(u);
      if u[1..] != "" {
        ExponentRun(u[1..][1..]);
        StaysStuck(u[1..][1..]);
        Front(u[1..]);
      }
    }
  }

  /** What may follow the digits of a fraction. */
  lemma {:induction false} FractionRun(t: string)
    ensures Accepts(Run(Fraction, t)) <==> exists d, x :: t == d + x && AllDigits(d) && IsPower(x)
  {
    if t == "" {
      assert t == "" + "" && IsPower("");
    } else {
      PowerRun(t);
      StaysStuck(t[1..]);
      if IsDigit(t[0]) {
        FractionRun(t[1..]);
        Front(t);
        if d, x :| t[1..] == d + x && AllDigits(d) && IsPower(x) {
          Assoc([t[0]], d, x);
          assert t == ([t[0]] + d) + x && AllDigits([t[0]] + d);
        }
        if d, x :| t == d + x && AllDigits(d) && IsPower(x) {
          StartOf(d, x);
          assert t[1..] == d[1..] + x;
        }
      } else {
        if IsPower(t) { assert t == "" + t; }
        if d, x :| t == d + x && AllDigits(d) && IsPower(x) {
          StartOf(d, x);
        }
      }
    }
  }

  /** What may follow the whole part. */
  lemma TailRun(t: string)
    ensures Accepts(Run(Zero, t)) <==> IsTail(t)
  {
    if t == "" {
      assert t == "" + "" && IsFraction("") && IsPower("");
    } else {
      PowerRun(t);
      StaysStuck(t[1..]);
      if t[0] == '.' {
        PointRun(t);
      } else {
        if IsPower(t) { assert t == "" + t; }
        if f, x :| t == f + x && IsFraction(f) && IsPower(x) {
          StartOf(f, x);
        }
      }
    }
  }

  lemma PointRun(t: string)
    requires t != "" && t[0] == '.'
    ensures Accepts(Run(Point, t[1..])) <==> IsTail(t)
  {
    var u := t[1..];
    Front(t);
    if u != "" {
      FractionRun(u[1..]);
      StaysStuck(u[1..]);
      if IsDigit(u[0]) {
        if d, x :| u[1..] == d + x && AllDigits(d) && IsPower(x) { FractionGrows(t, d, x); }
      }
    }
    if f, x :| t == f + x && IsFraction(f) && IsPower(x) { FractionShrinks(t, f, x); }
  }

  lemma FractionGrows(t: string, d: string, x: string)
    requires |t| >= 2 && t[0] == '.' && IsDigit(t[1]) && t[1..][1..] == d + x && AllDigits(d) && IsPower(x)
    ensures IsTail(t)
  {
    var f := ['.', t[1]] + d;
    assert t == f + x && f[1..] == [t[1]] + d;
    assert IsFraction(f);
  }

  lemma FractionShrinks(t: string, f: string, x: string)
    requires t != "" && t[0] == '.' && t == f + x && IsFraction(f) && IsPower(x)
    ensures |t| >= 2 && IsDigit(t[1]) && exists d :: t[1..][1..] == d + x && AllDigits(d)
  {
    StartOf(f, x);
    assert f[1..][0] == t[1];
    assert t[1..][1..] == f[1..][1..] + x && AllDigits(f[1..][1..]);
  }

  lemma {:induction false} WholeRun(t: string)
    ensures Accepts(Run(Whole, t)) <==> exists d, u :: t == d + u && AllDigits(d) && IsTail(u)
  {
    if t == "" {
      TailRun("");
      assert t == "" + "";
    } else if IsDigit(t[0]) {
      WholeRun(t[1..]);
      Front(t);
      if d, u :| t[1..] == d + u && AllDigits(d) && IsTail(u) {
        Assoc([t[0]], d, u);
        assert t == ([t[0]] + d) + u && AllDigits([t[0]] + d);
      }
      if d, u :| t == d + u && AllDigits(d) && IsTail(u) {
        StartOf(d, u);
        if d == "" {
          TailStart(u);
        }
        assert t[1..] == d[1..] + u;
      }
    } else {
      TailRun(t);
      StaysStuck(t[1..]);
      assert Run(Whole, t) == Run(Zero, t);
      if IsTail(t) { assert t == "" + t; }
      if d, u :| t == d + u && AllDigits(d) && IsTail(u) {
        StartOf(d, u);
      }
    }
  }

  lemma TailStart(u: string)
    requires IsTail(u) && u != ""
    ensures !IsDigit(u[0])
  {
    var f, x :| u == f + x && IsFraction(f) && IsPower(x);
    StartOf(f, x);
  }

  /** An unsigned number, cut after its whole part. */
  ghost predicate IsPlainSplit(t: string, whole: string, u: string) {
    t == whole + u && whole != "" && AllDigits(whole) && (whole[0] == '0' ==> whole == "0") && IsTail(u)
  }

  lemma PlainFromZero(t: string)
    requires t != "" && t[0] == '0'
    ensures IsTail(t[1..]) <==> exists whole, u :: IsPlainSplit(t, whole, u)
  {
    Front(t);
    if IsTail(t[1..]) { assert IsPlainSplit(t, "0", t[1..]); }
    if whole, u :| IsPlainSplit(t, whole, u) {
      StartOf(whole, u);
      assert t[1..] == u;
    }
  }

  lemma PlainFromDigit(t: string)
    requires t != "" && IsDigit(t[0]) && t[0] != '0'
    ensures (exists d, u :: t[1..] == d + u && AllDigits(d) && IsTail(u)) <==>
              exists whole, u :: IsPlainSplit(t, whole, u)
  {
    hide IsTail;
    Front(t);
    if d, u :| t[1..] == d + u && AllDigits(d) && IsTail(u) {
      Assoc([t[0]], d, u);
      assert IsPlainSplit(t, [t[0]] + d, u);
    }
    if whole, u :| IsPlainSplit(t, whole, u) {
      assert t[1..] == whole[1..] + u && AllDigits(whole[1..]);
    }
  }

  lemma PlainRun(t: string)
    requires t != ""
    ensures Accepts(Run(Minus, t)) <==> exists whole, u :: IsPlainSplit(t, whole, u)
    ensures t[0] != '-' ==> Run(Begin, t) == Run(Minus, t)
  {
    StaysStuck(t[1..]);
    if t[0] == '0' {
      TailRun(t[1..]);
      PlainFromZero(t);
    } else if IsDigit(t[0]) {
      WholeRun(t[1..]);
      PlainFromDigit(t);
    } else {
      forall whole, u ensures !IsPlainSplit(t, whole, u) {
        StartOf(whole, u);
      }
    }
  }

  /** The automaton accepts exactly the numbers. */
  lemma NumbersAreAccepted(t: string)
    ensures Accepts(Run(Begin, t)) <==> exists sign, whole, fraction, power :: IsNumber(t, sign, whole, fraction, power)
  {
    if t != "" && t[0] == '-' {
      if t[1..] != "" {
        PlainRun(t[1..]);
        Front(t);
        if whole, u :| IsPlainSplit(t[1..], whole, u) {
          var f, x :| u == f + x && IsFraction(f) && IsPower(x);
          assert IsNumber(t, "-", whole, f, x);
        }
      }
    } else if t != "" {
      PlainRun(t);
      if whole, u :| IsPlainSplit(t, whole, u) {
        var f, x :| u == f + x && IsFraction(f) && IsPower(x);
        assert "" + (whole + (f + x)) == t;
        assert IsNumber(t, "", whole, f, x);
      }
    }
    forall sign, whole, fraction, power | IsNumber(t, sign, whole, fraction, power) ensures Accepts(Run(Begin, t)) {
      NumberRuns(t, sign, whole, fraction, power);
    }
  }

  lemma NumberRuns(t: string, sign: string, whole: string, fraction: string, power: string)
    requires IsNumber(t, sign, whole, fraction, power)
    ensures Accepts(Run(Begin, t))
  {
    var u := whole + (fraction + power);
    assert IsTail(fraction + power) && IsPlainSplit(u, whole, fraction + power);
    StartOf(whole, fraction + power);
    PlainRun(u);
    if sign == "-" {
      assert t[0] == '-' && t[1..] == u;
    } else {
      assert t == u;
    }
  }

  /** The scanner takes the longest stretch the automaton accepts. */
  /** Every stretch of a text up to `k` is accepted or not in step with one phase and character further on. */
  lemma RunsOn(s: string, q: Phase, k: nat)
    requires k < |s|
    ensures Run(q, s[..k + 1]) == Run(Next(q, s[0]), s[1..][..k])
  {
    TakeFront(s, k + 1);
    Prepended(s[0], s[1..][..k]);
  }

  ghost predicate IsLongestRun(s: string, q: Phase, n: nat) {
    n <= |s| && Accepts(Run(q, s[..n])) && forall m: nat :: n < m <= |s| ==> !Accepts(Run(q, s[..m]))
  }

  ghost predicate NeverAccepts(s: string, q: Phase) { forall m: nat :: m <= |s| ==> !Accepts(Run(q, s[..m])) }

  lemma LongerRun(s: string, q: Phase, k: nat)
    requires s != ""
    ensures IsLongestRun(s, q, k + 1) <==> IsLongestRun(s[1..], Next(q, s[0]), k)
    ensures NeverAccepts(s[1..], Next(q, s[0])) && Accepts(q) <==> IsLongestRun(s, q, 0)
    ensures NeverAccepts(s[1..], Next(q, s[0])) && !Accepts(q) <==> NeverAccepts(s, q)
  {
    hide Accepts;
    forall j: nat | j < |s| ensures Run(q, s[..j + 1]) == Run(Next(q, s[0]), s[1..][..j]) { RunsOn(s, q, j); }
    hide Run;
    assert s[..0] == "" && Run(q, "") == q by { EmptyRun(q); }
    var u, q' := s[1..], Next(q, s[0]);
    forall m: nat | 0 < m <= |s| ensures Run(q, s[..m]) == Run(q', u[..m - 1]) {
      assert s[..(m - 1) + 1] == s[..m];
    }
    forall m: nat | m <= |u| ensures Run(q', u[..m]) == Run(q, s[..m + 1]) {}
  }

  lemma EmptyRun(q: Phase)
    ensures Run(q, "") == q
  {
  }

  /** The scanner takes the longest stretch the automaton accepts. */
  lemma {:induction false} MunchIsLongest(s: string, q: Phase)
    ensures match Munch(s, q)
            case Some((n, f)) => IsLongestRun(s, q, n) && f == Run(q, s[..n])
            case None => NeverAccepts(s, q)
    decreases |s|
  {
    if s == "" {
      assert s[..0] == "";
    } else if Next(q, s[0]) == Stuck {
      forall m: nat | m <= |s[1..]| ensures Run(Stuck, s[1..][..m]) == Stuck { StaysStuck(s[1..][..m]); }
      LongerRun(s, q, 0);
      assert s[..0] == "";
    } else {
      var q', u := Next(q, s[0]), s[1..];
      MunchIsLongest(u, q');
      assert s[..0] == "";
      match Munch(u, q')
      case Some((k, g)) =>
        LongerRun(s, q, k);
        RunsOn(s, q, k);
      case None => LongerRun(s, q, 0);
    }
  }

  // ---- whole numbers ----

  /** Past the whole part, the automaton does not come back to it. */
  predicate IsLate(q: Phase) { !q.Begin? && !q.Minus? && !q.Zero? && !q.Whole? }

  lemma {:induction false} LateStays(q: Phase, t: string)
    requires IsLate(q)
    ensures IsLate(Run(q, t))
    decreases |t|
  {
    if t != "" { LateStays(Next(q, t[0]), t[1..]); }
  }

  lemma {:induction false} DigitsStayWhole(d: string)
    requires AllDigits(d)
    ensures Run(Whole, d) == Whole
  {
    if d != "" { DigitsStayWhole(d[1..]); }
  }

  lemma WholeEnds(sign: string, whole: string)
    requires (sign == "" || sign == "-") && whole != "" && AllDigits(whole) && (whole[0] == '0' ==> whole == "0")
    ensures Run(Begin, sign + whole) == if whole == "0" then Zero else Whole
  {
    RunConcat(Begin, sign, whole);
    if whole[0] != '0' { DigitsStayWhole(whole[1..]); }
  }

  ghost predicate IsWhole(t: string) { exists sign, whole :: IsNumber(t, sign, whole, "", "") }

  lemma WholesStayEarly(t: string, sign: string, whole: string, fraction: string, power: string)
    requires IsNumber(t, sign, whole, fraction, power)
    ensures IsLate(Run(Begin, t)) <==> fraction + power != ""
  {
    var rest := fraction + power;
    Assoc(sign, whole, rest);
    RunConcat(Begin, sign + whole, rest);
    WholeEnds(sign, whole);
    if rest != "" {
      StartOf(fraction, power);
      LateStays(Next(Run(Begin, sign + whole), rest[0]), rest[1..]);
    }
  }

  lemma WholesAre(t: string)
    requires Accepts(Run(Begin, t))
    ensures IsLate(Run(Begin, t)) <==> !IsWhole(t)
  {
    hide IsNumber, Run;
    NumbersAreAccepted(t);
    forall sign, whole, fraction, power | IsNumber(t, sign, whole, fraction, power)
      ensures IsLate(Run(Begin, t)) <==> fraction + power != ""
    {
      WholesStayEarly(t, sign, whole, fraction, power);
    }
    var sign, whole, fraction, power :| IsNumber(t, sign, whole, fraction, power);
    if fraction + power == "" {
      assert fraction == "" && power == "";
    }
    if IsWhole(t) {
      var sign', whole' :| IsNumber(t, sign', whole', "", "");
      assert "" + "" == "";
    }
  }

  lemma WholeValue(t: string, sign: string, whole: string)
    requires IsNumber(t, sign, whole, "", "")
    ensures IntValue(t) == if sign == "" then Number(whole) else 0 - Number(whole)
  {
    assert whole + ("" + "") == whole && t == sign + whole;
    IntValueIsNumber(whole);
  }

  // ---- scalars ----

  ghost predicate IsLiteral(w: string) { w in {"null", "true", "false", "NaN", "Infinity", "-Infinity"} }

  lemma LiteralsAre(s: string, w: string)
    ensures LiteralAt(s) == Some(w) <==> IsLiteral(w) && w <= s
  {
    assert IsLiteral(w) <==> w in LITERALS;
    if IsLiteral(w) && w <= s {
      forall word | word in LITERALS ensures StartsWith(s, word) <==> word == w {
        StartsWithPrefix(s, word);
        assert s[0] == w[0];
      }
      LiteralIs(s, w);
    }
    if LiteralAt(s) == Some(w) { StartsWithPrefix(s, w); }
  }

  /** A number, and as long a one as the text begins with. */
  ghost predicate IsLongest(s: string, n: nat)
    requires n <= |s|
  {
    && (exists sign, whole, fraction, power :: IsNumber(s[..n], sign, whole, fraction, power))
    && forall m, sign, whole, fraction, power :: n < m <= |s| ==> !IsNumber(s[..m], sign, whole, fraction, power)
  }

  lemma MunchedIsLongest(s: string, n: nat)
    ensures (Munch(s, Begin).Some? && NumberLength(s) == n) <==> n <= |s| && IsLongest(s, n)
    ensures Munch(s, Begin).Some? && NumberLength(s) == n ==>
              n <= |s| && Munch(s, Begin) == Some((n, Run(Begin, s[..n]))) && Accepts(Run(Begin, s[..n]))
  {
    hide Munch, Run, IsNumber, Accepts;
    forall m: nat | m <= |s|
      ensures Accepts(Run(Begin, s[..m])) <==>
                exists sign, whole, fraction, power :: IsNumber(s[..m], sign, whole, fraction, power)
    {
      NumbersAreAccepted(s[..m]);
    }
    MunchIsLongest(s, Begin);
  }

  /** A scalar at the start of a text: its value and its length. */
  ghost predicate IsScalarAt(s: string, v: Scalar, n: nat) {
    n <= |s| &&
    match v
    case Str(x) => n >= 1 && s[0] == '"' && exists pieces :: IsBody(s[1..n], x, pieces)
    case Literal(w) => IsLiteral(w) && s[..n] == w
    case Int(k) =>
      IsLongest(s, n) && exists sign, whole ::
        IsNumber(s[..n], sign, whole, "", "") && k == if sign == "" then Number(whole) else 0 - Number(whole)
    case Real(text) => IsLongest(s, n) && text == s[..n] && !IsWhole(text)
  }

  lemma NumbersAre(s: string, v: Scalar, n: nat)
    requires v.Int? || v.Real?
    ensures Munch(s, Begin).Some? && NumberLength(s) == n && NumberValue(s) == v <==> IsScalarAt(s, v, n)
  {
    hide Munch, Run, IsLongest, IntValue, Number;
    MunchedIsLongest(s, n);
    if n <= |s| && IsLongest(s, n) {
      var t := s[..n];
      WholesAre(t);
      forall sign, whole | IsNumber(t, sign, whole, "", "")
        ensures IntValue(t) == if sign == "" then Number(whole) else 0 - Number(whole)
      {
        WholeValue(t, sign, whole);
      }
    }
  }

  lemma NumberStart(s: string, n: nat)
    requires n <= |s| && IsLongest(s, n)
    ensures s != "" && s[0] != '"' && LiteralAt(s) == None
  {
    MunchedIsLongest(s, n);
    MunchSome(s);
    NumberIsNoLiteral(s);
  }

  lemma StringsAreRead(s: string, x: string, n: nat)
    ensures ScanScalar(s) == Some((Str(x), n)) <==> IsScalarAt(s, Str(x), n)
  {
    hide Munch, IsBody, ScanString, LiteralAt;
    if s != "" && n >= 1 {
      StringsAreSpelt(s[1..], x, n - 1);
      if n <= |s| { assert s[1..][..n - 1] == s[1..n]; }
    }
  }

  lemma LiteralsAreRead(s: string, w: string, n: nat)
    ensures ScanScalar(s) == Some((Literal(w), n)) <==> IsScalarAt(s, Literal(w), n)
  {
    hide Munch, ScanString, LiteralAt, IsLiteral;
    LiteralsAre(s, w);
    LiteralStart(w);
    if IsLiteral(w) && n <= |s| && s[..n] == w { assert w <= s && s[0] == w[0]; }
    if w <= s && n == |w| { assert s[..n] == w; }
  }

  lemma NumbersAreRead(s: string, v: Scalar, n: nat)
    requires v.Int? || v.Real?
    ensures ScanScalar(s) == Some((v, n)) <==> IsScalarAt(s, v, n)
  {
    hide Munch, IsLongest, ScanString, LiteralAt, NumberValue, NumberLength, IsNumber, IsWhole, Number;
    NumbersAre(s, v, n);
    if IsScalarAt(s, v, n) { NumberStart(s, n); }
  }

  lemma LiteralStart(w: string)
    ensures IsLiteral(w) ==> w != "" && w[0] != '"'
  {
  }

  /** The scanner reads exactly the scalars: strings, literals, and numbers as long as they go. */
  lemma ScalarsAreRead(s: string, v: Scalar, n: nat)
    ensures ScanScalar(s) == Some((v, n)) <==> IsScalarAt(s, v, n)
  {
    hide ScanScalar, IsScalarAt;
    match v
    case Str(x) => StringsAreRead(s, x, n);
    case Literal(w) => LiteralsAreRead(s, w, n);
    case _ => NumbersAreRead(s, v, n);
  }
}
