// Release identities and the version numbers other systems are given for them.
module Versions {
  import opened Wrappers
  import opened Decimal

  datatype Version = Version(major: nat, minor: nat, patch: nat)

  datatype Channel = Nightly | Beta | Rc | Stable

  datatype Sequence = Absent | Count(n: int) | Text(s: string)

  function Base(v: Version): string {
    Digits(v.major) + "." + Digits(v.minor) + "." + Digits(v.patch)
  }

  /** The strict `X.Y.Z` pattern, without leading zeros. */
  function ParseBase(s: string): Option<Version> {
    var (a, r) := Cut(s, '.');
    if r.None? then None else
      var (b, t) := Cut(r.value, '.');
      if t.None? then None else
        if IsNumeral(a) && IsNumeral(b) && IsNumeral(t.value)
        then Some(Version(Number(a), Number(b), Number(t.value))) else None
  }

  predicate IsBase(s: string) { ParseBase(s).Some? }

  lemma ParseOfBase(v: Version)
    ensures ParseBase(Base(v)) == Some(v)
  {
    var a, b, c := Digits(v.major), Digits(v.minor), Digits(v.patch);
    NumberOfDigits(v.major);
    NumberOfDigits(v.minor);
    NumberOfDigits(v.patch);
    assert Base(v) == a + ['.'] + (b + ['.'] + c);
    CutJoined(a, '.', b + ['.'] + c);
    CutJoined(b, '.', c);
  }

  lemma BaseOfParse(s: string)
    requires IsBase(s)
    ensures Base(ParseBase(s).value) == s
    ensures Lacks(s, '-')
  {
    var (a, r) := Cut(s, '.');
    var (b, t) := Cut(r.value, '.');
    DigitsOfNumber(a);
    DigitsOfNumber(b);
    DigitsOfNumber(t.value);
    assert s == a + "." + (b + "." + t.value);
  }

  function ChannelName(c: Channel): (s: string)
    ensures Lacks(s, '.') && Lacks(s, '-')
  {
    match c case Nightly => "nightly" case Beta => "beta" case Rc => "rc" case Stable => "stable"
  }

  // ---- nightly suffixes ----

  predicate IsLeap(year: nat) { year % 4 == 0 && (year % 100 != 0 || year % 400 == 0) }

  function DaysIn(year: nat, month: nat): nat {
    if month == 2 then (if IsLeap(year) then 29 else 28)
    else if month in {4, 6, 9, 11} then 30 else 31
  }

  /** Fourteen digits that name a real moment: `%Y%m%d%H%M%S`. */
  predicate IsTimestamp(s: string) {
    |s| == 14 && AllDigits(s) &&
    var year, month := Number(s[..4]), Number(s[4..6]);
    && 1 <= year && 1 <= month <= 12
    && 1 <= Number(s[6..8]) <= DaysIn(year, month)
    && Number(s[8..10]) < 24 && Number(s[10..12]) < 60 && Number(s[12..]) < 60
  }

  /** A nightly suffix `timestamp.run.attempt`, taken apart. */
  function SplitNightly(s: string): Option<(string, string, string)> {
    var (stamp, r) := Cut(s, '.');
    if r.None? then None else
      var (run, t) := Cut(r.value, '.');
      if t.None? then None else
        if IsTimestamp(stamp) && IsPositive(run) && IsPositive(t.value) then Some((stamp, run, t.value)) else None
  }

  function NightlySuffix(stamp: string, run: nat, attempt: nat): string {
    stamp + "." + Digits(run) + "." + Digits(attempt)
  }

  lemma SplitOfSuffix(stamp: string, run: nat, attempt: nat)
    requires IsTimestamp(stamp) && run > 0 && attempt > 0
    ensures SplitNightly(NightlySuffix(stamp, run, attempt)) == Some((stamp, Digits(run), Digits(attempt)))
  {
    hide Number, Digits;
    NumberOfDigits(run);
    NumberOfDigits(attempt);
    assert NightlySuffix(stamp, run, attempt) == stamp + ['.'] + (Digits(run) + ['.'] + Digits(attempt));
    CutJoined(stamp, '.', Digits(run) + ['.'] + Digits(attempt));
    CutJoined(Digits(run), '.', Digits(attempt));
  }

  // ---- identities ----

  function SequenceText(channel: Channel, sequence: Sequence): Option<string> {
    match (channel, sequence)
    case (Nightly, Text(s)) => if SplitNightly(s).Some? then Some(s) else None
    case (Beta, Count(n)) => if n > 0 then Some(Digits(n)) else None
    case (Rc, Count(n)) => if n > 0 then Some(Digits(n)) else None
    case _ => None
  }

  function Identity(base: string, channel: Channel, sequence: Sequence): Option<string> {
    if !IsBase(base) then None
    else if channel.Stable? then (if sequence.Absent? then Some(base) else None)
    else match SequenceText(channel, sequence)
      case None => None
      case Some(text) => Some(base + "-" + ChannelName(channel) + "." + text)
  }

  lemma CutIdentity(base: string, channel: Channel, sequence: Sequence)
    requires Identity(base, channel, sequence).Some?
    ensures var (front, r) := Cut(Identity(base, channel, sequence).value, '-');
            && front == base
            && (r.None? <==> channel.Stable?)
            && (r.Some? ==> Cut(r.value, '.') == (ChannelName(channel), Some(SequenceText(channel, sequence).value)))
  {
    BaseOfParse(base);
    if channel.Stable? {
      CutWhole(base, '-');
    } else {
      var name, text := ChannelName(channel), SequenceText(channel, sequence).value;
      assert base + "-" + name + "." + text == base + ['-'] + (name + ['.'] + text);
      CutJoined(base, '-', name + ['.'] + text);
      CutJoined(name, '.', text);
    }
  }

  /** No two releases share a version string, hence none share a tag. */
  lemma IdentityInjective(b1: string, c1: Channel, s1: Sequence, b2: string, c2: Channel, s2: Sequence)
    requires Identity(b1, c1, s1).Some? && Identity(b1, c1, s1) == Identity(b2, c2, s2)
    ensures b1 == b2 && c1 == c2 && s1 == s2
  {
    CutIdentity(b1, c1, s1);
    CutIdentity(b2, c2, s2);
    if !c1.Stable? {
      assert ChannelName(c1) == ChannelName(c2) && |ChannelName(c1)| == |ChannelName(c2)|;
      if s1.Count? { DigitsInjective(s1.n, s2.n); }
    }
  }

  // ---- projections ----

  datatype Promotion = PromoteBytes | FinalBuild

  const MAX_ATTEMPT := 1_000_000
  const MAX_PEP440 := 0x1_0000_0000_0000_0000 - 2
  const MAX_APPLE := 99_990_000

  /** The single number a nightly run and attempt become in a PEP 440 version. */
  function DevNumber(run: nat, attempt: nat): Option<nat> {
    var number := run * MAX_ATTEMPT + attempt;
    if attempt < MAX_ATTEMPT && number <= MAX_PEP440 then Some(number) else None
  }

  /** Among accepted runs and attempts the number orders them by run, then attempt, and tells them apart. */
  lemma DevNumberOrders(r1: nat, a1: nat, r2: nat, a2: nat)
    requires DevNumber(r1, a1).Some? && DevNumber(r2, a2).Some?
    ensures DevNumber(r1, a1).value < DevNumber(r2, a2).value <==> r1 < r2 || (r1 == r2 && a1 < a2)
    ensures DevNumber(r1, a1) == DevNumber(r2, a2) <==> r1 == r2 && a1 == a2
  {
    if r1 < r2 { assert (r1 + 1) * MAX_ATTEMPT <= r2 * MAX_ATTEMPT; }
    if r2 < r1 { assert (r2 + 1) * MAX_ATTEMPT <= r1 * MAX_ATTEMPT; }
  }

  /** The package version in one ecosystem; `None` where the projection is refused. */
  function Package(base: string, channel: Channel, sequence: Sequence, promotion: Promotion,
                   pep440: bool): Option<string>
    requires Identity(base, channel, sequence).Some?
  {
    if channel.Rc? && promotion.PromoteBytes? then Some(base)
    else if !pep440 then Identity(base, channel, sequence)
    else match channel
      case Stable => Some(base)
      case Beta => Some(base + "b" + Digits(sequence.n))
      case Rc => Some(base + "rc" + Digits(sequence.n))
      case Nightly =>
        var (_, run, attempt) := SplitNightly(sequence.s).value;
        match DevNumber(Number(run), Number(attempt))
        case None => None
        case Some(number) => Some(base + ".dev" + Digits(number))
  }

  datatype Triple = Triple(a: nat, b: nat, c: nat)

  predicate IsApple(t: Triple) { 1 <= t.a <= 9999 && t.b < 100 && t.c < 100 }

  predicate TripleLess(s: Triple, t: Triple) {
    s.a < t.a || (s.a == t.a && (s.b < t.b || (s.b == t.b && s.c < t.c)))
  }

  /** The three numbers Apple platforms are given for a native build number. */
  function AppleBuild(build: nat): Option<Triple> {
    if 0 < build <= MAX_APPLE then
      var n := build - 1;
      Some(Triple(n / 10000 + 1, n / 100 % 100, n % 100))
    else None
  }

  function FromApple(t: Triple): int { (t.a - 1) * 10000 + t.b * 100 + t.c + 1 }

  lemma Hundreds(n: nat)
    ensures n == n / 10000 * 10000 + n / 100 % 100 * 100 + n % 100
  {
    assert n / 100 / 100 == n / 10000;
  }

  /** Every build number in range has its own triple, and every triple in range is used. */
  lemma AppleIsBijective(build: nat, t: Triple)
    ensures AppleBuild(build) == Some(t) <==> IsApple(t) && build == FromApple(t)
  {
    if 0 < build <= MAX_APPLE {
      var n := build - 1;
      Hundreds(n);
    }
    if IsApple(t) && build == FromApple(t) {
      var n := build - 1;
      Hundreds(n);
      assert n / 10000 == t.a - 1 && n / 100 % 100 == t.b && n % 100 == t.c by {
        assert n / 100 == (t.a - 1) * 100 + t.b;
      }
    }
  }

  lemma AppleIsOrdered(m: nat, n: nat)
    requires AppleBuild(m).Some? && AppleBuild(n).Some?
    ensures m < n <==> TripleLess(AppleBuild(m).value, AppleBuild(n).value)
  {
    AppleIsBijective(m, AppleBuild(m).value);
    AppleIsBijective(n, AppleBuild(n).value);
  }

  // ---- the archive validator's own mapping ----

  /** What the native archive's version file must be called in Python metadata. */
  function ExpectedPython(version: string): Option<string> {
    var (base, r) := Cut(version, '-');
    if !IsBase(base) then None
    else if r.None? then Some(base)
    else
      var (name, t) := Cut(r.value, '.');
      if t.None? then None
      else if name == "beta" then (if IsPositive(t.value) then Some(base + "b" + t.value) else None)
      else if name == "nightly" then
        match SplitNightly(t.value)
        case None => None
        case Some(parts) =>
          match DevNumber(Number(parts.1), Number(parts.2))
          case None => None
          case Some(number) => Some(base + ".dev" + Digits(number))
      else None
  }

  /**
   * The validator maps a release's package string to its PEP 440 form, or both refuse it, for
   * every release but the candidates of a final-build profile, which only the projection accepts.
   */
  lemma ValidatorAgrees(base: string, channel: Channel, sequence: Sequence, promotion: Promotion)
    requires Identity(base, channel, sequence).Some?
    ensures (ExpectedPython(Package(base, channel, sequence, promotion, false).value)
             == Package(base, channel, sequence, promotion, true))
        <==> !(channel.Rc? && promotion.FinalBuild?)
  {
    BaseOfParse(base);
    CutIdentity(base, channel, sequence);
    CutWhole(base, '-');
    match channel
    case Beta => NumberOfDigits(sequence.n);
    case _ =>
  }
}
