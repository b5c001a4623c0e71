// How every release and package version is spelt, and when a plan is created and accepted, with
// each character and limit written out.
module VersionForms {
  import opened Wrappers
  import opened Decimal
  import opened Versions
  import opened Plans

  /** A base is three numbers in decimal, with dots between them. */
  ghost predicate IsTriple(base: string, major: nat, minor: nat, patch: nat) {
    base == Digits(major) + "." + Digits(minor) + "." + Digits(patch)
  }

  lemma BasesAreTriples(base: string)
    ensures IsBase(base) <==> exists major, minor, patch :: IsTriple(base, major, minor, patch)
  {
    if IsBase(base) {
      BaseOfParse(base);
      var v := ParseBase(base).value;
      assert IsTriple(base, v.major, v.minor, v.patch);
    }
    if major, minor, patch :| IsTriple(base, major, minor, patch) {
      ParseOfBase(Version(major, minor, patch));
    }
  }

  // ---- moments ----

  const MONTHS := [31, 28, 31, 30, 31, 30, 31, 31, 30, 31, 30, 31]

  /** A day of the Gregorian calendar. */
  ghost predicate IsDay(year: nat, month: nat, day: nat) {
    && 1 <= year && 1 <= month <= 12 && 1 <= day
    && (day <= MONTHS[month - 1] || (month == 2 && day == 29 && year % (if year % 100 == 0 then 400 else 4) == 0))
  }

  lemma Quarters(k: nat)
    ensures 4 * k % 4 == 0 && 100 * k % 100 == 0
  {
  }

  lemma LeapYears(year: nat)
    ensures IsLeap(year) <==> year % (if year % 100 == 0 then 400 else 4) == 0
  {
    if year % 400 == 0 {
      Quarters(4 * (year / 400));
      assert year == 100 * (4 * (year / 400));
    }
    if year % 100 == 0 {
      Quarters(25 * (year / 100));
      assert year == 4 * (25 * (year / 100));
    }
  }

  lemma DaysAreGregorian(year: nat, month: nat, day: nat)
    requires 1 <= year && 1 <= month <= 12
    ensures 1 <= day <= DaysIn(year, month) <==> IsDay(year, month, day)
  {
    hide IsLeap;
    LeapYears(year);
  }

  /** A time stamp is fourteen digits: a day, and an hour, minute and second of it. */
  lemma TimestampsAreMoments(s: string)
    ensures IsTimestamp(s) <==>
              && |s| == 14 && (forall i :: 0 <= i < 14 ==> '0' <= s[i] <= '9')
              && IsDay(Number(s[..4]), Number(s[4..6]), Number(s[6..8]))
              && Number(s[8..10]) <= 23 && Number(s[10..12]) <= 59 && Number(s[12..]) <= 59
  {
    hide Number;
    if |s| == 14 && AllDigits(s) {
      var year, month := Number(s[..4]), Number(s[4..6]);
      if 1 <= year && 1 <= month <= 12 {
        DaysAreGregorian(year, month, Number(s[6..8]));
      }
    }
  }

  /** What a nightly suffix is made of. */
  ghost predicate IsNightly(s: string, stamp: string, run: nat, attempt: nat) {
    && IsTimestamp(stamp) && run > 0 && attempt > 0
    && s == stamp + "." + Digits(run) + "." + Digits(attempt)
  }

  lemma NightliesAreStamped(s: string)
    ensures SplitNightly(s).Some? <==> exists stamp, run, attempt :: IsNightly(s, stamp, run, attempt)
    ensures forall stamp, run, attempt :: IsNightly(s, stamp, run, attempt) ==>
              SplitNightly(s) == Some((stamp, Digits(run), Digits(attempt)))
  {
    hide IsTimestamp, Digits, Number;
    if SplitNightly(s).Some? {
      var (stamp, run, attempt) := SplitNightly(s).value;
      NumberIsPositive(run);
      NumberIsPositive(attempt);
      DigitsOfNumber(run);
      DigitsOfNumber(attempt);
      assert s == stamp + "." + (run + "." + attempt);
      assert IsNightly(s, stamp, Number(run), Number(attempt));
    }
    forall stamp, run, attempt | IsNightly(s, stamp, run, attempt)
      ensures SplitNightly(s) == Some((stamp, Digits(run), Digits(attempt)))
    {
      SplitOfSuffix(stamp, run, attempt);
    }
  }

  // ---- release versions ----

  /** The version of a release, by channel. */
  ghost predicate Spells(version: string, base: string, channel: Channel, sequence: Sequence) {
    match channel
    case Stable => sequence == Absent && version == base
    case Beta => sequence.Count? && sequence.n > 0 && version == base + "-beta." + Digits(sequence.n)
    case Rc => sequence.Count? && sequence.n > 0 && version == base + "-rc." + Digits(sequence.n)
    case Nightly =>
      sequence.Text? && (exists stamp, run, attempt :: IsNightly(sequence.s, stamp, run, attempt))
      && version == base + "-nightly." + sequence.s
  }

  lemma VersionsAreSpelt(base: string, channel: Channel, sequence: Sequence, version: string)
    ensures Identity(base, channel, sequence) == Some(version) <==>
              (exists major, minor, patch :: IsTriple(base, major, minor, patch))
              && Spells(version, base, channel, sequence)
  {
    hide SplitNightly, IsNightly, IsTriple, Digits, IsBase;
    BasesAreTriples(base);
    if channel.Nightly? && sequence.Text? {
      NightliesAreStamped(sequence.s);
    }
    assert base + "-" + "beta" + "." == base + "-beta.";
    assert base + "-" + "rc" + "." == base + "-rc.";
    assert base + "-" + "nightly" + "." == base + "-nightly.";
  }

  // ---- package versions ----

  /** A byte-promoted candidate is packaged under its base, and otherwise a package is called what its release is. */
  lemma PlainPackages(base: string, channel: Channel, sequence: Sequence, promotion: Promotion, pep440: bool)
    requires Identity(base, channel, sequence).Some?
    ensures channel.Rc? && promotion.PromoteBytes? ==>
              Package(base, channel, sequence, promotion, pep440) == Some(base)
    ensures !(channel.Rc? && promotion.PromoteBytes?) && !pep440 ==>
              exists version :: Package(base, channel, sequence, promotion, pep440) == Some(version)
                                && Spells(version, base, channel, sequence)
  {
    VersionsAreSpelt(base, channel, sequence, Identity(base, channel, sequence).value);
  }

  /** The PEP 440 versions of numbered releases. */
  lemma PythonPackages(base: string, sequence: Sequence, promotion: Promotion)
    ensures Identity(base, Stable, sequence).Some? ==> Package(base, Stable, sequence, promotion, true) == Some(base)
    ensures Identity(base, Beta, sequence).Some? ==>
              sequence.Count? && sequence.n > 0
              && Package(base, Beta, sequence, promotion, true) == Some(base + "b" + Digits(sequence.n))
    ensures Identity(base, Rc, sequence).Some? ==>
              sequence.Count? && sequence.n > 0
              && Package(base, Rc, sequence, FinalBuild, true) == Some(base + "rc" + Digits(sequence.n))
  {
  }

  /** And of nightlies: refused exactly when run and attempt do not fit one number below 2^64 - 1. */
  lemma NightlyPackages(base: string, sequence: Sequence, promotion: Promotion, stamp: string, run: nat, attempt: nat)
    requires Identity(base, Nightly, sequence).Some? && IsNightly(sequence.s, stamp, run, attempt)
    ensures Package(base, Nightly, sequence, promotion, true) ==
              var number := run * 1_000_000 + attempt;
              if attempt <= 999_999 && number <= 18_446_744_073_709_551_614 then Some(base + ".dev" + Digits(number))
              else None
  {
    hide Digits, Number;
    NightliesAreStamped(sequence.s);
    NumberOfDigits(run);
    NumberOfDigits(attempt);
  }

  // ---- the archive validator ----

  ghost predicate IsBetaOf(version: string, python: string, base: string, n: nat) {
    IsBase(base) && n >= 1 && version == base + "-beta." + Digits(n) && python == base + "b" + Digits(n)
  }

  ghost predicate IsNightlyOf(version: string, python: string, base: string, stamp: string, run: nat, attempt: nat) {
    && IsBase(base) && IsTimestamp(stamp) && run >= 1 && 1 <= attempt <= 999_999
    && run * 1_000_000 + attempt <= 18_446_744_073_709_551_614
    && version == base + "-nightly." + (stamp + "." + Digits(run) + "." + Digits(attempt))
    && python == base + ".dev" + Digits(run * 1_000_000 + attempt)
  }

  lemma CutVersion(base: string, name: string, rest: string)
    requires IsBase(base) && Lacks(name, '.')
    ensures Cut(base + "-" + name + "." + rest, '-') == (base, Some(name + "." + rest))
    ensures Cut(name + "." + rest, '.') == (name, Some(rest))
  {
    BaseOfParse(base);
    assert base + "-" + name + "." + rest == base + ['-'] + (name + "." + rest);
    CutJoined(base, '-', name + "." + rest);
    CutJoined(name, '.', rest);
  }

  lemma BetasAreMapped(version: string, python: string, base: string, n: nat)
    requires IsBetaOf(version, python, base, n)
    ensures ExpectedPython(version) == Some(python)
  {
    hide Digits, Number, SplitNightly, IsBase;
    CutVersion(base, "beta", Digits(n));
    assert base + "-" + "beta" + "." + Digits(n) == base + "-beta." + Digits(n);
    NumberOfDigits(n);
  }

  lemma NightliesAreMapped(version: string, python: string, base: string, stamp: string, run: nat, attempt: nat)
    requires IsNightlyOf(version, python, base, stamp, run, attempt)
    ensures ExpectedPython(version) == Some(python)
  {
    hide Digits, Number, SplitNightly, IsBase, IsTimestamp;
    var s := stamp + "." + Digits(run) + "." + Digits(attempt);
    CutVersion(base, "nightly", s);
    assert base + "-" + "nightly" + "." + s == base + "-nightly." + s;
    assert IsNightly(s, stamp, run, attempt);
    NightliesAreStamped(s);
    NumberOfDigits(run);
    NumberOfDigits(attempt);
  }

  lemma BetaIsBeta(base: string, digits: string)
    requires IsBase(base) && IsPositive(digits)
    ensures IsBetaOf(base + "-beta." + digits, base + "b" + digits, base, Number(digits))
  {
    DigitsOfNumber(digits);
    NumberIsPositive(digits);
  }

  lemma DevNumberIs(run: nat, attempt: nat, number: nat)
    ensures DevNumber(run, attempt) == Some(number) <==>
              number == run * 1_000_000 + attempt && attempt <= 999_999 && number <= 18_446_744_073_709_551_614
  {
  }

  lemma NightlyIsNightly(base: string, s: string, parts: (string, string, string), number: nat)
    returns (stamp: string, run: nat, attempt: nat)
    requires IsBase(base) && SplitNightly(s) == Some(parts)
        && DevNumber(Number(parts.1), Number(parts.2)) == Some(number)
    ensures IsNightlyOf(base + "-nightly." + s, base + ".dev" + Digits(number), base, stamp, run, attempt)
  {
    hide Digits, Number, SplitNightly, IsBase, IsTimestamp, DevNumber;
    NightliesAreStamped(s);
    stamp, run, attempt :| IsNightly(s, stamp, run, attempt);
    NumberOfDigits(run);
    NumberOfDigits(attempt);
    DevNumberIs(run, attempt, number);
  }

  lemma MappedIsBetaOrNightly(version: string, python: string)
    requires ExpectedPython(version) == Some(python) && !IsBase(version)
    ensures version != python
    ensures (exists base, n :: IsBetaOf(version, python, base, n))
            || exists base, stamp, run, attempt :: IsNightlyOf(version, python, base, stamp, run, attempt)
  {
    hide Digits, Number, IsBase, IsTimestamp, IsBetaOf, IsNightlyOf, DevNumber;
    var (base, r) := Cut(version, '-');
    var (name, t) := Cut(r.value, '.');
    assert version == base + "-" + (name + "." + t.value) && version[|base|] == '-';
    if name == "beta" {
      assert version == base + "-beta." + t.value && python == base + "b" + t.value;
      assert python[|base|] == 'b';
      BetaIsBeta(base, t.value);
    } else {
      var parts := SplitNightly(t.value).value;
      var number := DevNumber(Number(parts.1), Number(parts.2)).value;
      assert version == base + "-nightly." + t.value && python == base + ".dev" + Digits(number);
      assert python[|base|] == '.';
      var stamp, run, attempt := NightlyIsNightly(base, t.value, parts, number);
    }
  }

  /** The archive validator knows bases, betas and nightlies, each with its Python version, and nothing else. */
  lemma ValidatorMaps(version: string, python: string)
    ensures ExpectedPython(version) == Some(python) <==>
              || (version == python && exists major, minor, patch :: IsTriple(version, major, minor, patch))
              || (exists base, n :: IsBetaOf(version, python, base, n))
              || exists base, stamp, run, attempt :: IsNightlyOf(version, python, base, stamp, run, attempt)
  {
    hide IsBetaOf, IsNightlyOf, IsTriple;
    BasesAreTriples(version);
    if base, n :| IsBetaOf(version, python, base, n) { BetasAreMapped(version, python, base, n); }
    if base, stamp, run, attempt :| IsNightlyOf(version, python, base, stamp, run, attempt) {
      NightliesAreMapped(version, python, base, stamp, run, attempt);
    }
    if IsBase(version) {
      PlainIsMapped(version);
    } else if ExpectedPython(version) == Some(python) {
      MappedIsBetaOrNightly(version, python);
    }
  }

  lemma PlainIsMapped(version: string)
    requires IsBase(version)
    ensures ExpectedPython(version) == Some(version)
  {
    BaseOfParse(version);
    CutWhole(version, '-');
  }

  // ---- plans ----

  /** Lower-case hexadecimal of one length. */
  ghost predicate IsDigest(s: string, n: nat) {
    |s| == n && forall c :: c in s ==> c in "0123456789abcdef"
  }

  lemma DigestsAreHex(s: string, n: nat)
    ensures IsHexText(s, n) <==> IsDigest(s, n)
  {
    forall c ensures IsHex(c) <==> c in "0123456789abcdef" {
      var hex := "0123456789abcdef";
      if '0' <= c <= '9' { assert hex[c as int - '0' as int] == c; }
      if 'a' <= c <= 'f' { assert hex[c as int - 'a' as int + 10] == c; }
    }
  }

  /** What a declared file needs of a plan: the package version it is for, and a build number its kind has. */
  ghost predicate Carries(plan: Plan, d: DeclaredFile)
    requires Identity(plan.base, plan.channel, plan.sequence).Some?
  {
    && Package(plan.base, plan.channel, plan.sequence, plan.promotion, d.pep440) != None
    && (d.value == BuildNumber ==> plan.build != None)
    && (d.value == AppleBuildNumber ==> plan.build.Some? && 1 <= plan.build.value <= 99_990_000)
  }

  /** Exactly when a plan is created, and what it then is. */
  lemma PlansAreCreated(base: string, channel: Channel, sequence: Sequence, sha: string, policy: Policy,
                        build: Option<int>, plan: Plan)
    ensures CreatePlan(base, channel, sequence, sha, policy, build) == Some(plan) <==>
              && IsDigest(policy.digest, 64) && IsDigest(sha, 40)
              && 0 <= policy.floor <= 2_099_999_999 && |policy.files| >= 1
              && (build.Some? ==> policy.floor + 1 <= build.value <= 2_100_000_000)
              && Identity(base, channel, sequence) == Some(plan.version)
              && plan == Plan(base, plan.version, channel, sequence, "v" + plan.version, sha, build, policy.digest,
                              policy.promotion)
              && forall d :: d in policy.files ==> Carries(plan, d)
  {
    hide Identity, Package;
    DigestsAreHex(policy.digest, 64);
    DigestsAreHex(sha, 40);
    if Identity(base, channel, sequence).Some? {
      var version := Identity(base, channel, sequence).value;
      var p := Plan(base, version, channel, sequence, "v" + version, sha, build, policy.digest, policy.promotion);
      forall d ensures Projects(p, d) <==> Carries(p, d) {}
    }
  }

  /** A plan is accepted against a policy and a source exactly when creating it anew gives that plan. */
  lemma AcceptedIffRecreated(plan: Plan, policy: Policy, sha: string)
    ensures BoundPlan(plan, policy, sha) <==>
              CreatePlan(plan.base, plan.channel, plan.sequence, sha, policy, plan.build) == Some(plan)
  {
    hide Identity, Package, Projects;
  }

  /** Without a policy, exactly when some policy and source could have created it, but for the files it declares. */
  lemma ValidIffCreated(plan: Plan)
    ensures ValidPlan(plan) <==>
              CreatePlan(plan.base, plan.channel, plan.sequence, plan.sourceSha,
                         Policy(plan.policyDigest, plan.promotion, 0, [DeclaredFile(FullVersion, false)]), plan.build)
              == Some(plan)
  {
    hide IsHexText, SplitNightly;
  }
}
