// The version ledger: what a workflow run reads, computes and would write back.
module Ledger {
  import opened Wrappers
  import opened Decimal
  import opened Versions
  import opened Plans

  datatype Reservation = Reservation(plan: Plan, parent: Option<string>)

  datatype Ledger = Ledger(counter: int, floor: int, plans: map<int, Reservation>)

  const EmptyLedger := Ledger(0, 0, map[])

  /** The checks every reader makes of the file's content. */
  predicate Readable(l: Ledger) {
    && 0 <= l.floor <= l.counter
    && forall run :: run in l.plans ==>
         run > 0 && ValidPlan(l.plans[run].plan) && l.plans[run].plan.build.Some?
         && l.plans[run].plan.build.value <= l.counter
  }

  /** A missing file is a new ledger only while its branch does not exist either. */
  function ReadState(file: Option<Ledger>, branch: bool): Option<Ledger> {
    match file
    case None => if branch then None else Some(EmptyLedger)
    case Some(l) => if Readable(l) then Some(l) else None
  }

  // ---- sequences ----

  lemma Inhabited(s: set<int>)
    ensures s == {} || exists x :: x in s
  {
    if forall x :: x !in s {
      assert s == {};
    }
  }

  ghost predicate IsMax(m: int, s: set<int>) {
    (if s == {} then m == 0 else m in s) && forall x :: x in s ==> x <= m
  }

  /** `max(s, default=0)`. */
  ghost function MaxOf(s: set<int>): (m: int)
    ensures IsMax(m, s)
  {
    if s == {} then 0 else
      Inhabited(s);
      var x :| x in s;
      var m := MaxOf(s - {x});
      assert s == (s - {x}) + {x};
      if s - {x} == {} || m < x then x else m
  }

  lemma MaxStep(m: int, s: set<int>, x: int)
    requires IsMax(m, s) && m >= 0 && x > 0
    ensures IsMax(if x > m then x else m, s + {x})
  {
    assert x in s + {x};
  }

  lemma MaxUnique(m: int, s: set<int>)
    requires IsMax(m, s)
    ensures m == MaxOf(s)
  {
  }

  /** The sequence numbers the existing tags use for a base and channel. */
  function TagNumber(tag: string, base: string, channel: Channel): Option<int> {
    var prefix := "v" + base + "-" + ChannelName(channel) + ".";
    if prefix <= tag && IsPositive(tag[|prefix|..]) then Some(Number(tag[|prefix|..])) else None
  }

  ghost function TagNumbers(tags: seq<string>, base: string, channel: Channel): set<int> {
    set i | 0 <= i < |tags| && TagNumber(tags[i], base, channel).Some? :: TagNumber(tags[i], base, channel).value
  }

  ghost function NextSequence(tags: seq<string>, base: string, channel: Channel): int {
    MaxOf(TagNumbers(tags, base, channel)) + 1
  }

  predicate SameLine(p: Plan, base: string,
                     channel: Channel) { p.base == base && p.channel == channel && p.sequence.Count? }

  /** The numbers that some of the runs hold on one base and channel. */
  ghost function NumbersOf(plans: map<int, Reservation>, runs: set<int>, base: string, channel: Channel): set<int> {
    set run | run in runs && run in plans && SameLine(plans[run].plan, base, channel) :: plans[run].plan.sequence.n
  }

  ghost function ReservedNumbers(plans: map<int, Reservation>, base: string, channel: Channel): set<int> {
    NumbersOf(plans, plans.Keys, base, channel)
  }

  lemma OneMoreRun(plans: map<int, Reservation>, runs: set<int>, run: int, base: string, channel: Channel, m: int)
    requires run in plans && ValidPlan(plans[run].plan)
    requires IsMax(m, NumbersOf(plans, runs, base, channel)) && m >= 0
    ensures var p := plans[run].plan;
            IsMax(if SameLine(p, base, channel) && p.sequence.n > m then p.sequence.n else m,
                  NumbersOf(plans, runs + {run}, base, channel))
  {
    var p := plans[run].plan;
    var numbers := NumbersOf(plans, runs, base, channel);
    if SameLine(p, base, channel) {
      assert NumbersOf(plans, runs + {run}, base, channel) == numbers + {p.sequence.n};
      CountIsPositive(p);
      MaxStep(m, numbers, p.sequence.n);
    } else {
      assert NumbersOf(plans, runs + {run}, base, channel) == numbers;
    }
  }

  // ---- reserving ----

  /** What one reservation is asked for. `stamp` is the time as the nightly suffix prints it. */
  datatype Ask = Ask(policy: Policy, base: string, channel: Channel, sha: string, run: int, attempt: nat,
                     stamp: string, parent: Option<string>)

  /** What the run sees of the repository: its tags and releases, and the tags ruled out. */
  datatype Seen = Seen(tags: seq<string>, taken: set<string>)

  datatype Outcome = Refused | Repeated(plan: Plan) | Reserved(ledger: Ledger, plan: Plan)

  ghost function ChooseSequence(l: Ledger, ask: Ask, seen: Seen): Sequence
  {
    match ask.channel
    case Stable => Absent
    case Nightly => Text(if ask.run >= 0 then NightlySuffix(ask.stamp, ask.run, ask.attempt) else "")
    case _ =>
      var next := NextSequence(seen.tags, ask.base, ask.channel);
      var more := MaxOf(ReservedNumbers(l.plans, ask.base, ask.channel)) + 1;
      Count(if next < more then more else next)
  }

  function NextBuild(counter: int, floor: int): int { (if counter < floor then floor else counter) + 1 }

  ghost function Reserve(l: Ledger, ask: Ask, seen: Seen): Outcome {
    if ask.run <= 0 then Refused
    else if ask.run in l.plans then
      var r := l.plans[ask.run];
      if BoundPlan(r.plan, ask.policy, ask.sha) && r.plan.base == ask.base && r.plan.channel == ask.channel
         && r.parent == ask.parent
      then Repeated(r.plan) else Refused
    else
      var number := NextBuild(l.counter, ask.policy.floor);
      match CreatePlan(ask.base, ask.channel, ChooseSequence(l, ask, seen), ask.sha, ask.policy, Some(number))
      case None => Refused
      case Some(plan) =>
        if plan.tag in seen.taken then Refused
        else Reserved(l.(counter := number, plans := l.plans[ask.run := Reservation(plan, ask.parent)]), plan)
  }

  // ---- publishing ----

  predicate MayPublish(l: Ledger, plan: Plan, run: int, parent: Option<string>, published: set<string>) {
    && run > 0 && ValidPlan(plan)
    && run in l.plans && l.plans[run] == Reservation(plan, parent)
    && plan.build.Some? && plan.build.value > l.floor
    && forall r :: r in l.plans && l.plans[r].plan.tag in published && l.plans[r].plan.build.Some? ==>
         l.plans[r].plan.build.value < plan.build.value
  }

  ghost predicate MayPromote(l: Ledger, plan: Plan, published: set<string>) {
    && ValidPlan(plan) && plan.channel.Rc? && plan.promotion.PromoteBytes?
    && (exists r :: r in l.plans && l.plans[r].plan == plan
                    && forall q :: q in l.plans && l.plans[q].plan == plan ==> q == r)
    && plan.build.Some? && plan.build.value >= l.floor
    && plan.tag in published
    && forall r :: r in l.plans && l.plans[r].plan.tag != plan.tag && l.plans[r].plan.tag in published
                       && l.plans[r].plan.build.Some? ==>
         l.plans[r].plan.build.value <= plan.build.value
  }

  /** The number is consumed before the first public tag appears. */
  ghost function Begin(l: Ledger, plan: Plan, run: int, parent: Option<string>, promotion: bool,
                       published: set<string>): Option<Ledger>
  {
    if run > 0 && (if promotion then MayPromote(l, plan, published) else MayPublish(l, plan, run, parent, published))
    then Some(l.(floor := plan.build.value)) else None
  }

  // ---- what the choice of sequence is worth ----

  /** The tag of a numbered release carries its number. */
  lemma TagNumberOfPlan(p: Plan)
    requires ValidPlan(p) && (p.channel.Beta? || p.channel.Rc?)
    ensures p.sequence.Count? && TagNumber(p.tag, p.base, p.channel) == Some(p.sequence.n)
  {
    var prefix := "v" + p.base + "-" + ChannelName(p.channel) + ".";
    NumberOfDigits(p.sequence.n);
    assert p.tag == prefix + Digits(p.sequence.n);
  }

  /** A fresh beta or candidate gets a number above every reserved one and every one a tag uses. */
  lemma FreshNumberExceedsAll(l: Ledger, ask: Ask, seen: Seen, run: int, tag: string)
    requires Reserve(l, ask, seen).Reserved? && (ask.channel.Beta? || ask.channel.Rc?)
    ensures var n := Reserve(l, ask, seen).plan.sequence.n;
            && (run in l.plans && SameLine(l.plans[run].plan, ask.base, ask.channel) ==>
              l.plans[run].plan.sequence.n < n)
            && (tag in seen.tags && TagNumber(tag, ask.base, ask.channel).Some? ==>
                  TagNumber(tag, ask.base, ask.channel).value < n)
  {
    if run in l.plans && SameLine(l.plans[run].plan, ask.base, ask.channel) {
      assert l.plans[run].plan.sequence.n in ReservedNumbers(l.plans, ask.base, ask.channel);
    }
    if tag in seen.tags && TagNumber(tag, ask.base, ask.channel).Some? {
      var i :| 0 <= i < |seen.tags| && seen.tags[i] == tag;
      assert TagNumber(tag, ask.base, ask.channel).value in TagNumbers(seen.tags, ask.base, ask.channel);
    }
  }

  /** A new reservation leaves a ledger that every later reader accepts. */
  lemma ReservedIsReadable(l: Ledger, ask: Ask, seen: Seen)
    requires Readable(l) && Reserve(l, ask, seen).Reserved?
    ensures Readable(Reserve(l, ask, seen).ledger)
  {
  }

  /** A run that has reserved before gets its plan back exactly when it asks for the same release. */
  lemma RepeatIsBound(l: Ledger, ask: Ask, seen: Seen)
    ensures Reserve(l, ask, seen).Repeated? <==>
              && ask.run > 0 && ask.run in l.plans && ValidPolicy(ask.policy)
              && var r := l.plans[ask.run];
                 && ValidPlan(r.plan) && r.plan.base == ask.base && r.plan.channel == ask.channel
                 && r.plan.sourceSha == ask.sha && r.parent == ask.parent
                 && r.plan.policyDigest == ask.policy.digest && r.plan.promotion == ask.policy.promotion
                 && (r.plan.build.Some? ==> r.plan.build.value > ask.policy.floor)
                 && forall d :: d in ask.policy.files ==> Projects(r.plan, d)
    ensures Reserve(l, ask, seen).Repeated? ==> Reserve(l, ask, seen).plan == l.plans[ask.run].plan
  {
  }

  /** The number after the counter, and never within the policy's floor. */
  lemma NextBuildIsLeast(counter: int, floor: int)
    ensures var n := NextBuild(counter, floor);
            n > counter && n > floor && (n == counter + 1 || n == floor + 1)
  {
  }

  /**
   * A new run gets a plan exactly when the release it asks for has a name that no tag or release bears, the
   * next number is in range, and every declared file can carry the plan.
   */
  lemma FreshIsFree(l: Ledger, ask: Ask, seen: Seen)
    ensures var sequence, number := ChooseSequence(l, ask, seen), NextBuild(l.counter, ask.policy.floor);
            Reserve(l, ask, seen).Reserved? <==>
              && ask.run > 0 && ask.run !in l.plans && ValidPolicy(ask.policy) && IsHexText(ask.sha, 40)
              && 0 < number <= MAX_BUILD && Identity(ask.base, ask.channel, sequence).Some?
              && var version := Identity(ask.base, ask.channel, sequence).value;
                 && "v" + version !in seen.taken
                 && var plan := Plan(ask.base, version, ask.channel, sequence, "v" + version, ask.sha, Some(number),
                                     ask.policy.digest, ask.policy.promotion);
                    forall d :: d in ask.policy.files ==> Projects(plan, d)
    ensures Reserve(l, ask, seen).Reserved? ==>
              var r := Reserve(l, ask, seen);
              && r.plan.tag !in seen.taken && r.plan.base == ask.base && r.plan.channel == ask.channel
              && r.plan.sourceSha == ask.sha && r.plan.policyDigest == ask.policy.digest
              && r.plan.build == Some(r.ledger.counter) && r.ledger.counter > l.counter && r.ledger.floor == l.floor
              && r.ledger.plans == l.plans[ask.run := Reservation(r.plan, ask.parent)]
  {
    NextBuildIsLeast(l.counter, ask.policy.floor);
  }

  lemma BegunIsReadable(l: Ledger, plan: Plan, run: int, parent: Option<string>, promotion: bool,
                        published: set<string>)
    requires Readable(l) && Begin(l, plan, run, parent, promotion, published).Some?
    ensures Readable(Begin(l, plan, run, parent, promotion, published).value)
  {
  }

  /** The dictionary a workflow run loads, changes in place and writes back. */
  class LedgerState {
    var counter: int
    var publicationFloor: int
    var plans: map<int, Reservation>

    ghost function Model(): Ledger
      reads this
    {
      Ledger(counter, publicationFloor, plans)
    }

    constructor (l: Ledger)
      ensures Model() == l
    {
      counter, publicationFloor, plans := l.counter, l.floor, l.plans;
    }

    /** The scan over tags and releases for the next unused number. */
    static method FindNextSequence(tags: seq<string>, base: string, channel: Channel) returns (n: int)
      ensures n == NextSequence(tags, base, channel)
    {
      var best := 0;
      var i := 0;
      ghost var numbers: set<int> := {};
      while i < |tags|
        invariant i <= |tags|
        invariant numbers == TagNumbers(tags[..i], base, channel)
        invariant IsMax(best, numbers) && best >= 0
      {
        var number := TagNumber(tags[i], base, channel);
        assert tags[..i + 1] == tags[..i] + [tags[i]];
        AppendTag(tags[..i], tags[i], base, channel);
        if number.Some? {
          NumberIsPositive(tags[i][|"v" + base + "-" + ChannelName(channel) + "."|..]);
          MaxStep(best, numbers, number.value);
          numbers := numbers + {number.value};
          if number.value > best {
            best := number.value;
          }
        }
        i := i + 1;
      }
      assert tags[..i] == tags;
      MaxUnique(best, numbers);
      n := best + 1;
    }

    /** The greatest number already reserved for a base and channel, or zero. */
    method GreatestReserved(base: string, channel: Channel) returns (m: int)
      requires Readable(Model())
      requires channel.Beta? || channel.Rc?
      ensures m == MaxOf(ReservedNumbers(plans, base, channel))
    {
      m := 0;
      var todo := plans.Keys;
      ghost var done: set<int> := {};
      while todo != {}
        invariant done + todo == plans.Keys
        invariant IsMax(m, NumbersOf(plans, done, base, channel)) && m >= 0
        decreases todo
      {
        Inhabited(todo);
        var run :| run in todo;
        var plan := plans[run].plan;
        OneMoreRun(plans, done, run, base, channel, m);
        if SameLine(plan, base, channel) && plan.sequence.n > m {
          m := plan.sequence.n;
        }
        done, todo := done + {run}, todo - {run};
      }
      assert done == plans.Keys;
      MaxUnique(m, ReservedNumbers(plans, base, channel));
    }

    method ReservePlan(ask: Ask, seen: Seen) returns (plan: Option<Plan>)
      requires Readable(Model())
      modifies this
      ensures match Reserve(old(Model()), ask, seen)
              case Refused => plan == None && Model() == old(Model())
              case Repeated(p) => plan == Some(p) && Model() == old(Model())
              case Reserved(l, p) => plan == Some(p) && Model() == l
    {
      if ask.run <= 0 {
        return None;
      }
      if ask.run in plans {
        var r := plans[ask.run];
        if BoundPlan(r.plan, ask.policy, ask.sha) && r.plan.base == ask.base && r.plan.channel == ask.channel
           && r.parent == ask.parent {
          return Some(r.plan);
        }
        return None;
      }
      var sequence := Absent;
      if ask.channel.Beta? || ask.channel.Rc? {
        var next := FindNextSequence(seen.tags, ask.base, ask.channel);
        var reserved := GreatestReserved(ask.base, ask.channel);
        sequence := Count(if next < reserved + 1 then reserved + 1 else next);
      } else if ask.channel.Nightly? {
        sequence := Text(NightlySuffix(ask.stamp, ask.run, ask.attempt));
      }
      assert sequence == ChooseSequence(Model(), ask, seen);
      var number := NextBuild(counter, ask.policy.floor);
      plan := CreatePlan(ask.base, ask.channel, sequence, ask.sha, ask.policy, Some(number));
      if plan.None? || plan.value.tag in seen.taken {
        return None;
      }
      counter := number;
      plans := plans[ask.run := Reservation(plan.value, ask.parent)];
    }

    /** The run's reservation is exactly this plan, and nothing as new has been published. */
    method VerifyReservation(plan: Plan, run: int, parent: Option<string>, published: set<string>) returns (ok: bool)
      requires Readable(Model()) && run > 0
      ensures ok == MayPublish(Model(), plan, run, parent, published)
    {
      ok := ValidPlan(plan) && run in plans && plans[run] == Reservation(plan, parent)
            && plan.build.value > publicationFloor
            && forall r :: r in plans && plans[r].plan.tag in published ==>
              plans[r].plan.build.value < plan.build.value;
    }

    /** The candidate is the one reserved and published, and nothing newer has been published. */
    method VerifyPromotionOrder(plan: Plan, published: set<string>) returns (ok: bool)
      requires Readable(Model())
      ensures ok == MayPromote(Model(), plan, published)
    {
      var matching := set r | r in plans && plans[r].plan == plan;
      OneMatch(plans, plan, matching);
      if !(ValidPlan(plan) && plan.channel.Rc? && plan.promotion.PromoteBytes? && |matching| == 1) {
        return false;
      }
      ok := plan.build.value >= publicationFloor && plan.tag in published
            && forall r :: r in plans && plans[r].plan.tag != plan.tag && plans[r].plan.tag in published ==>
                 plans[r].plan.build.value <= plan.build.value;
    }

    method BeginPublication(plan: Plan, run: int, parent: Option<string>, promotion: bool, published: set<string>)
      returns (ok: bool)
      requires Readable(Model())
      modifies this`publicationFloor
      ensures ok == Begin(old(Model()), plan, run, parent, promotion, published).Some?
      ensures Model() == if ok then Begin(old(Model()), plan, run, parent, promotion, published).value else old(Model())
    {
      if run <= 0 {
        return false;
      }
      if promotion {
        ok := VerifyPromotionOrder(plan, published);
      } else {
        ok := VerifyReservation(plan, run, parent, published);
      }
      if ok {
        publicationFloor := plan.build.value;
      }
    }
  }

  lemma CountIsPositive(p: Plan)
    requires ValidPlan(p) && p.sequence.Count?
    ensures p.sequence.n > 0
  {
  }

  lemma AppendTag(tags: seq<string>, tag: string, base: string, channel: Channel)
    ensures TagNumbers(tags + [tag], base, channel)
         == TagNumbers(tags, base, channel)
            + (if TagNumber(tag, base, channel).Some? then {TagNumber(tag, base, channel).value} else {})
  {
    var more := tags + [tag];
    forall n | n in TagNumbers(tags, base, channel) ensures n in TagNumbers(more, base, channel) {
      var i :| 0 <= i < |tags| && TagNumber(tags[i], base, channel) == Some(n);
      assert more[i] == tags[i];
    }
    assert more[|tags|] == tag;
  }

  lemma OneMatch(plans: map<int, Reservation>, plan: Plan, matching: set<int>)
    requires matching == set r | r in plans && plans[r].plan == plan
    ensures |matching| == 1 <==>
            exists r :: r in plans && plans[r].plan == plan
                        && forall q :: q in plans && plans[q].plan == plan ==> q == r
  {
    if |matching| == 1 {
      Inhabited(matching);
      var r :| r in matching;
      assert |matching - {r}| == |matching| - 1;
      forall q | q in plans && plans[q].plan == plan ensures q == r {
        assert q in matching;
        assert q == r || q in matching - {r};
      }
    }
    if r :| r in plans && plans[r].plan == plan && forall q :: q in plans && plans[q].plan == plan ==> q == r {
      assert matching == {r};
    }
  }
}
