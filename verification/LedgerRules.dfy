// When the ledger is read, which number a release is given, and when a publication may begin.
module LedgerRules {
  import opened Wrappers
  import opened Decimal
  import opened Versions
  import opened Plans
  import opened Ledger
  import opened LedgerRuns

  /** What a reader demands of a record: a run with a valid plan whose build number the counter has reached. */
  ghost predicate IsRecord(l: Ledger, run: int, r: Reservation) {
    run >= 1 && ValidPlan(r.plan) && exists n :: r.plan.build == Some(n) && 1 <= n <= l.counter
  }

  /** A file is read exactly when all its records pass; no file at all is read only before the branch exists. */
  lemma ReadsSoundLedgers(file: Option<Ledger>, branch: bool, l: Ledger)
    ensures ReadState(file, branch) == Some(l) <==>
              if file.None? then !branch && l.counter == l.floor == 0 && l.plans == map[]
              else file.value == l && l.floor >= 0 && l.counter >= l.floor
                   && forall run :: run in l.plans ==> IsRecord(l, run, l.plans[run])
  {
    hide Identity, IsHexText;
    if file == Some(l) {
      forall run | run in l.plans
        ensures IsRecord(l, run, l.plans[run]) <==>
                  run > 0 && ValidPlan(l.plans[run].plan) && l.plans[run].plan.build.Some?
                  && l.plans[run].plan.build.value <= l.counter
      {
      }
    }
  }

  // ---- numbers ----

  /** The tag of the `n`th beta or candidate of a base. */
  ghost function NumberedTag(base: string, channel: Channel, n: nat): string {
    "v" + base + (if channel.Beta? then "-beta." else "-rc.") + Digits(n)
  }

  lemma TagsAreNumbered(tag: string, base: string, channel: Channel, n: int)
    requires channel.Beta? || channel.Rc?
    ensures TagNumber(tag, base, channel) == Some(n) <==> n >= 1 && tag == NumberedTag(base, channel, n)
  {
    hide Digits, Number;
    var prefix := "v" + base + "-" + ChannelName(channel) + ".";
    assert prefix == "v" + base + if channel.Beta? then "-beta." else "-rc.";
    if n >= 1 {
      NumberOfDigits(n);
      assert (prefix + Digits(n))[|prefix|..] == Digits(n);
    }
    if TagNumber(tag, base, channel).Some? {
      var digits := tag[|prefix|..];
      DigitsOfNumber(digits);
      NumberIsPositive(digits);
      assert tag == prefix + digits;
    }
  }

  /** The number is reserved on this line, or some tag or release bears it. */
  ghost predicate IsUsed(l: Ledger, ask: Ask, seen: Seen, n: int) {
    || (exists run :: run in l.plans && SameLine(l.plans[run].plan, ask.base, ask.channel)
                      && l.plans[run].plan.sequence.n == n)
    || (n >= 1 && NumberedTag(ask.base, ask.channel, n) in seen.tags)
  }

  lemma UsedIsCollected(l: Ledger, ask: Ask, seen: Seen, n: int)
    requires ask.channel.Beta? || ask.channel.Rc?
    ensures IsUsed(l, ask, seen, n) <==>
              n in ReservedNumbers(l.plans, ask.base, ask.channel) || n in TagNumbers(seen.tags, ask.base, ask.channel)
  {
    hide TagNumber, NumberedTag, Digits;
    forall tag ensures TagNumber(tag, ask.base, ask.channel) == Some(n) <==>
                         n >= 1 && tag == NumberedTag(ask.base, ask.channel, n) {
      TagsAreNumbered(tag, ask.base, ask.channel, n);
    }
    if n >= 1 && NumberedTag(ask.base, ask.channel, n) in seen.tags {
      var i :| 0 <= i < |seen.tags| && seen.tags[i] == NumberedTag(ask.base, ask.channel, n);
      assert TagNumber(seen.tags[i], ask.base, ask.channel).value in TagNumbers(seen.tags, ask.base, ask.channel);
    }
  }

  /**
   * A beta or candidate is given the number after the greatest used one, the first of its base the number one;
   * a nightly, its time, run and attempt; a stable release, nothing.
   */
  lemma SequencesFollow(l: Ledger, ask: Ask, seen: Seen)
    requires ask.run > 0 && Readable(l)
    ensures var s := ChooseSequence(l, ask, seen);
            match ask.channel {
              case Stable => s == Absent
              case Nightly => s == Text(ask.stamp + "." + Digits(ask.run) + "." + Digits(ask.attempt))
              case _ =>
                && s.Count? && s.n >= 1 && (s.n >= 2 ==> IsUsed(l, ask, seen, s.n - 1))
                && forall n :: IsUsed(l, ask, seen, n) ==> n < s.n
            }
  {
    hide ValidPlan, SameLine, TagNumber, NumberedTag, Digits, IsUsed;
    if ask.channel.Beta? || ask.channel.Rc? {
      forall n ensures IsUsed(l, ask, seen, n) <==>
                         n in ReservedNumbers(l.plans, ask.base, ask.channel)
                         || n in TagNumbers(seen.tags, ask.base, ask.channel) {
        UsedIsCollected(l, ask, seen, n);
      }
      NoneBelowOne(l, ask, seen);
    }
  }

  lemma NoneBelowOne(l: Ledger, ask: Ask, seen: Seen)
    requires Readable(l) && (ask.channel.Beta? || ask.channel.Rc?)
    ensures forall n :: n in ReservedNumbers(l.plans, ask.base, ask.channel) ==> n >= 1
    ensures forall n :: n in TagNumbers(seen.tags, ask.base, ask.channel) ==> n >= 1
  {
    hide TagNumber;
    forall n | n in ReservedNumbers(l.plans, ask.base, ask.channel) ensures n >= 1 {
      var run :| run in l.plans && SameLine(l.plans[run].plan, ask.base, ask.channel)
                 && l.plans[run].plan.sequence.n == n;
      CountIsPositive(l.plans[run].plan);
    }
    forall n | n in TagNumbers(seen.tags, ask.base, ask.channel) ensures n >= 1 {
      var i :| 0 <= i < |seen.tags| && TagNumber(seen.tags[i], ask.base, ask.channel) == Some(n);
      TagsAreNumbered(seen.tags[i], ask.base, ask.channel, n);
    }
  }

  // ---- publishing ----

  /**
   * Over a ledger its readers accept, an ordinary publication begins exactly for the reservation of this run and
   * parent whose build number is above the floor and above that of every published plan. It moves the floor to
   * that number and nothing else.
   */
  lemma PublicationsBegin(l: Ledger, plan: Plan, run: int, parent: Option<string>, published: set<string>)
    requires Readable(l)
    ensures Begin(l, plan, run, parent, false, published).Some? <==>
              && run in l.plans && l.plans[run].plan == plan && l.plans[run].parent == parent
              && plan.build.value >= l.floor + 1
              && forall r :: r in l.plans && plan.build.value <= l.plans[r].plan.build.value ==>
                               l.plans[r].plan.tag !in published
    ensures Begin(l, plan, run, parent, false, published).Some? ==>
              Begin(l, plan, run, parent, false, published) == Some(Ledger(l.counter, plan.build.value, l.plans))
  {
    hide ValidPlan;
  }

  /**
   * A byte promotion begins exactly for a published candidate of that profile which one reservation holds, whose
   * build number is not below the floor, and which no other published plan exceeds.
   */
  lemma PromotionsBegin(l: Ledger, plan: Plan, run: int, parent: Option<string>, published: set<string>)
    requires Readable(l)
    ensures Begin(l, plan, run, parent, true, published).Some? <==>
              && run >= 1 && plan.channel == Rc && plan.promotion == PromoteBytes && plan.tag in published
              && |set r | r in l.plans && l.plans[r].plan == plan| == 1
              && plan.build.Some? && plan.build.value >= l.floor
              && forall r :: r in l.plans && l.plans[r].plan.build.value >= plan.build.value + 1 ==>
                               l.plans[r].plan.tag == plan.tag || l.plans[r].plan.tag !in published
    ensures Begin(l, plan, run, parent, true, published).Some? ==>
              Begin(l, plan, run, parent, true, published) == Some(Ledger(l.counter, plan.build.value, l.plans))
  {
    hide ValidPlan;
    OneMatch(l.plans, plan, set r | r in l.plans && l.plans[r].plan == plan);
  }

  // ---- committing ----

  /** A write that arrives commits exactly when its branch is there and the file is what its client read. */
  lemma CommitsIffCurrent(w: World, client: nat)
    requires Enabled(w, Arrives(client))
    ensures var write, after := w.writes[client], Step(w, Arrives(client));
            if w.branch && w.file == write.previous
            then after.file == Some(write.next) && after.history == w.history + [write.commit]
            else after.file == w.file && after.history == w.history
  {
  }

  /** The first reservation of all is committed once the branch is made. */
  lemma FirstCommits(client: nat, ask: Ask, seen: Seen)
    requires Reserve(EmptyLedger, ask, seen).Reserved?
    ensures var run := [Reserves(client, ask, seen), CreatesBranch(client), Arrives(client)];
            var plan := Reserve(EmptyLedger, ask, seen).plan;
            && Possible(NewWorld, run) && After(NewWorld, run).history == [Reserving(ask, seen, plan)]
            && ReadState(After(NewWorld, run).file, true).Some?
            && ReadState(After(NewWorld, run).file, true).value.plans == map[ask.run := Reservation(plan, ask.parent)]
  {
    var e0, e1, e2 := Reserves(client, ask, seen), CreatesBranch(client), Arrives(client);
    var w1 := Step(NewWorld, e0);
    var w2 := Step(w1, e1);
    var w3 := Step(w2, e2);
    ReservedIsReadable(EmptyLedger, ask, seen);
    assert [e0, e1, e2][1..] == [e1, e2] && [e1, e2][1..] == [e2] && [e2][1..] == [];
    assert Possible(w3, []) && Possible(w2, [e2]) && Possible(w1, [e1, e2]);
    assert After(w3, []) == w3 && After(w2, [e2]) == w3 && After(w1, [e1, e2]) == w3;
  }
}
