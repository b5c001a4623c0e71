// Immutable release plans: how one is created from allocated decisions, and when one is accepted.
module Plans {
  import opened Wrappers
  import opened Versions

  const MAX_BUILD := 2_100_000_000

  datatype Projection = BaseVersion | FullVersion | PackageVersion | BuildNumber | AppleBuildNumber

  /** One declared version file: which projection it carries, in which ecosystem. */
  datatype DeclaredFile = DeclaredFile(value: Projection, pep440: bool)

  /** The versioning part of a release policy; `digest` identifies the whole policy. */
  datatype Policy = Policy(digest: string, promotion: Promotion, floor: int, files: seq<DeclaredFile>)

  datatype Plan = Plan(base: string, version: string, channel: Channel, sequence: Sequence, tag: string,
                       sourceSha: string, build: Option<int>, policyDigest: string, promotion: Promotion)

  predicate IsHex(c: char) { '0' <= c <= '9' || 'a' <= c <= 'f' }

  predicate IsHexText(s: string, n: nat) { |s| == n && forall i :: 0 <= i < |s| ==> IsHex(s[i]) }

  predicate ValidPolicy(p: Policy) { 0 <= p.floor < MAX_BUILD && p.files != [] && IsHexText(p.digest, 64) }

  /** `projected_value` succeeds. */
  predicate Projects(plan: Plan, d: DeclaredFile)
    requires Identity(plan.base, plan.channel, plan.sequence).Some?
  {
    Package(plan.base, plan.channel, plan.sequence, plan.promotion, d.pep440).Some? &&
    match d.value
    case BuildNumber => plan.build.Some?
    case AppleBuildNumber => plan.build.Some? && 0 < plan.build.value <= MAX_APPLE
    case _ => true
  }

  predicate BuildInRange(build: Option<int>) { build.Some? ==> 0 < build.value <= MAX_BUILD }

  /** A plan's fields agree with one another. */
  predicate ValidPlan(plan: Plan) {
    && Identity(plan.base, plan.channel, plan.sequence) == Some(plan.version)
    && plan.tag == "v" + plan.version
    && IsHexText(plan.sourceSha, 40) && IsHexText(plan.policyDigest, 64)
    && BuildInRange(plan.build)
  }

  /** A plan is also bound to this policy and this source. */
  predicate BoundPlan(plan: Plan, policy: Policy, sha: string) {
    && ValidPlan(plan) && ValidPolicy(policy)
    && plan.policyDigest == policy.digest && plan.promotion == policy.promotion
    && (plan.build.Some? ==> plan.build.value > policy.floor)
    && (forall d :: d in policy.files ==> Projects(plan, d))
    && plan.sourceSha == sha
  }

  function CreatePlan(base: string, channel: Channel, sequence: Sequence, sha: string, policy: Policy,
                      build: Option<int>): (r: Option<Plan>)
  {
    if !ValidPolicy(policy) then None
    else match Identity(base, channel, sequence)
      case None => None
      case Some(version) =>
        if !IsHexText(sha, 40) || !BuildInRange(build) || (build.Some? && build.value <= policy.floor) then None
        else
          var plan := Plan(base, version, channel, sequence, "v" + version, sha, build, policy.digest,
                           policy.promotion);
          if forall d :: d in policy.files ==> Projects(plan, d) then Some(plan) else None
  }

  /** Whatever is created is accepted afterwards, against the same policy and source and no other policy or source. */
  lemma CreatedPlansAreBound(base: string, channel: Channel, sequence: Sequence, sha: string, policy: Policy,
                             build: Option<int>, policy': Policy, sha': string)
    requires CreatePlan(base, channel, sequence, sha, policy, build).Some?
    ensures var plan := CreatePlan(base, channel, sequence, sha, policy, build).value;
            && BoundPlan(plan, policy, sha)
            && (BoundPlan(plan, policy', sha') ==> sha' == sha && policy'.digest == policy.digest)
            && plan.base == base && plan.channel == channel && plan.sequence == sequence && plan.build == build
  {
  }

  /** A tag determines the release it names. */
  lemma TagsTellPlansApart(p: Plan, q: Plan)
    requires ValidPlan(p) && ValidPlan(q) && p.tag == q.tag
    ensures p.base == q.base && p.channel == q.channel && p.sequence == q.sequence
  {
    assert p.tag[1..] == p.version && q.tag[1..] == q.version;
    IdentityInjective(p.base, p.channel, p.sequence, q.base, q.channel, q.sequence);
  }
}
