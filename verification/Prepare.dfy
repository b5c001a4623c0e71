// Choosing the next release base from the current one, the tags it descends from and the tags taken.
module Prepare {
  import opened Wrappers
  import opened Decimal
  import opened Versions

  datatype Bump = NextPatch | Major | Minor | Patch

  datatype Refusal = BadRequest | Downgrade | AlreadyTagged

  /** Semantic Versioning 2.0.0, section 11, for versions without a suffix. */
  predicate Below(a: Version, b: Version) {
    a.major < b.major
    || (a.major == b.major && (a.minor < b.minor || (a.minor == b.minor && a.patch < b.patch)))
  }

  function TagOf(v: Version): string { "v" + Base(v) }

  lemma TagsTell(a: Version, b: Version)
    requires TagOf(a) == TagOf(b)
    ensures a == b
  {
    assert TagOf(a)[1..] == Base(a) && TagOf(b)[1..] == Base(b);
    ParseOfBase(a);
    ParseOfBase(b);
  }

  predicate IsTag(t: string) { t != "" && t[0] == 'v' && IsBase(t[1..]) }

  /** The stable versions among the tags. */
  function Values(tags: set<string>): set<Version> { set t | t in tags && IsTag(t) :: ParseBase(t[1..]).value }

  lemma ValuesAreTagged(tags: set<string>, v: Version)
    ensures v in Values(tags) <==> TagOf(v) in tags
  {
    assert TagOf(v)[1..] == Base(v);
    ParseOfBase(v);
    if v in Values(tags) {
      var t :| t in tags && IsTag(t) && ParseBase(t[1..]).value == v;
      BaseOfParse(t[1..]);
      assert t == "v" + t[1..];
    }
  }

  predicate IsGreatest(v: Version, values: set<Version>) {
    v in values && forall w :: w in values ==> !Below(v, w)
  }

  lemma {:induction false} GreatestExists(values: set<Version>)
    requires values != {}
    ensures exists v :: IsGreatest(v, values)
    decreases |values|
  {
    var x :| x in values;
    if values == {x} {
      assert IsGreatest(x, values);
    } else {
      GreatestExists(values - {x});
      var v :| IsGreatest(v, values - {x});
      if Below(v, x) {
        assert forall w :: w in values && w != x ==> w in values - {x};
        assert IsGreatest(x, values);
      } else {
        assert forall w :: w in values && w != x ==> w in values - {x};
        assert IsGreatest(v, values);
      }
    }
  }

  lemma GreatestUnique(values: set<Version>)
    ensures forall v, w :: IsGreatest(v, values) && IsGreatest(w, values) ==> v == w
  {
  }

  /** Python's `max` of the versions as triples. */
  function Greatest(values: set<Version>): (v: Version)
    requires values != {}
    ensures IsGreatest(v, values)
  {
    GreatestExists(values);
    GreatestUnique(values);
    var v :| v in values && IsGreatest(v, values);
    v
  }

  /** Where the search starts: the current base if it is unreleased, else just above the greatest tag. */
  function Bumped(current: Version, tags: set<string>, bump: Bump): Version {
    match bump
    case NextPatch =>
      var values := Values(tags);
      if values == {} || Below(Greatest(values), current) then current
      else var top := Greatest(values); Version(top.major, top.minor, top.patch + 1)
    case Major => Version(current.major + 1, 0, 0)
    case Minor => Version(current.major, current.minor + 1, 0)
    case Patch => Version(current.major, current.minor, current.patch + 1)
  }

  function After(v: Version, k: nat): Version { Version(v.major, v.minor, v.patch + k) }

  /** The first patch from `start` on that no tag has taken. */
  ghost predicate IsNextFree(start: Version, occupied: set<string>, v: Version) {
    exists k: nat :: FreeAfter(start, occupied, k) && v == After(start, k)
  }

  ghost predicate FreeAfter(start: Version, occupied: set<string>, k: nat) {
    TagOf(After(start, k)) !in occupied && forall i :: 0 <= i < k ==> TagOf(After(start, i)) in occupied
  }

  /** However many tags are taken, some patch is free. */
  lemma {:induction false} SomeFree(start: Version, occupied: set<string>) returns (k: nat)
    ensures TagOf(After(start, k)) !in occupied
    decreases |occupied|
  {
    k := 0;
    if TagOf(start) in occupied {
      var j := SomeFree(After(start, 1), occupied - {TagOf(start)});
      k := 1 + j;
      assert After(After(start, 1), j) == After(start, k);
      if TagOf(After(start, k)) == TagOf(start) {
        TagsTell(After(start, k), start);
      }
    }
  }

  method NextFree(start: Version, occupied: set<string>) returns (v: Version)
    ensures IsNextFree(start, occupied, v)
  {
    v := start;
    ghost var k := 0;
    ghost var bound := SomeFree(start, occupied);
    while TagOf(v) in occupied
      invariant k <= bound && v == After(start, k)
      invariant forall i :: 0 <= i < k ==> TagOf(After(start, i)) in occupied
      decreases bound - k
    {
      v := Version(v.major, v.minor, v.patch + 1);
      k := k + 1;
    }
    assert FreeAfter(start, occupied, k);
  }

  lemma NextFreeUnique(start: Version, occupied: set<string>, v: Version, w: Version)
    requires IsNextFree(start, occupied, v) && IsNextFree(start, occupied, w)
    ensures v == w
  {
    var j: nat :| FreeAfter(start, occupied, j) && v == After(start, j);
    var k: nat :| FreeAfter(start, occupied, k) && w == After(start, k);
    assert !(j < k) && !(k < j);
  }

  // ---- the choice ----

  /** The answer the request calls for; `occupied` holds every advertised tag. */
  ghost predicate IsChoice(current: Version, tags: set<string>, requested: string, bump: Bump, occupied: set<string>,
                           r: Result<Version, Refusal>) {
    if requested != "" then
      r == match ParseBase(requested)
           case None => Failure(BadRequest)
           case Some(v) =>
             if Below(v, current) then Failure(Downgrade)
             else if TagOf(v) in occupied then Failure(AlreadyTagged)
             else Success(v)
    else if bump.NextPatch? then
      r.Success? && IsNextFree(Bumped(current, tags, NextPatch), occupied, r.value)
    else
      var v := Bumped(current, tags, bump);
      r == if TagOf(v) in occupied then Failure(AlreadyTagged) else Success(v)
  }

  method ChooseVersion(current: Version, tags: set<string>, requested: string, bump: Bump,
                       occupied: Option<set<string>>)
    returns (r: Result<Version, Refusal>)
    ensures IsChoice(current, tags, requested, bump, if occupied.Some? then occupied.value else tags, r)
  {
    var selected: Version;
    if requested != "" {
      var parsed := ParseBase(requested);
      if parsed.None? {
        return Failure(BadRequest);
      }
      selected := parsed.value;
    } else {
      selected := Bumped(current, tags, bump);
    }
    BumpedIsNoDowngrade(current, tags, bump);
    if Below(selected, current) {
      return Failure(Downgrade);
    }
    var taken := if occupied.Some? then occupied.value else tags;
    if requested != "" || !bump.NextPatch? {
      if TagOf(selected) in taken {
        return Failure(AlreadyTagged);
      }
    } else {
      selected := NextFree(selected, taken);
    }
    return Success(selected);
  }

  lemma BumpedIsNoDowngrade(current: Version, tags: set<string>, bump: Bump)
    ensures !Below(Bumped(current, tags, bump), current)
  {
    if bump.NextPatch? && Values(tags) != {} {
      var top := Greatest(Values(tags));
      assert Below(top, current) || !Below(Version(top.major, top.minor, top.patch + 1), current);
    }
  }

  /**
   * The next patch always exists and is free; it is not below the current base, it is above every
   * stable tag in the history, and it is the least such patch from where the search starts.
   */
  lemma NextPatchIsAboveHistory(current: Version, tags: set<string>, occupied: set<string>, r: Result<Version, Refusal>)
    requires IsChoice(current, tags, "", NextPatch, occupied, r)
    ensures r.Success? && TagOf(r.value) !in occupied && !Below(r.value, current)
    ensures forall w :: TagOf(w) in tags ==> Below(w, r.value)
    ensures var start := Bumped(current, tags, NextPatch);
            forall w :: Below(w, r.value) && !Below(w, start) ==> TagOf(w) in occupied
  {
    var start := Bumped(current, tags, NextPatch);
    var k: nat :| FreeAfter(start, occupied, k) && r.value == After(start, k);
    BumpedIsNoDowngrade(current, tags, NextPatch);
    forall w | TagOf(w) in tags ensures Below(w, r.value) {
      ValuesAreTagged(tags, w);
      var top := Greatest(Values(tags));
      assert !Below(top, w) && Below(top, start);
    }
    forall w | Below(w, r.value) && !Below(w, start) ensures TagOf(w) in occupied {
      assert w == After(start, w.patch - start.patch);
    }
  }

  /** An explicit request or another bump is taken or refused for a stated reason, never moved. */
  lemma RequestsAreNotMoved(current: Version, tags: set<string>, requested: string, bump: Bump, occupied: set<string>,
                            r: Result<Version, Refusal>)
    requires IsChoice(current, tags, requested, bump, occupied, r)
    ensures r.Success? ==> TagOf(r.value) !in occupied && !Below(r.value, current)
    ensures requested != "" && r.Success? ==> Base(r.value) == requested
    ensures requested == "" && !bump.NextPatch? && r.Success? ==> Below(current, r.value)
    ensures requested == "" && bump.NextPatch? ==> r.Success?
  {
    if requested == "" && bump.NextPatch? {
      NextPatchIsAboveHistory(current, tags, occupied, r);
    } else if requested != "" && r.Success? {
      BaseOfParse(requested);
    }
  }

  // ---- the answers, without the search ----

  /** The text names the version, in decimal and without leading zeros. */
  ghost predicate Names(text: string, v: Version) {
    text == Digits(v.major) + "." + Digits(v.minor) + "." + Digits(v.patch)
  }

  lemma NamesAreParsed(text: string)
    ensures ParseBase(text).Some? <==> exists v :: Names(text, v)
    ensures forall v :: Names(text, v) ==> ParseBase(text) == Some(v)
    ensures ParseBase(text).Some? ==> Names(text, ParseBase(text).value)
  {
    if ParseBase(text).Some? {
      BaseOfParse(text);
      assert Names(text, ParseBase(text).value);
    }
    forall v | Names(text, v) ensures ParseBase(text) == Some(v) { ParseOfBase(v); }
  }

  /** Exactly when an explicit request is taken, and for which reason it is refused. */
  lemma RequestsInFull(current: Version, tags: set<string>, requested: string, bump: Bump, occupied: set<string>,
                       r: Result<Version, Refusal>)
    requires requested != "" && IsChoice(current, tags, requested, bump, occupied, r)
    ensures r == Failure(BadRequest) <==> !exists v :: Names(requested, v)
    ensures r == Failure(Downgrade) <==> exists v :: Names(requested, v) && Below(v, current)
    ensures r == Failure(AlreadyTagged) <==>
              exists v :: Names(requested, v) && !Below(v, current) && "v" + requested in occupied
    ensures forall v :: r == Success(v) <==>
                          Names(requested, v) && !Below(v, current) && "v" + requested !in occupied
  {
    NamesAreParsed(requested);
  }

  /** The asked-for part of the current base is one more and the parts after it are zero, or the tag is taken. */
  lemma BumpsInFull(current: Version, tags: set<string>, bump: Bump, occupied: set<string>,
                    r: Result<Version, Refusal>)
    requires !bump.NextPatch? && IsChoice(current, tags, "", bump, occupied, r)
    ensures var (major, minor, patch) := (current.major, current.minor, current.patch);
            var v := if bump.Major? then Version(major + 1, 0, 0)
                     else if bump.Minor? then Version(major, minor + 1, 0)
                     else Version(major, minor, patch + 1);
            r == if exists text :: Names(text, v) && "v" + text in occupied then Failure(AlreadyTagged) else Success(v)
  {
    hide Digits;
    var v := Bumped(current, tags, bump);
    assert Names(Base(v), v);
  }

  /** No stable tag is at or above the current base. */
  ghost predicate IsUnreleased(current: Version, tags: set<string>) {
    forall w :: "v" + Base(w) in tags ==> Below(w, current)
  }

  ghost predicate IsTop(top: Version, tags: set<string>) {
    "v" + Base(top) in tags && forall w :: "v" + Base(w) in tags ==> !Below(top, w)
  }

  /** All patches from one on up to the answer are taken, and the answer is not. */
  ghost predicate IsFirstFree(major: nat, minor: nat, patch: nat, occupied: set<string>, v: Version) {
    && v.major == major && v.minor == minor && v.patch >= patch && "v" + Base(v) !in occupied
    && forall p: nat {:trigger Version(major, minor, p)} ::
         patch <= p < v.patch ==> "v" + Base(Version(major, minor, p)) in occupied
  }

  /**
   * The next patch is the first free one from the current base on while that is unreleased, and else the first
   * free one after the greatest stable tag.
   */
  lemma NextPatchInFull(current: Version, tags: set<string>, occupied: set<string>, r: Result<Version, Refusal>)
    requires IsChoice(current, tags, "", NextPatch, occupied, r)
    ensures r.Success?
    ensures IsUnreleased(current, tags) ==>
              IsFirstFree(current.major, current.minor, current.patch, occupied, r.value)
    ensures !IsUnreleased(current, tags) ==>
              exists top :: IsTop(top, tags) && IsFirstFree(top.major, top.minor, top.patch + 1, occupied, r.value)
  {
    hide Base;
    var start := Bumped(current, tags, NextPatch);
    FirstFree(start, occupied, r.value);
    forall w ensures w in Values(tags) <==> "v" + Base(w) in tags { ValuesAreTagged(tags, w); }
    if Values(tags) != {} {
      assert IsTop(Greatest(Values(tags)), tags);
    }
  }

  lemma FirstFree(start: Version, occupied: set<string>, v: Version)
    requires IsNextFree(start, occupied, v)
    ensures IsFirstFree(start.major, start.minor, start.patch, occupied, v)
  {
    hide Base;
    var k: nat :| FreeAfter(start, occupied, k) && v == After(start, k);
    forall p: nat | start.patch <= p < v.patch ensures "v" + Base(Version(start.major, start.minor, p)) in occupied {
      assert TagOf(After(start, p - start.patch)) in occupied;
    }
  }
}
