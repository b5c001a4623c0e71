// Merging two checked archives: one index over the leaves of both, one store of their blobs.
module OciMerge {
  import opened Wrappers
  import opened Lexicographic
  import opened OciArchive

  // ---- the order of the leaves ----

  predicate IsAside(d: Descriptor) { d.platform.Some? && d.platform.value.os == Some("unknown") }

  function ArchitectureOf(d: Descriptor): string {
    if d.platform.Some? && d.platform.value.architecture.Some? then d.platform.value.architecture.value else ""
  }

  /** Images before attestations, then by architecture, then by digest. */
  predicate Precedes(a: Descriptor, b: Descriptor) {
    if IsAside(a) != IsAside(b) then IsAside(b)
    else if ArchitectureOf(a) != ArchitectureOf(b) then AtMost(ArchitectureOf(a), ArchitectureOf(b))
    else AtMost(a.digest, b.digest)
  }

  lemma PrecedesTotal(a: Descriptor, b: Descriptor)
    ensures Precedes(a, b) || Precedes(b, a)
    ensures Precedes(a, b) && Precedes(b, a) ==> a.digest == b.digest
  {
    Total(ArchitectureOf(a), ArchitectureOf(b));
    Total(a.digest, b.digest);
    if Precedes(a, b) && Precedes(b, a) {
      if ArchitectureOf(a) != ArchitectureOf(b) {
        Antisymmetric(ArchitectureOf(a), ArchitectureOf(b));
      }
      if AtMost(a.digest, b.digest) && AtMost(b.digest, a.digest) {
        Antisymmetric(a.digest, b.digest);
      }
    }
  }

  lemma PrecedesTransitive(a: Descriptor, b: Descriptor, c: Descriptor)
    requires Precedes(a, b) && Precedes(b, c)
    ensures Precedes(a, c)
  {
    var x, y, z := ArchitectureOf(a), ArchitectureOf(b), ArchitectureOf(c);
    if AtMost(x, y) && AtMost(y, z) {
      Transitive(x, y, z);
    }
    if AtMost(a.digest, b.digest) && AtMost(b.digest, c.digest) {
      Transitive(a.digest, b.digest, c.digest);
    }
    if x == z && AtMost(x, y) && AtMost(y, x) {
      Antisymmetric(x, y);
    }
  }

  function InsertLeaf(d: Descriptor, ds: seq<Descriptor>): seq<Descriptor> {
    if ds == [] || Precedes(d, ds[0]) then [d] + ds else [ds[0]] + InsertLeaf(d, ds[1..])
  }

  function SortLeaves(ds: seq<Descriptor>): seq<Descriptor> {
    if ds == [] then [] else InsertLeaf(ds[0], SortLeaves(ds[1..]))
  }

  predicate InOrder(ds: seq<Descriptor>) {
    ds == [] || ((forall d :: d in ds[1..] ==> Precedes(ds[0], d)) && InOrder(ds[1..]))
  }

  lemma {:induction false} InsertKeeps(d: Descriptor, ds: seq<Descriptor>)
    requires InOrder(ds)
    ensures InOrder(InsertLeaf(d, ds)) && multiset(InsertLeaf(d, ds)) == multiset([d] + ds)
  {
    PrecedesTotal(d, d);
    if ds != [] {
      assert ds == [ds[0]] + ds[1..];
      if Precedes(d, ds[0]) {
        forall x | x in ds ensures Precedes(d, x) {
          if x in ds[1..] { PrecedesTransitive(d, ds[0], x); }
        }
        assert ([d] + ds)[1..] == ds;
      } else {
        PrecedesTotal(d, ds[0]);
        InsertKeeps(d, ds[1..]);
        var rest := InsertLeaf(d, ds[1..]);
        assert InsertLeaf(d, ds)[1..] == rest;
        forall x | x in rest ensures Precedes(ds[0], x) {
          assert x in multiset(rest);
        }
      }
    }
  }

  lemma {:induction false} SortSorts(ds: seq<Descriptor>)
    ensures InOrder(SortLeaves(ds)) && multiset(SortLeaves(ds)) == multiset(ds)
  {
    if ds != [] {
      SortSorts(ds[1..]);
      InsertKeeps(ds[0], SortLeaves(ds[1..]));
      assert ds == [ds[0]] + ds[1..];
    }
  }

  // ---- sorting is stable ----

  /** Neither goes before the other: one digest, one architecture. */
  predicate Tied(a: Descriptor, b: Descriptor) { Precedes(a, b) && Precedes(b, a) }

  /** The descriptors tied with one, in their order. */
  function TiedWith(ds: seq<Descriptor>, x: Descriptor): seq<Descriptor> {
    if ds == [] then [] else (if Tied(ds[0], x) then [ds[0]] else []) + TiedWith(ds[1..], x)
  }

  /** The same ties in the same order. */
  ghost predicate SameTied(a: seq<Descriptor>, b: seq<Descriptor>) { forall x :: TiedWith(a, x) == TiedWith(b, x) }

  lemma {:induction false} TiedWithMembers(ds: seq<Descriptor>, x: Descriptor)
    ensures forall d :: d in TiedWith(ds, x) <==> d in ds && Tied(d, x)
  {
    if ds != [] {
      TiedWithMembers(ds[1..], x);
      assert forall d :: d in ds <==> d == ds[0] || d in ds[1..];
    }
  }

  lemma TiesCompose(a: Descriptor, b: Descriptor, x: Descriptor)
    requires Tied(a, x) && Tied(b, x)
    ensures Tied(a, b)
  {
    PrecedesTransitive(a, x, b);
    PrecedesTransitive(b, x, a);
  }

  lemma {:induction false} InsertKeepsTies(d: Descriptor, ds: seq<Descriptor>, x: Descriptor)
    ensures TiedWith(InsertLeaf(d, ds), x) == TiedWith([d] + ds, x)
  {
    assert ([d] + ds)[1..] == ds;
    if ds != [] && !Precedes(d, ds[0]) {
      InsertKeepsTies(d, ds[1..], x);
      assert InsertLeaf(d, ds)[1..] == InsertLeaf(d, ds[1..]) && ([d] + ds[1..])[1..] == ds[1..];
      if Tied(d, x) && Tied(ds[0], x) {
        TiesCompose(d, ds[0], x);
      }
    }
  }

  /** Sorting moves no leaf past one it is tied with. */
  lemma {:induction false} SortIsStable(ds: seq<Descriptor>, x: Descriptor)
    ensures TiedWith(SortLeaves(ds), x) == TiedWith(ds, x)
  {
    if ds != [] {
      SortIsStable(ds[1..], x);
      InsertKeepsTies(ds[0], SortLeaves(ds[1..]), x);
      assert ([ds[0]] + SortLeaves(ds[1..]))[1..] == SortLeaves(ds[1..]);
    }
  }

  lemma SameFirst(a: seq<Descriptor>, b: seq<Descriptor>)
    requires InOrder(a) && InOrder(b) && a != [] && SameTied(a, b)
    ensures b != [] && a[0] == b[0]
  {
    PrecedesTotal(a[0], a[0]);
    TiedWithMembers(a, a[0]);
    TiedWithMembers(b, a[0]);
    assert TiedWith(a, a[0]) == TiedWith(b, a[0]) && a[0] in TiedWith(b, a[0]);
    PrecedesTotal(b[0], b[0]);
    TiedWithMembers(a, b[0]);
    TiedWithMembers(b, b[0]);
    assert TiedWith(a, b[0]) == TiedWith(b, b[0]) && b[0] in TiedWith(a, b[0]);
    assert Tied(b[0], a[0]) by { assert a[0] in b && b[0] in a; }
    assert TiedWith(a, a[0])[0] == a[0] && TiedWith(b, a[0])[0] == b[0];
  }

  lemma TailTies(a: seq<Descriptor>, b: seq<Descriptor>, x: Descriptor)
    requires a != [] && b != [] && a[0] == b[0] && TiedWith(a, x) == TiedWith(b, x)
    ensures TiedWith(a[1..], x) == TiedWith(b[1..], x)
  {
    var first := if Tied(a[0], x) then [a[0]] else [];
    assert TiedWith(a, x)[|first|..] == TiedWith(a[1..], x);
    assert TiedWith(b, x)[|first|..] == TiedWith(b[1..], x);
  }

  /** Sorted leaves are determined by what is tied with what, in which order. */
  lemma {:induction false} OrderedByTies(a: seq<Descriptor>, b: seq<Descriptor>)
    requires InOrder(a) && InOrder(b) && SameTied(a, b)
    ensures a == b
    decreases |a|
  {
    if a != [] {
      SameFirst(a, b);
      forall x ensures TiedWith(a[1..], x) == TiedWith(b[1..], x) { TailTies(a, b, x); }
      OrderedByTies(a[1..], b[1..]);
      assert a == [a[0]] + a[1..] && b == [b[0]] + b[1..];
    } else if b != [] {
      FirstIsTied(b);
    }
  }

  lemma FirstIsTied(ds: seq<Descriptor>)
    requires ds != []
    ensures TiedWith(ds, ds[0]) != []
  {
    PrecedesTotal(ds[0], ds[0]);
  }

  /** Two sequences of leaves sort alike exactly when they have the same ties in the same order. */
  lemma SortedAlike(a: seq<Descriptor>, b: seq<Descriptor>)
    ensures SortLeaves(a) == SortLeaves(b) <==> SameTied(a, b)
  {
    SortSorts(a);
    SortSorts(b);
    forall x ensures TiedWith(SortLeaves(a), x) == TiedWith(SortLeaves(b), x) <==> TiedWith(a, x) == TiedWith(b, x) {
      SortedTies(a, b, x);
    }
    if SameTied(a, b) {
      OrderedByTies(SortLeaves(a), SortLeaves(b));
    }
  }

  lemma SortedTies(a: seq<Descriptor>, b: seq<Descriptor>, x: Descriptor)
    ensures TiedWith(SortLeaves(a), x) == TiedWith(SortLeaves(b), x) <==> TiedWith(a, x) == TiedWith(b, x)
  {
    SortIsStable(a, x);
    SortIsStable(b, x);
  }

  lemma {:induction false} TiedWithBoth(a: seq<Descriptor>, b: seq<Descriptor>, x: Descriptor)
    ensures TiedWith(a + b, x) == TiedWith(a, x) + TiedWith(b, x)
  {
    if a == [] {
      assert a + b == b;
    } else {
      assert (a + b)[1..] == a[1..] + b;
      TiedWithBoth(a[1..], b, x);
    }
  }

  /** One archive has no two leaves of one digest, so at most one is tied with anything. */
  lemma {:induction false} OneTie(ds: seq<Descriptor>, x: Descriptor)
    requires Unrepeated(ds)
    ensures |TiedWith(ds, x)| <= 1
  {
    if ds != [] {
      assert Unrepeated(ds[1..]);
      OneTie(ds[1..], x);
      if Tied(ds[0], x) && TiedWith(ds[1..], x) != [] {
        var d := TiedWith(ds[1..], x)[0];
        TiedWithMembers(ds[1..], x);
        assert d in ds[1..] && Tied(d, x);
        TiesCompose(ds[0], d, x);
        PrecedesTotal(ds[0], d);
      }
    }
  }

  lemma SameTies(a: seq<Descriptor>, b: seq<Descriptor>, x: Descriptor)
    requires Unrepeated(a) && Unrepeated(b) && forall d :: d in a <==> d in b
    ensures TiedWith(a, x) == TiedWith(b, x)
  {
    OneTie(a, x);
    OneTie(b, x);
    TiedWithMembers(a, x);
    TiedWithMembers(b, x);
    OneAlike(TiedWith(a, x), TiedWith(b, x));
  }

  lemma OneAlike(s: seq<Descriptor>, t: seq<Descriptor>)
    requires |s| <= 1 && |t| <= 1 && forall d :: d in s <==> d in t
    ensures s == t
  {
    if s != [] { assert s[0] in t; }
    if t != [] { assert t[0] in s; }
  }

  /** The order of the merged leaves depends on which leaves each archive has, not on how it lists them. */
  lemma OneOrder(a: seq<Descriptor>, b: seq<Descriptor>, a': seq<Descriptor>, b': seq<Descriptor>)
    requires Unrepeated(a) && Unrepeated(b) && Unrepeated(a') && Unrepeated(b')
    requires (forall d :: d in a <==> d in a') && forall d :: d in b <==> d in b'
    ensures SortLeaves(a + b) == SortLeaves(a' + b')
  {
    forall x ensures TiedWith(a + b, x) == TiedWith(a' + b', x) {
      TiedWithBoth(a, b, x);
      TiedWithBoth(a', b', x);
      SameTies(a, a', x);
      SameTies(b, b', x);
    }
    SortedAlike(a + b, a' + b');
  }

  /** Exactly when it does not depend on which archive comes first either. */
  lemma OrderOfArchives(a: seq<Descriptor>, b: seq<Descriptor>)
    requires Unrepeated(a) && Unrepeated(b)
    ensures SortLeaves(a + b) == SortLeaves(b + a) <==> forall x, y :: x in a && y in b && Tied(x, y) ==> x == y
  {
    SortedAlike(a + b, b + a);
    forall x ensures TiedWith(a + b, x) == TiedWith(a, x) + TiedWith(b, x)
      ensures TiedWith(b + a, x) == TiedWith(b, x) + TiedWith(a, x)
      ensures |TiedWith(a, x)| <= 1 && |TiedWith(b, x)| <= 1
    {
      TiedWithBoth(a, b, x);
      TiedWithBoth(b, a, x);
      OneTie(a, x);
      OneTie(b, x);
    }
    if SortLeaves(a + b) == SortLeaves(b + a) {
      forall x, y | x in a && y in b && Tied(x, y) ensures x == y { TiedAlike(a, b, x, y); }
    }
    if forall x, y :: x in a && y in b && Tied(x, y) ==> x == y {
      forall x ensures TiedWith(a + b, x) == TiedWith(b + a, x) { EqualTies(a, b, x); }
    }
  }

  /** Each at most one, they can change places only when one is missing or they are the same. */
  lemma SwapsAlike(s: seq<Descriptor>, t: seq<Descriptor>)
    requires |s| <= 1 && |t| <= 1
    ensures s + t == t + s <==> s == [] || t == [] || s == t
  {
    if s == [] || t == [] {
      assert s + t == t + s;
    } else {
      assert (s + t)[0] == s[0] && (t + s)[0] == t[0];
    }
  }

  lemma TiedAlike(a: seq<Descriptor>, b: seq<Descriptor>, x: Descriptor, y: Descriptor)
    requires Unrepeated(a) && Unrepeated(b) && x in a && y in b && Tied(x, y)
    requires TiedWith(a + b, x) == TiedWith(b + a, x)
    ensures x == y
  {
    PrecedesTotal(x, x);
    TiedWithBoth(a, b, x);
    TiedWithBoth(b, a, x);
    OneTie(a, x);
    OneTie(b, x);
    TiedWithMembers(a, x);
    TiedWithMembers(b, x);
    SwapsAlike(TiedWith(a, x), TiedWith(b, x));
    assert x in TiedWith(a, x) && y in TiedWith(b, x);
  }

  lemma EqualTies(a: seq<Descriptor>, b: seq<Descriptor>, x: Descriptor)
    requires Unrepeated(a) && Unrepeated(b) && forall d, e :: d in a && e in b && Tied(d, e) ==> d == e
    ensures TiedWith(a + b, x) == TiedWith(b + a, x)
  {
    TiedWithBoth(a, b, x);
    TiedWithBoth(b, a, x);
    OneTie(a, x);
    OneTie(b, x);
    SwapsAlike(TiedWith(a, x), TiedWith(b, x));
    if TiedWith(a, x) != [] && TiedWith(b, x) != [] {
      TiedOnes(a, b, x, TiedWith(a, x)[0], TiedWith(b, x)[0]);
    }
  }

  lemma TiedOnes(a: seq<Descriptor>, b: seq<Descriptor>, x: Descriptor, d: Descriptor, e: Descriptor)
    requires d in TiedWith(a, x) && e in TiedWith(b, x)
    ensures d in a && e in b && Tied(d, e)
  {
    TiedWithMembers(a, x);
    TiedWithMembers(b, x);
    TiesCompose(d, e, x);
  }

  /** Of two accepted archives for different architectures only attestations can be tied. */
  lemma TiesAreAttestations(first: Archive, second: Archive, x: Descriptor, y: Descriptor)
    requires first.Valid() && second.Valid() && x in first.leaves && y in second.leaves && Tied(x, y)
    requires first.wanted.architecture != second.wanted.architecture
    requires first.wanted.os != "unknown" && second.wanted.os != "unknown"
    ensures x.platform.Some? && IsUnknown(x.platform.value) && y.platform.Some? && IsUnknown(y.platform.value)
    ensures x.digest == y.digest
  {
    PrecedesTotal(x, y);
    LeafPlatform(first, x);
    LeafPlatform(second, y);
    if ArchitectureOf(x) != ArchitectureOf(y) {
      Antisymmetric(ArchitectureOf(x), ArchitectureOf(y));
    }
  }

  lemma LeafPlatform(archive: Archive, d: Descriptor)
    requires archive.Valid() && d in archive.leaves
    ensures d.platform.Some? && (RunsOn(archive.wanted, d.platform.value) || IsUnknown(d.platform.value))
  {
    assert LeafSound(archive.tools, archive.blobs, archive.wanted, d);
  }

  // ---- the merged store ----

  function InnerIndex(tools: Tools, leaves: seq<Descriptor>): (string, Descriptor) {
    var inner := tools.render(leaves);
    (inner, Descriptor(IndexType, tools.hash(inner), |inner|, None, None, None, None))
  }

  predicate Compatible(a: Blobs, b: Blobs) { forall d :: d in a && d in b ==> |a[d]| == |b[d]| }

  function MergedBlobs(tools: Tools, a: Blobs, b: Blobs, leaves: seq<Descriptor>): Blobs {
    var (inner, d) := InnerIndex(tools, leaves);
    (a + b)[d.digest := inner]
  }

  /** All blobs of the first, and those of the second but for `names`. */
  predicate MergedBut(blobs: Blobs, a: Blobs, b: Blobs, names: set<string>) { blobs == a + (b - names) }

  lemma OneMoreBlob(blobs: Blobs, a: Blobs, b: Blobs, names: set<string>, name: string)
    requires MergedBut(blobs, a, b, names) && name in names && names <= b.Keys
    ensures MergedBut(blobs[name := b[name]], a, b, names - {name})
    ensures name in blobs ==> name in a && blobs[name] == a[name]
    ensures name in a ==> name in blobs
  {
    assert b - (names - {name}) == (b - names)[name := b[name]];
  }

  method MergeBlobs(a: Blobs, b: Blobs) returns (r: Option<Blobs>)
    ensures r == if forall d :: d in a && d in b ==> |a[d]| == |b[d]| then Some(a + b) else None
  {
    var blobs := a;
    var names := b.Keys;
    assert b - names == map[] && a + map[] == a;
    while names != {}
      invariant names <= b.Keys && MergedBut(blobs, a, b, names)
      invariant forall d :: d in a && d in b && d !in names ==> |a[d]| == |b[d]|
      decreases |names|
    {
      var name :| name in names;
      OneMoreBlob(blobs, a, b, names, name);
      if name in blobs && |blobs[name]| != |b[name]| {
        return None;
      }
      blobs := blobs[name := b[name]];
      names := names - {name};
    }
    assert b - names == b;
    return Some(blobs);
  }

  /** One merged archive: the descriptor of its index, and every blob. */
  method MergeArchives(tools: Tools, first: Archive, second: Archive) returns (r: Option<(Descriptor, Blobs)>)
    ensures var leaves := SortLeaves(first.leaves + second.leaves);
            r == if Compatible(first.blobs, second.blobs)
                 then Some((InnerIndex(tools, leaves).1, MergedBlobs(tools, first.blobs, second.blobs, leaves)))
                   else None
  {
    var leaves := SortLeaves(first.leaves + second.leaves);
    var (inner, d) := InnerIndex(tools, leaves);
    var blobs := MergeBlobs(first.blobs, second.blobs);
    if blobs.None? {
      return None;
    }
    return Some((d, blobs.value[d.digest := inner]));
  }

  // ---- everything reachable resolves ----

  /** Each leaf is an image, or is about one of the images here. */
  ghost predicate Closed(tools: Tools, blobs: Blobs, w: Wanted, leaves: seq<Descriptor>) {
    forall d :: d in leaves ==>
      IsImage(tools, blobs, w, d)
        || exists i :: i in leaves && IsImage(tools, blobs, w, i) && IsAbout(tools, blobs, w, d, Key(i))
  }

  lemma {:induction false} RecordedLeaves(tools: Tools, blobs: Blobs, w: Wanted, leaves: seq<Descriptor>)
    ensures forall k :: k in ImagesOf(tools, blobs, leaves) <==>
              exists d :: d in leaves && !ReadAsAttestation(tools, blobs, d) && Key(d) == k
    ensures forall d :: d in leaves && ReadAsAttestation(tools, blobs, d) && AttestedBy(tools, blobs, w, d).Some? ==>
              Attestation(d.digest, AttestedBy(tools, blobs, w, d).value) in AttestationsOf(tools, blobs, w, leaves)
  {
    if leaves != [] {
      var init, last := leaves[..|leaves| - 1], leaves[|leaves| - 1];
      RecordedLeaves(tools, blobs, w, init);
      assert leaves == init + [last];
    }
  }

  /** The one image of an archive, and what its attestations are about. */
  predicate IsWhole(images: seq<(Media, string, int)>, attestations: seq<Attestation>) {
    |images| == 1 && forall a :: a in attestations ==> a.subject == images[0]
  }

  /** This leaf is the archive's one image, and all others are about it. */
  ghost predicate IsTheImage(tools: Tools, blobs: Blobs, w: Wanted, leaves: seq<Descriptor>, i: Descriptor) {
    && i in leaves && IsImage(tools, blobs, w, i)
    && forall d :: d in leaves ==>
         (IsImage(tools, blobs, w, d) && Key(d) == Key(i)) || IsAbout(tools, blobs, w, d, Key(i))
  }

  ghost predicate OneImage(tools: Tools, blobs: Blobs, w: Wanted, leaves: seq<Descriptor>) {
    exists i :: IsTheImage(tools, blobs, w, leaves, i)
  }

  lemma OneImageIsClosed(tools: Tools, blobs: Blobs, w: Wanted, leaves: seq<Descriptor>)
    requires OneImage(tools, blobs, w, leaves)
    ensures Closed(tools, blobs, w, leaves)
  {
    var i :| IsTheImage(tools, blobs, w, leaves, i);
  }

  lemma AcceptedIsClosed(archive: Archive)
    requires archive.Valid() && IsWhole(archive.images, archive.attestations)
    ensures OneImage(archive.tools, archive.blobs, archive.wanted, archive.leaves)
  {
    hide IsImage, IsAbout, AttestedBy, ImageSound;
    var tools, blobs, w := archive.tools, archive.blobs, archive.wanted;
    RecordedLeaves(tools, blobs, w, archive.leaves);
    assert archive.images[0] in archive.images;
    var i :| i in archive.leaves && !ReadAsAttestation(tools, blobs, i) && Key(i) == archive.images[0];
    SoundIffImage(tools, blobs, w, i);
    forall d | d in archive.leaves
      ensures (IsImage(tools, blobs, w, d) && Key(d) == Key(i)) || IsAbout(tools, blobs, w, d, Key(i))
    {
      if ReadAsAttestation(tools, blobs, d) {
        AttestedIffAbout(tools, blobs, w, d, AttestedBy(tools, blobs, w, d).value);
        assert Attestation(d.digest, AttestedBy(tools, blobs, w, d).value) in archive.attestations;
      } else {
        SoundIffImage(tools, blobs, w, d);
        assert Key(d) in archive.images;
      }
    }
    assert IsTheImage(tools, blobs, w, archive.leaves, i);
  }

  /** Every blob is hashed before any is believed. */
  method Inventory(tools: Tools, blobs: Blobs) returns (ok: bool)
    ensures ok == Addressed(tools, blobs)
  {
    var names := blobs.Keys;
    while names != {}
      invariant names <= blobs.Keys && forall d :: d in blobs && d !in names ==> tools.hash(blobs[d]) == d
      decreases |names|
    {
      var name :| name in names;
      if tools.hash(blobs[name]) != name {
        return false;
      }
      names := names - {name};
    }
    return true;
  }

  /** The graph under the root is sound, fits all limits, and has one image that all attestations are about. */
  ghost predicate GraphAccepted(tools: Tools, blobs: Blobs, w: Wanted, manifests: seq<Descriptor>) {
    var leaves := LeavesOfAll(tools, blobs, manifests, 0);
    && 0 < |manifests| <= 1024 && AcceptsAll(tools, blobs, w, [], 0, manifests, 0)
    && IsWhole(ImagesOf(tools, blobs, leaves), AttestationsOf(tools, blobs, w, leaves))
  }

  /** Walks the graph from the root and insists on one image that all attestations are about. */
  method WalkWhole(archive: Archive, manifests: seq<Descriptor>) returns (ok: bool)
    requires archive.Valid() && archive.leaves == [] && archive.visited == 0
    modifies archive
    ensures ok <==> GraphAccepted(archive.tools, archive.blobs, archive.wanted, manifests)
    ensures ok ==> archive.Valid() && archive.leaves == LeavesOfAll(archive.tools, archive.blobs, manifests, 0)
    ensures ok ==> archive.visited == VisitsOfAll(archive.tools, archive.blobs, manifests, 0)
    ensures ok ==> OneImage(archive.tools, archive.blobs, archive.wanted, archive.leaves)
  {
    ghost var under := LeavesOfAll(archive.tools, archive.blobs, manifests, 0);
    assert [] + under == under;
    ok := archive.WalkIndex(manifests, 0);
    if ok {
      ok := archive.IsComplete();
    }
    if ok {
      AcceptedIsClosed(archive);
    }
  }

  /** An archive is accepted exactly when its blobs hash to their names and its whole graph is acceptable. */
  method OpenArchive(tools: Tools, blobs: Blobs, manifests: seq<Descriptor>, wanted: Wanted)
    returns (archive: Archive, ok: bool)
    ensures fresh(archive) && archive.tools == tools && archive.blobs == blobs && archive.wanted == wanted
    ensures ok <==> Addressed(tools, blobs) && GraphAccepted(tools, blobs, wanted, manifests)
    ensures ok ==> archive.Valid() && archive.leaves == LeavesOfAll(tools, blobs, manifests, 0)
    ensures ok ==> archive.visited == VisitsOfAll(tools, blobs, manifests, 0)
    ensures ok ==> OneImage(tools, blobs, wanted, archive.leaves)
  {
    archive := new Archive(tools, blobs, wanted);
    ok := Inventory(tools, blobs);
    if ok {
      ok := WalkWhole(archive, manifests);
    }
  }

  ghost predicate Injective(hash: string -> string) { forall x, y :: hash(x) == hash(y) ==> x == y }

  /** A stretch of descriptors, each named by the document of the one before. */
  ghost predicate IsChain(tools: Tools, blobs: Blobs, p: seq<Descriptor>) {
    p != [] && forall k :: 0 < k < |p| ==> p[k] in References(tools, blobs, p[k - 1])
  }

  /** What an archive has, the merged store has under the same name. */
  lemma SameBlob(tools: Tools, blobs: Blobs, out: Blobs, d: Descriptor)
    requires Injective(tools.hash) && Addressed(tools, blobs) && Addressed(tools, out) && blobs.Keys <= out.Keys
    requires Resolves(blobs, d)
    ensures Resolves(out, d) && DocumentOf(tools, out, d) == DocumentOf(tools, blobs, d)
    ensures References(tools, out, d) == References(tools, blobs, d)
  {
    assert tools.hash(out[d.digest]) == tools.hash(blobs[d.digest]);
  }

  /** Met on the way from the index: the index, a leaf or its like, or content that is there. */
  ghost predicate Met(out: Blobs, index: Descriptor, leaves: seq<Descriptor>, d: Descriptor) {
    Key(d) == Key(index) || (exists l :: l in leaves && Key(l) == Key(d)) || (IsContent(d) && Resolves(out, d))
  }

  lemma SameKey(tools: Tools, blobs: Blobs, d: Descriptor, e: Descriptor)
    requires Key(d) == Key(e)
    ensures Resolves(blobs, d) <==> Resolves(blobs, e)
    ensures References(tools, blobs, d) == References(tools, blobs, e)
  {
  }

  /** A leaf of a closed archive resolves in the merged store, and names only what is met. */
  lemma LeafMeets(tools: Tools, blobs: Blobs, out: Blobs, some: seq<Descriptor>, index: Descriptor,
                  leaves: seq<Descriptor>, l: Descriptor, w: Wanted)
    requires Injective(tools.hash) && Addressed(tools, blobs) && Addressed(tools, out) && blobs.Keys <= out.Keys
    requires Closed(tools, blobs, w, some) && l in some && forall x :: x in some ==> x in leaves
    ensures Resolves(out, l) && forall r :: r in References(tools, out, l) ==> Met(out, index, leaves, r)
  {
    SameBlob(tools, blobs, out, l);
    forall r | r in References(tools, out, l) ensures Met(out, index, leaves, r) {
      LeafNames(tools, blobs, w, some, l, r);
      if IsContent(r) && Resolves(blobs, r) {
        SameBlob(tools, blobs, out, r);
      } else {
        var i :| i in some && Key(i) == Key(r);
        assert i in leaves;
      }
    }
  }

  /** What a leaf names is content of its archive, or another leaf. */
  lemma LeafNames(tools: Tools, blobs: Blobs, w: Wanted, some: seq<Descriptor>, l: Descriptor, r: Descriptor)
    requires Closed(tools, blobs, w, some) && l in some && r in References(tools, blobs, l)
    ensures (IsContent(r) && Resolves(blobs, r)) || exists i :: i in some && Key(i) == Key(r)
  {
  }

  /** The merged archive, seen from the two it was made of. */
  ghost predicate IsMerge(tools: Tools, a: Blobs, aLeaves: seq<Descriptor>, v: Wanted, b: Blobs,
                          bLeaves: seq<Descriptor>, w: Wanted, out: Blobs) {
    && Addressed(tools, a) && Addressed(tools, b) && Closed(tools, a, v, aLeaves) && Closed(tools, b, w, bLeaves)
    && out == MergedBlobs(tools, a, b, SortLeaves(aLeaves + bLeaves))
    && tools.parse(tools.render(SortLeaves(aLeaves + bLeaves)), IndexType) == Some(Index(SortLeaves(aLeaves + bLeaves)))
  }

  lemma LeavesOfBoth(a: seq<Descriptor>, b: seq<Descriptor>)
    ensures forall x :: x in SortLeaves(a + b) <==> x in a || x in b
  {
    SortSorts(a + b);
    forall x ensures x in SortLeaves(a + b) <==> x in a || x in b {
      assert x in SortLeaves(a + b) <==> x in multiset(SortLeaves(a + b));
      assert x in a + b <==> x in multiset(a + b);
    }
  }

  lemma MergedIsAddressed(tools: Tools, a: Blobs, b: Blobs, leaves: seq<Descriptor>)
    requires Addressed(tools, a) && Addressed(tools, b)
    ensures var out := MergedBlobs(tools, a, b, leaves);
            Addressed(tools, out) && a.Keys <= out.Keys && b.Keys <= out.Keys
    ensures var out := MergedBlobs(tools, a, b, leaves); var (inner, index) := InnerIndex(tools, leaves);
            Resolves(out, index) && out[index.digest] == inner
  {
  }

  lemma IndexMeets(tools: Tools, out: Blobs, leaves: seq<Descriptor>)
    requires tools.parse(tools.render(leaves), IndexType) == Some(Index(leaves))
    requires InnerIndex(tools, leaves).1.digest in out
    requires out[InnerIndex(tools, leaves).1.digest] == InnerIndex(tools, leaves).0
    ensures References(tools, out, InnerIndex(tools, leaves).1) == leaves
  {
  }

  lemma MetStep(tools: Tools, a: Blobs, aLeaves: seq<Descriptor>, v: Wanted, b: Blobs, bLeaves: seq<Descriptor>,
                w: Wanted, out: Blobs, d: Descriptor)
    requires Injective(tools.hash) && IsMerge(tools, a, aLeaves, v, b, bLeaves, w, out)
    requires Met(out, InnerIndex(tools, SortLeaves(aLeaves + bLeaves)).1, SortLeaves(aLeaves + bLeaves), d)
    ensures Resolves(out, d)
    ensures forall r :: r in References(tools, out, d) ==>
              Met(out, InnerIndex(tools, SortLeaves(aLeaves + bLeaves)).1, SortLeaves(aLeaves + bLeaves), r)
  {
    var leaves := SortLeaves(aLeaves + bLeaves);
    var index := InnerIndex(tools, leaves).1;
    LeavesOfBoth(aLeaves, bLeaves);
    MergedIsAddressed(tools, a, b, leaves);
    if Key(d) == Key(index) {
      SameKey(tools, out, d, index);
      IndexMeets(tools, out, leaves);
    } else if l :| l in leaves && Key(l) == Key(d) {
      SameKey(tools, out, d, l);
      if l in aLeaves {
        LeafMeets(tools, a, out, aLeaves, index, leaves, l, v);
      } else {
        LeafMeets(tools, b, out, bLeaves, index, leaves, l, w);
      }
    }
  }

  /** Every descriptor reachable from the merged index names a blob of the output, of its size and digest. */
  lemma {:induction false} EverythingResolves(tools: Tools, a: Blobs, aLeaves: seq<Descriptor>, v: Wanted, b: Blobs,
                                              bLeaves: seq<Descriptor>, w: Wanted, out: Blobs, p: seq<Descriptor>)
    requires Injective(tools.hash) && IsMerge(tools, a, aLeaves, v, b, bLeaves, w, out)
    requires IsChain(tools, out, p) && p[0] == InnerIndex(tools, SortLeaves(aLeaves + bLeaves)).1
    ensures var d := p[|p| - 1]; Resolves(out, d) && tools.hash(out[d.digest]) == d.digest
    ensures Met(out, p[0], SortLeaves(aLeaves + bLeaves), p[|p| - 1])
    decreases |p|
  {
    if |p| > 1 {
      var q := p[..|p| - 1];
      forall k | 0 < k < |q| ensures q[k] in References(tools, out, q[k - 1]) {
        assert p[k] in References(tools, out, p[k - 1]);
      }
      EverythingResolves(tools, a, aLeaves, v, b, bLeaves, w, out, q);
      MetStep(tools, a, aLeaves, v, b, bLeaves, w, out, q[|q| - 1]);
      assert p[|p| - 1] in References(tools, out, p[|p| - 2]);
    }
    MetStep(tools, a, aLeaves, v, b, bLeaves, w, out, p[|p| - 1]);
  }

  // ---- what the merged archive holds ----

  /** An image or attestation of an archive is one in any store that has the archive's blobs under their names. */
  lemma ImageStays(tools: Tools, blobs: Blobs, out: Blobs, w: Wanted, d: Descriptor)
    requires Injective(tools.hash) && Addressed(tools, blobs) && Addressed(tools, out) && blobs.Keys <= out.Keys
    requires IsImage(tools, blobs, w, d)
    ensures IsImage(tools, out, w, d)
  {
    SameBlob(tools, blobs, out, d);
    match tools.parse(blobs[d.digest], ManifestType)
    case Some(Manifest(config, layers, _, _)) =>
      SameBlob(tools, blobs, out, config);
      forall l | l in layers ensures Resolves(out, l) && out[l.digest] == blobs[l.digest] {
        SameBlob(tools, blobs, out, l);
      }
  }

  lemma AboutStays(tools: Tools, blobs: Blobs, out: Blobs, w: Wanted, d: Descriptor, key: (Media, string, int))
    requires Injective(tools.hash) && Addressed(tools, blobs) && Addressed(tools, out) && blobs.Keys <= out.Keys
    requires IsAbout(tools, blobs, w, d, key)
    ensures IsAbout(tools, out, w, d, key)
  {
    SameBlob(tools, blobs, out, d);
    match tools.parse(blobs[d.digest], ManifestType)
    case Some(Manifest(config, layers, subject, _)) =>
      SameBlob(tools, blobs, out, config);
      if subject.Some? { SameBlob(tools, blobs, out, subject.value); }
      forall l | l in layers ensures Resolves(out, l) && out[l.digest] == blobs[l.digest] {
        SameBlob(tools, blobs, out, l);
      }
  }

  /**
   * What the index of two accepted archives lists: an image for each of the two systems, of the wanted release,
   * and attestations about one or the other; all of it in the merged store.
   */
  lemma MergedIsWanted(tools: Tools, a: Blobs, aLeaves: seq<Descriptor>, v: Wanted, b: Blobs,
                       bLeaves: seq<Descriptor>, w: Wanted)
    returns (i: Descriptor, j: Descriptor)
    requires Injective(tools.hash) && Addressed(tools, a) && Addressed(tools, b)
    requires OneImage(tools, a, v, aLeaves) && OneImage(tools, b, w, bLeaves)
    ensures var leaves := SortLeaves(aLeaves + bLeaves); var out := MergedBlobs(tools, a, b, leaves);
            && i in leaves && IsImage(tools, out, v, i) && j in leaves && IsImage(tools, out, w, j)
            && forall d :: d in leaves ==>
                 (IsImage(tools, out, v, d) && Key(d) == Key(i)) || (IsImage(tools, out, w, d) && Key(d) == Key(j))
                 || IsAbout(tools, out, v, d, Key(i)) || IsAbout(tools, out, w, d, Key(j))
  {
    var leaves := SortLeaves(aLeaves + bLeaves);
    var out := MergedBlobs(tools, a, b, leaves);
    LeavesOfBoth(aLeaves, bLeaves);
    MergedIsAddressed(tools, a, b, leaves);
    i := ArchiveStays(tools, a, out, v, aLeaves);
    j := ArchiveStays(tools, b, out, w, bLeaves);
  }

  lemma ArchiveStays(tools: Tools, blobs: Blobs, out: Blobs, w: Wanted, leaves: seq<Descriptor>) returns (i: Descriptor)
    requires Injective(tools.hash) && Addressed(tools, blobs) && Addressed(tools, out) && blobs.Keys <= out.Keys
    requires OneImage(tools, blobs, w, leaves)
    ensures IsTheImage(tools, out, w, leaves, i)
  {
    i :| IsTheImage(tools, blobs, w, leaves, i);
    ImageStays(tools, blobs, out, w, i);
    forall d | d in leaves
      ensures (IsImage(tools, out, w, d) && Key(d) == Key(i)) || IsAbout(tools, out, w, d, Key(i))
    {
      if IsAbout(tools, blobs, w, d, Key(i)) {
        AboutStays(tools, blobs, out, w, d, Key(i));
      } else {
        ImageStays(tools, blobs, out, w, d);
      }
    }
  }
}
