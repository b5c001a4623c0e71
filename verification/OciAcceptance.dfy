// Which archives are accepted: the whole condition on what they hold, every limit written out, from
// the list of all descriptors a walk meets.
module OciAcceptance {
  import opened Wrappers
  import opened Sequences
  import opened Lexicographic
  import opened OciArchive
  import opened OciMerge

  /** A descriptor met on a walk, and how deep. */
  type Visit = (Descriptor, nat)

  function Room(depth: nat): nat { if depth <= 8 then 9 - depth else 0 }

  /** The descriptors met on a walk from one, in order, however often each is met. */
  function Walked(tools: Tools, blobs: Blobs, d: Descriptor, depth: nat): seq<Visit>
    decreases Room(depth), 0, 0
  {
    if d.media == ManifestType || d.digest !in blobs || depth > 8 then [(d, depth)]
    else match tools.parse(blobs[d.digest], d.media)
      case Some(Index(manifests)) => [(d, depth)] + WalkedAll(tools, blobs, manifests, depth + 1)
      case _ => [(d, depth)]
  }

  function WalkedAll(tools: Tools, blobs: Blobs, ds: seq<Descriptor>, depth: nat): seq<Visit>
    decreases Room(depth), 1, |ds|
  {
    if ds == [] then []
    else WalkedAll(tools, blobs, ds[..|ds| - 1], depth) + Walked(tools, blobs, ds[|ds| - 1], depth)
  }

  function Manifests(visits: seq<Visit>): seq<Descriptor> {
    if visits == [] then []
    else (if visits[0].0.media == ManifestType then [visits[0].0] else []) + Manifests(visits[1..])
  }

  /** Its blob is there and has its size. */
  predicate IsThere(blobs: Blobs, d: Descriptor) { d.digest in blobs && d.size == |blobs[d.digest]| }

  /** Within eight levels, and an index of some manifests or a manifest. */
  ghost predicate IsNode(tools: Tools, blobs: Blobs, v: Visit) {
    v.1 <= 8 && IsThere(blobs, v.0)
    && match tools.parse(blobs[v.0.digest], v.0.media)
       case Some(Index(manifests)) => v.0.media == IndexType && 1 <= |manifests| <= 1024
       case Some(Manifest(_, _, _, _)) => v.0.media == ManifestType
       case _ => false
  }

  /** The artifact type a manifest gives itself. */
  function ArtifactOf(tools: Tools, blobs: Blobs, d: Descriptor): Option<string> {
    if d.digest !in blobs then None
    else match tools.parse(blobs[d.digest], d.media)
      case Some(Manifest(_, _, _, artifact)) => artifact
      case _ => None
  }

  ghost predicate IsPlainImage(tools: Tools, blobs: Blobs, w: Wanted, d: Descriptor) {
    d.refType.None? && d.artifact.None? && ArtifactOf(tools, blobs, d).None? && IsImage(tools, blobs, w, d)
  }

  predicate SaysAttestation(tools: Tools, blobs: Blobs, d: Descriptor) {
    || d.refType == Some("attestation-manifest")
    || ArtifactOf(tools, blobs, d) == Some("application/vnd.docker.attestation.manifest.v1+json")
  }

  ghost predicate IsAttestationOf(tools: Tools, blobs: Blobs, w: Wanted, d: Descriptor, key: (Media, string, int)) {
    SaysAttestation(tools, blobs, d) && IsAbout(tools, blobs, w, d, key)
  }

  /** The expanded bytes of all layers. */
  function Bytes(tools: Tools, blobs: Blobs, layers: seq<Descriptor>): nat {
    if layers == [] then 0
    else
      (if layers[0].digest !in blobs then 0
       else match tools.expand(blobs[layers[0].digest], layers[0].media) case None => 0 case Some(bytes) => |bytes|)
      + Bytes(tools, blobs, layers[1..])
  }

  /** Those of all images, each time one is met. */
  function AllBytes(tools: Tools, blobs: Blobs, ds: seq<Descriptor>): nat {
    if ds == [] then 0
    else
      (if SaysAttestation(tools, blobs, ds[0]) || ds[0].digest !in blobs then 0
       else match tools.parse(blobs[ds[0].digest], ds[0].media)
         case Some(Manifest(_, layers, _, _)) => Bytes(tools, blobs, layers)
         case _ => 0)
      + AllBytes(tools, blobs, ds[1..])
  }

  /** One image, and all other manifests attestations about it. */
  ghost predicate IsOnlyImage(tools: Tools, blobs: Blobs, w: Wanted, leaves: seq<Descriptor>, i: nat) {
    && i < |leaves| && IsPlainImage(tools, blobs, w, leaves[i])
    && forall j :: 0 <= j < |leaves| && j != i ==> IsAttestationOf(tools, blobs, w, leaves[j], Key(leaves[i]))
  }

  ghost predicate IsAcceptable(tools: Tools, blobs: Blobs, w: Wanted, manifests: seq<Descriptor>) {
    var visits := WalkedAll(tools, blobs, manifests, 0);
    var leaves := Manifests(visits);
    && 1 <= |manifests| <= 1024 && |visits| <= 1024 && (forall v :: v in visits ==> IsNode(tools, blobs, v))
    && (forall i, j :: 0 <= i < j < |leaves| ==> leaves[i].digest != leaves[j].digest)
    && AllBytes(tools, blobs, leaves) <= 32 * 1024 * 1024 * 1024
    && exists i: nat :: IsOnlyImage(tools, blobs, w, leaves, i)
  }

  // ---- what is met ----

  lemma {:induction false} ManifestsOfBoth(a: seq<Visit>, b: seq<Visit>)
    ensures Manifests(a + b) == Manifests(a) + Manifests(b)
  {
    if a == [] {
      assert a + b == b;
    } else {
      assert (a + b)[0] == a[0] && (a + b)[1..] == a[1..] + b;
      ManifestsOfBoth(a[1..], b);
      Assoc(if a[0].0.media == ManifestType then [a[0].0] else [], Manifests(a[1..]), Manifests(b));
    }
  }

  lemma {:induction false} WalkedIsCounted(tools: Tools, blobs: Blobs, d: Descriptor, depth: nat)
    ensures |Walked(tools, blobs, d, depth)| == VisitsUnder(tools, blobs, d, depth)
    ensures Manifests(Walked(tools, blobs, d, depth)) == LeavesUnder(tools, blobs, d, depth)
    decreases Room(depth), 0, 0
  {
    match DocumentOf(tools, blobs, d)
    case Some(Index(manifests)) =>
      if d.media != ManifestType && depth <= 8 {
        WalkedAllIsCounted(tools, blobs, manifests, depth + 1);
        Prepended((d, depth), WalkedAll(tools, blobs, manifests, depth + 1));
      }
    case _ =>
  }

  lemma {:induction false} WalkedAllIsCounted(tools: Tools, blobs: Blobs, ds: seq<Descriptor>, depth: nat)
    ensures |WalkedAll(tools, blobs, ds, depth)| == VisitsOfAll(tools, blobs, ds, depth)
    ensures Manifests(WalkedAll(tools, blobs, ds, depth)) == LeavesOfAll(tools, blobs, ds, depth)
    decreases Room(depth), 1, |ds|
  {
    if ds != [] {
      var init, last := ds[..|ds| - 1], ds[|ds| - 1];
      WalkedAllIsCounted(tools, blobs, init, depth);
      WalkedIsCounted(tools, blobs, last, depth);
      ManifestsOfBoth(WalkedAll(tools, blobs, init, depth), Walked(tools, blobs, last, depth));
    }
  }

  lemma {:induction false} BytesOfMore(tools: Tools, blobs: Blobs, layers: seq<Descriptor>, l: Descriptor)
    ensures Bytes(tools, blobs, layers + [l]) == Bytes(tools, blobs, layers) + Bytes(tools, blobs, [l])
  {
    if layers == [] {
      assert layers + [l] == [l];
    } else {
      assert (layers + [l])[1..] == layers[1..] + [l];
      BytesOfMore(tools, blobs, layers[1..], l);
    }
  }

  lemma {:induction false} BytesAreTotal(tools: Tools, blobs: Blobs, layers: seq<Descriptor>)
    ensures Bytes(tools, blobs, layers) == TotalSize(tools, blobs, layers)
    decreases |layers|
  {
    if layers != [] {
      var init, last := layers[..|layers| - 1], layers[|layers| - 1];
      BytesAreTotal(tools, blobs, init);
      BytesOfMore(tools, blobs, init, last);
      assert layers == init + [last] && [last][1..] == [];
    }
  }

  lemma SaysIsRead(tools: Tools, blobs: Blobs, d: Descriptor)
    requires DocumentOf(tools, blobs, d).Some? && DocumentOf(tools, blobs, d).value.Manifest?
    ensures SaysAttestation(tools, blobs, d) <==> ReadAsAttestation(tools, blobs, d)
  {
  }

  lemma {:induction false} AllBytesOfMore(tools: Tools, blobs: Blobs, ds: seq<Descriptor>, d: Descriptor)
    ensures AllBytes(tools, blobs, ds + [d]) == AllBytes(tools, blobs, ds) + AllBytes(tools, blobs, [d])
  {
    if ds == [] {
      assert ds + [d] == [d];
    } else {
      assert (ds + [d])[1..] == ds[1..] + [d];
      AllBytesOfMore(tools, blobs, ds[1..], d);
    }
  }

  lemma BytesAreWeight(tools: Tools, blobs: Blobs, d: Descriptor)
    ensures AllBytes(tools, blobs, [d]) == Weight(tools, blobs, d)
  {
    assert [d][1..] == [];
    match DocumentOf(tools, blobs, d)
    case Some(Manifest(_, layers, _, _)) => BytesAreTotal(tools, blobs, layers);
    case _ =>
  }

  lemma {:induction false} AllBytesAreWeight(tools: Tools, blobs: Blobs, ds: seq<Descriptor>)
    ensures AllBytes(tools, blobs, ds) == TotalWeight(tools, blobs, ds)
    decreases |ds|
  {
    if ds != [] {
      var init, last := ds[..|ds| - 1], ds[|ds| - 1];
      AllBytesAreWeight(tools, blobs, init);
      AllBytesOfMore(tools, blobs, init, last);
      BytesAreWeight(tools, blobs, last);
      assert ds == init + [last];
    }
  }

  // ---- what is met is sound ----

  ghost predicate IsSoundNode(tools: Tools, blobs: Blobs, w: Wanted, v: Visit) {
    IsNode(tools, blobs, v) && (v.0.media == ManifestType ==> LeafSound(tools, blobs, w, v.0))
  }

  ghost predicate AllSound(tools: Tools, blobs: Blobs, w: Wanted, visits: seq<Visit>) {
    forall v :: v in visits ==> IsSoundNode(tools, blobs, w, v)
  }

  lemma SoundBoth(tools: Tools, blobs: Blobs, w: Wanted, a: seq<Visit>, b: seq<Visit>)
    ensures AllSound(tools, blobs, w, a + b) <==> AllSound(tools, blobs, w, a) && AllSound(tools, blobs, w, b)
  {
    hide IsSoundNode;
    assert forall v :: v in a ==> v in a + b;
    assert forall v :: v in b ==> v in a + b;
  }

  lemma SoundOne(tools: Tools, blobs: Blobs, w: Wanted, v: Visit)
    ensures AllSound(tools, blobs, w, [v]) <==> IsSoundNode(tools, blobs, w, v)
  {
    hide IsSoundNode;
    assert v in [v];
  }

  lemma {:induction false} WalkedIsSound(tools: Tools, blobs: Blobs, w: Wanted, d: Descriptor, depth: nat)
    ensures Sound(tools, blobs, w, d, depth) <==> AllSound(tools, blobs, w, Walked(tools, blobs, d, depth))
    decreases Room(depth), 0, 0
  {
    hide AllSound, LeafSound;
    SoundOne(tools, blobs, w, (d, depth));
    match DocumentOf(tools, blobs, d)
    case Some(Index(manifests)) =>
      if d.media != ManifestType && depth <= 8 {
        WalkedAllIsSound(tools, blobs, w, manifests, depth + 1);
        SoundBoth(tools, blobs, w, [(d, depth)], WalkedAll(tools, blobs, manifests, depth + 1));
      }
    case _ =>
  }

  lemma {:induction false} WalkedAllIsSound(tools: Tools, blobs: Blobs, w: Wanted, ds: seq<Descriptor>, depth: nat)
    ensures SoundAll(tools, blobs, w, ds, depth) <==> AllSound(tools, blobs, w, WalkedAll(tools, blobs, ds, depth))
    decreases Room(depth), 1, |ds|
  {
    if ds != [] {
      hide AllSound, Sound;
      var init, last := ds[..|ds| - 1], ds[|ds| - 1];
      WalkedAllIsSound(tools, blobs, w, init, depth);
      WalkedIsSound(tools, blobs, w, last, depth);
      SoundBoth(tools, blobs, w, WalkedAll(tools, blobs, init, depth), Walked(tools, blobs, last, depth));
    }
  }

  // ---- images and attestations ----

  lemma LeafKinds(tools: Tools, blobs: Blobs, w: Wanted, d: Descriptor)
    requires d.media == ManifestType && Resolves(blobs, d)
    ensures IsPlainImage(tools, blobs, w, d) <==>
              LeafSound(tools, blobs, w, d) && !ReadAsAttestation(tools, blobs, d)
    ensures forall key :: IsAttestationOf(tools, blobs, w, d, key) <==>
              ReadAsAttestation(tools, blobs, d) && AttestedBy(tools, blobs, w, d) == Some(key)
    ensures ReadAsAttestation(tools, blobs, d) ==>
              (LeafSound(tools, blobs, w, d) <==> AttestedBy(tools, blobs, w, d).Some?)
  {
    hide IsImage, ImageSound, AttestedBy, IsAbout;
    SoundIffImage(tools, blobs, w, d);
    IsImageManifest(tools, blobs, w, d);
    forall key
      ensures IsAttestationOf(tools, blobs, w, d, key) <==>
                ReadAsAttestation(tools, blobs, d) && AttestedBy(tools, blobs, w, d) == Some(key)
    {
      AttestedIffAbout(tools, blobs, w, d, key);
      IsAboutManifest(tools, blobs, w, d, key);
    }
  }

  lemma IsImageManifest(tools: Tools, blobs: Blobs, w: Wanted, d: Descriptor)
    ensures IsImage(tools, blobs, w, d) ==>
              DocumentOf(tools, blobs, d).Some? && DocumentOf(tools, blobs, d).value.Manifest?
              && DocumentOf(tools, blobs, d).value.subject.None?
  {
  }

  lemma IsAboutManifest(tools: Tools, blobs: Blobs, w: Wanted, d: Descriptor, key: (Media, string, int))
    ensures IsAbout(tools, blobs, w, d, key) ==>
              DocumentOf(tools, blobs, d).Some? && DocumentOf(tools, blobs, d).value.Manifest?
  {
  }

  /** All but this one are read as attestations. */
  ghost predicate IsLone(tools: Tools, blobs: Blobs, leaves: seq<Descriptor>, i: nat) {
    && i < |leaves| && !ReadAsAttestation(tools, blobs, leaves[i])
    && forall j :: 0 <= j < |leaves| && j != i ==> ReadAsAttestation(tools, blobs, leaves[j])
  }

  ghost predicate NoImages(tools: Tools, blobs: Blobs, leaves: seq<Descriptor>) {
    forall j :: 0 <= j < |leaves| ==> ReadAsAttestation(tools, blobs, leaves[j])
  }

  lemma {:induction false} ImagesAreLone(tools: Tools, blobs: Blobs, leaves: seq<Descriptor>)
    ensures ImagesOf(tools, blobs, leaves) == [] <==> NoImages(tools, blobs, leaves)
    ensures |ImagesOf(tools, blobs, leaves)| == 1 <==> exists i: nat :: IsLone(tools, blobs, leaves, i)
    ensures forall i: nat :: IsLone(tools, blobs, leaves, i) ==> ImagesOf(tools, blobs, leaves) == [Key(leaves[i])]
    decreases |leaves|
  {
    if leaves != [] {
      hide ReadAsAttestation;
      var init, n := leaves[..|leaves| - 1], |leaves| - 1;
      ImagesAreLone(tools, blobs, init);
      if ReadAsAttestation(tools, blobs, leaves[n]) {
        assert ImagesOf(tools, blobs, leaves) == ImagesOf(tools, blobs, init);
        assert forall j :: 0 <= j < n ==> init[j] == leaves[j];
        forall i: nat ensures IsLone(tools, blobs, leaves, i) <==> IsLone(tools, blobs, init, i) {
          LoneEarlier(tools, blobs, leaves, i);
        }
      } else {
        forall i: nat ensures IsLone(tools, blobs, leaves, i) <==> i == n && NoImages(tools, blobs, init) {
          LoneLast(tools, blobs, leaves, i);
        }
        if NoImages(tools, blobs, init) {
          assert IsLone(tools, blobs, leaves, n) && [] + [Key(leaves[n])] == [Key(leaves[n])];
        }
      }
    }
  }

  lemma LoneEarlier(tools: Tools, blobs: Blobs, leaves: seq<Descriptor>, i: nat)
    requires leaves != [] && ReadAsAttestation(tools, blobs, leaves[|leaves| - 1])
    ensures IsLone(tools, blobs, leaves, i) <==> IsLone(tools, blobs, leaves[..|leaves| - 1], i)
  {
    hide ReadAsAttestation;
    var init := leaves[..|leaves| - 1];
    assert forall j :: 0 <= j < |init| ==> init[j] == leaves[j];
  }

  lemma LoneLast(tools: Tools, blobs: Blobs, leaves: seq<Descriptor>, i: nat)
    requires leaves != [] && !ReadAsAttestation(tools, blobs, leaves[|leaves| - 1])
    ensures IsLone(tools, blobs, leaves, i) <==>
              i == |leaves| - 1 && NoImages(tools, blobs, leaves[..|leaves| - 1])
  {
    hide ReadAsAttestation;
    var init := leaves[..|leaves| - 1];
    assert forall j :: 0 <= j < |init| ==> init[j] == leaves[j];
  }

  ghost predicate IsSubject(attestations: seq<Attestation>, key: (Media, string, int)) {
    exists a :: a in attestations && a.subject == key
  }

  ghost predicate IsReadFor(tools: Tools, blobs: Blobs, w: Wanted, leaves: seq<Descriptor>, j: nat,
                            key: (Media, string, int)) {
    j < |leaves| && ReadAsAttestation(tools, blobs, leaves[j]) && AttestedBy(tools, blobs, w, leaves[j]) == Some(key)
  }

  lemma {:induction false} AttestationsAreRead(tools: Tools, blobs: Blobs, w: Wanted, leaves: seq<Descriptor>,
                                               key: (Media, string, int))
    ensures IsSubject(AttestationsOf(tools, blobs, w, leaves), key) <==>
              exists j: nat :: IsReadFor(tools, blobs, w, leaves, j, key)
    decreases |leaves|
  {
    if leaves != [] {
      hide ReadAsAttestation, AttestedBy;
      var init, n := leaves[..|leaves| - 1], |leaves| - 1;
      AttestationsAreRead(tools, blobs, w, init, key);
      var one := if ReadAsAttestation(tools, blobs, leaves[n]) && AttestedBy(tools, blobs, w, leaves[n]).Some?
                 then [Attestation(leaves[n].digest, AttestedBy(tools, blobs, w, leaves[n]).value)] else [];
      assert AttestationsOf(tools, blobs, w, leaves) == AttestationsOf(tools, blobs, w, init) + one;
      forall j: nat | j < n
        ensures IsReadFor(tools, blobs, w, init, j, key) <==> IsReadFor(tools, blobs, w, leaves, j, key) {}
      assert one != [] ==> one[0] in one;
      assert IsReadFor(tools, blobs, w, leaves, n, key) <==> one != [] && one[0].subject == key;
    }
  }

  /** Over sound leaves, one image that all attestations are about. */
  lemma WholeHasOneImage(tools: Tools, blobs: Blobs, w: Wanted, leaves: seq<Descriptor>)
    requires forall d :: d in leaves ==> d.media == ManifestType && Resolves(blobs, d) && LeafSound(tools, blobs, w, d)
    ensures IsWhole(ImagesOf(tools, blobs, leaves), AttestationsOf(tools, blobs, w, leaves)) <==>
              exists i: nat :: IsOnlyImage(tools, blobs, w, leaves, i)
  {
    hide ReadAsAttestation, AttestedBy, LeafSound, IsPlainImage, IsAttestationOf, Resolves, ImagesOf, AttestationsOf;
    ImagesAreLone(tools, blobs, leaves);
    forall i: nat | i < |leaves|
      ensures IsPlainImage(tools, blobs, w, leaves[i]) <==> !ReadAsAttestation(tools, blobs, leaves[i])
    {
      LeafKinds(tools, blobs, w, leaves[i]);
    }
    if IsWhole(ImagesOf(tools, blobs, leaves), AttestationsOf(tools, blobs, w, leaves)) {
      var i: nat :| IsLone(tools, blobs, leaves, i);
      WholeIsOnly(tools, blobs, w, leaves, i);
    }
    if i: nat :| IsOnlyImage(tools, blobs, w, leaves, i) {
      OnlyIsWhole(tools, blobs, w, leaves, i);
    }
  }

  lemma WholeIsOnly(tools: Tools, blobs: Blobs, w: Wanted, leaves: seq<Descriptor>, i: nat)
    requires forall d :: d in leaves ==> d.media == ManifestType && Resolves(blobs, d) && LeafSound(tools, blobs, w, d)
    requires IsLone(tools, blobs, leaves, i)
    requires IsWhole(ImagesOf(tools, blobs, leaves), AttestationsOf(tools, blobs, w, leaves))
    ensures IsOnlyImage(tools, blobs, w, leaves, i)
  {
    hide ReadAsAttestation, AttestedBy, LeafSound, IsPlainImage, IsAttestationOf, Resolves, ImagesOf, AttestationsOf;
    ImagesAreLone(tools, blobs, leaves);
    assert ImagesOf(tools, blobs, leaves)[0] == Key(leaves[i]);
    LeafKinds(tools, blobs, w, leaves[i]);
    forall j: nat | j < |leaves| && j != i ensures IsAttestationOf(tools, blobs, w, leaves[j], Key(leaves[i])) {
      LeafKinds(tools, blobs, w, leaves[j]);
      var key := AttestedBy(tools, blobs, w, leaves[j]).value;
      AttestationsAreRead(tools, blobs, w, leaves, key);
      assert IsReadFor(tools, blobs, w, leaves, j, key);
    }
  }

  lemma OnlyIsWhole(tools: Tools, blobs: Blobs, w: Wanted, leaves: seq<Descriptor>, i: nat)
    requires forall d :: d in leaves ==> d.media == ManifestType && Resolves(blobs, d) && LeafSound(tools, blobs, w, d)
    requires IsOnlyImage(tools, blobs, w, leaves, i)
    ensures IsWhole(ImagesOf(tools, blobs, leaves), AttestationsOf(tools, blobs, w, leaves))
  {
    hide ReadAsAttestation, AttestedBy, LeafSound, IsPlainImage, IsAttestationOf, Resolves, ImagesOf, AttestationsOf;
    ImagesAreLone(tools, blobs, leaves);
    forall j: nat | j < |leaves|
      ensures ReadAsAttestation(tools, blobs, leaves[j]) <==> j != i
      ensures j != i ==> AttestedBy(tools, blobs, w, leaves[j]) == Some(Key(leaves[i]))
    {
      LeafKinds(tools, blobs, w, leaves[j]);
    }
    assert IsLone(tools, blobs, leaves, i);
    forall a | a in AttestationsOf(tools, blobs, w, leaves) ensures a.subject == Key(leaves[i]) {
      AttestationsAreRead(tools, blobs, w, leaves, a.subject);
      assert IsSubject(AttestationsOf(tools, blobs, w, leaves), a.subject);
    }
  }

  // ---- accepted archives ----

  lemma ManifestsAreVisited(visits: seq<Visit>)
    ensures forall d :: d in Manifests(visits) <==> exists v :: v in visits && v.0 == d && d.media == ManifestType
  {
    if visits != [] {
      ManifestsAreVisited(visits[1..]);
      Front(visits);
      var rest := Manifests(visits[1..]);
      forall d ensures d in Manifests(visits) <==> exists v :: v in visits && v.0 == d && d.media == ManifestType {
        assert d in Manifests(visits) <==> (visits[0].0 == d && d.media == ManifestType) || d in rest;
        if d in rest {
          var v :| v in visits[1..] && v.0 == d && d.media == ManifestType;
          assert v in visits;
        }
        if v :| v in visits && v.0 == d && d.media == ManifestType {
          assert v == visits[0] || v in visits[1..];
        }
      }
    }
  }

  /** What is met is sound exactly when all of it are nodes and the manifests images or attestations. */
  lemma SoundIsNodes(tools: Tools, blobs: Blobs, w: Wanted, visits: seq<Visit>)
    ensures AllSound(tools, blobs, w, visits) <==>
              && (forall v :: v in visits ==> IsNode(tools, blobs, v))
              && forall d :: d in Manifests(visits) ==> LeafSound(tools, blobs, w, d)
    ensures AllSound(tools, blobs, w, visits) ==>
              forall d :: d in Manifests(visits) ==> d.media == ManifestType && Resolves(blobs, d)
  {
    hide LeafSound;
    ManifestsAreVisited(visits);
    forall v | v in visits && v.0.media == ManifestType ensures v.0 in Manifests(visits) {}
  }

  /** The limits that do not depend on what an image or attestation is. */
  ghost predicate IsSized(tools: Tools, blobs: Blobs, manifests: seq<Descriptor>, visits: seq<Visit>,
                          leaves: seq<Descriptor>) {
    && 1 <= |manifests| <= 1024 && |visits| <= 1024
    && (forall i, j :: 0 <= i < j < |leaves| ==> leaves[i].digest != leaves[j].digest)
    && AllBytes(tools, blobs, leaves) <= 32 * 1024 * 1024 * 1024
  }

  lemma GraphIs(tools: Tools, blobs: Blobs, w: Wanted, manifests: seq<Descriptor>)
    ensures var visits := WalkedAll(tools, blobs, manifests, 0); var leaves := Manifests(visits);
            GraphAccepted(tools, blobs, w, manifests) <==>
              && IsSized(tools, blobs, manifests, visits, leaves) && AllSound(tools, blobs, w, visits)
              && IsWhole(ImagesOf(tools, blobs, leaves), AttestationsOf(tools, blobs, w, leaves))
  {
    hide AllSound, SoundAll, WalkedAll, LeavesOfAll, VisitsOfAll, TotalWeight, AllBytes, IsWhole, ImagesOf,
      AttestationsOf, Manifests;
    var leaves := LeavesOfAll(tools, blobs, manifests, 0);
    WalkedAllIsCounted(tools, blobs, manifests, 0);
    WalkedAllIsSound(tools, blobs, w, manifests, 0);
    AllBytesAreWeight(tools, blobs, leaves);
    assert [] + leaves == leaves;
  }

  lemma AcceptableIs(tools: Tools, blobs: Blobs, w: Wanted, manifests: seq<Descriptor>)
    ensures var visits := WalkedAll(tools, blobs, manifests, 0); var leaves := Manifests(visits);
            IsAcceptable(tools, blobs, w, manifests) <==>
              && IsSized(tools, blobs, manifests, visits, leaves)
                && (forall v :: v in visits ==> IsNode(tools, blobs, v))
              && exists i: nat :: IsOnlyImage(tools, blobs, w, leaves, i)
  {
    hide IsNode, WalkedAll, AllBytes, IsOnlyImage, Manifests;
  }

  /** An archive's graph is accepted exactly when it is acceptable. */
  lemma AcceptedIffAcceptable(tools: Tools, blobs: Blobs, w: Wanted, manifests: seq<Descriptor>)
    ensures GraphAccepted(tools, blobs, w, manifests) <==> IsAcceptable(tools, blobs, w, manifests)
  {
    hide *;
    var visits := WalkedAll(tools, blobs, manifests, 0);
    var leaves := Manifests(visits);
    GraphIs(tools, blobs, w, manifests);
    AcceptableIs(tools, blobs, w, manifests);
    SoundIsNodes(tools, blobs, w, visits);
    if AllSound(tools, blobs, w, visits) {
      WholeHasOneImage(tools, blobs, w, leaves);
    } else if i: nat :| IsOnlyImage(tools, blobs, w, leaves, i) {
      OnlyImageIsSound(tools, blobs, w, leaves, i);
    }
  }

  lemma OnlyImageIsSound(tools: Tools, blobs: Blobs, w: Wanted, leaves: seq<Descriptor>, i: nat)
    requires IsOnlyImage(tools, blobs, w, leaves, i)
    ensures forall d :: d in leaves ==> LeafSound(tools, blobs, w, d)
  {
    forall j: nat | j < |leaves| ensures LeafSound(tools, blobs, w, leaves[j]) {
      ManifestKind(tools, blobs, w, leaves[j], Key(leaves[i]));
    }
  }

  lemma ManifestKind(tools: Tools, blobs: Blobs, w: Wanted, d: Descriptor, key: (Media, string, int))
    requires IsPlainImage(tools, blobs, w, d) || IsAttestationOf(tools, blobs, w, d, key)
    ensures LeafSound(tools, blobs, w, d)
  {
    hide ReadAsAttestation, AttestedBy, LeafSound;
    LeafKinds(tools, blobs, w, d);
  }

  /** What a descriptor's document names: an index its manifests; a manifest its configuration, layers and subject. */
  lemma DocumentsName(tools: Tools, blobs: Blobs, d: Descriptor, x: Descriptor)
    ensures x in References(tools, blobs, d) <==>
              d.digest in blobs && d.media in {IndexType, ManifestType}
              && match tools.parse(blobs[d.digest], d.media) {
                   case Some(Index(manifests)) => x in manifests
                   case Some(Manifest(config, layers, subject, _)) => x == config || x in layers || subject == Some(x)
                   case _ => false
                 }
    ensures x in References(tools, blobs, d) && IsContent(x) ==> x.media != IndexType && x.media != ManifestType
    ensures x in References(tools, blobs, d) && !IsContent(x) ==> x.media == IndexType || x.media == ManifestType
  {
  }

  // ---- the merged index ----

  predicate IsUnknownOs(d: Descriptor) { d.platform.Some? && d.platform.value.os == Some("unknown") }

  lemma {:induction false} OrderedAhead(ds: seq<Descriptor>, i: nat, j: nat)
    requires InOrder(ds) && i < j < |ds|
    ensures Precedes(ds[i], ds[j])
  {
    if i > 0 {
      OrderedAhead(ds[1..], i - 1, j - 1);
    } else {
      assert ds[j] == ds[1..][j - 1];
    }
  }

  /** The merged index lists images before attestations, each by architecture and then by digest, as strings go. */
  lemma LeavesAreOrdered(a: seq<Descriptor>, b: seq<Descriptor>, i: nat, j: nat)
    requires i < j < |SortLeaves(a + b)|
    ensures var x, y := SortLeaves(a + b)[i], SortLeaves(a + b)[j];
            var p := if x.platform.Some? && x.platform.value.architecture.Some? then x.platform.value.architecture.value
                else "";
            var q := if y.platform.Some? && y.platform.value.architecture.Some? then y.platform.value.architecture.value
                else "";
            && (IsUnknownOs(x) ==> IsUnknownOs(y))
            && ((IsUnknownOs(x) <==> IsUnknownOs(y)) ==> AtMost(p, q) && (p == q ==> AtMost(x.digest, y.digest)))
    ensures multiset(SortLeaves(a + b)) == multiset(a) + multiset(b)
  {
    hide SortLeaves, InOrder;
    SortSorts(a + b);
    OrderedAhead(SortLeaves(a + b), i, j);
    var x := SortLeaves(a + b)[i];
    Total(ArchitectureOf(x), ArchitectureOf(x));
  }
}
