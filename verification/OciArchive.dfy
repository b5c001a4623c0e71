// Walking one checked OCI archive: every descriptor it accepts names a blob it holds, and each layer's
// expanded digest is worked out once and counted every time.
module OciArchive {
  import opened Wrappers
  import opened Sequences

  datatype Media = IndexType | ManifestType | ConfigType | EmptyConfigType
    | LayerType(compression: string) | InTotoType | OtherType

  /** A platform, and whether it names operating system versions or features. */
  datatype Platform = Platform(os: Option<string>, architecture: Option<string>, variant: Option<string>,
    demanding: bool)

  datatype Descriptor = Descriptor(
    media: Media, digest: string, size: int, platform: Option<Platform>,
    refType: Option<string>, reference: Option<string>, artifact: Option<string>)

  /** A JSON blob read in the role its descriptor gives it. */
  datatype Document =
    | Index(manifests: seq<Descriptor>)
    | Manifest(config: Descriptor, layers: seq<Descriptor>, subject: Option<Descriptor>, artifact: Option<string>)
    | Config(platform: Platform, version: string, revision: string, diffIds: seq<string>)
    | Empty
    | Statement(subjects: set<string>)

  /** Hashing, JSON and decompression, which the archive only uses. */
  datatype Tools = Tools(
    hash: string -> string,
    parse: (string, Media) -> Option<Document>,
    render: seq<Descriptor> -> string,
    expand: (string, Media) -> Option<string>)

  /** Blobs by the hexadecimal digest in their name. */
  type Blobs = map<string, string>

  const MAX_DEPTH := 8
  const MAX_VISITED := 1024
  const MAX_LAYER_BYTES := 8 * 1024 * 1024 * 1024
  const MAX_ROOTFS_BYTES := 32 * 1024 * 1024 * 1024
  const ATTESTATION := "application/vnd.docker.attestation.manifest.v1+json"
  const ATTESTATION_REFERENCE := "attestation-manifest"

  /** The platform of what does not run. */
  predicate IsUnknown(platform: Platform) { platform.os == Some("unknown") && platform.architecture == Some("unknown") }

  // ---- what an accepted archive is ----

  /** Every blob hashes to its own name. */
  ghost predicate Addressed(tools: Tools, blobs: Blobs) { forall d :: d in blobs ==> tools.hash(blobs[d]) == d }

  predicate Resolves(blobs: Blobs, d: Descriptor) { d.digest in blobs && |blobs[d.digest]| == d.size }

  function Key(d: Descriptor): (Media, string, int) { (d.media, d.digest, d.size) }

  function DocumentOf(tools: Tools, blobs: Blobs, d: Descriptor): Option<Document> {
    if d.digest in blobs then tools.parse(blobs[d.digest], d.media) else None
  }

  /** The descriptors a descriptor's document names; only indexes and manifests name any. */
  function References(tools: Tools, blobs: Blobs, d: Descriptor): seq<Descriptor> {
    if d.media != IndexType && d.media != ManifestType then []
    else
      match DocumentOf(tools, blobs, d)
      case Some(Index(manifests)) => manifests
      case Some(Manifest(config, layers, subject, _)) =>
        [config] + layers + (if subject.Some? then [subject.value] else [])
      case _ => []
  }

  predicate IsContent(d: Descriptor) { d.media != IndexType && d.media != ManifestType }

  /** The expanded bytes of a layer. */
  function Expanded(tools: Tools, blobs: Blobs, d: Descriptor): Option<string> {
    if d.digest in blobs then tools.expand(blobs[d.digest], d.media) else None
  }

  /** The layer can be expanded within its own limit. */
  predicate LayerFits(tools: Tools, blobs: Blobs, d: Descriptor) {
    Expanded(tools, blobs, d).Some? && |Expanded(tools, blobs, d).value| <= MAX_LAYER_BYTES
  }

  /** Every layer expands to the bytes with this hash. */
  predicate LayersMatch(tools: Tools, blobs: Blobs, layers: seq<Descriptor>, diffIds: seq<string>) {
    |diffIds| == |layers| && forall i :: 0 <= i < |layers| ==>
      LayerFits(tools, blobs, layers[i]) && tools.hash(Expanded(tools, blobs, layers[i]).value) == diffIds[i]
  }

  function ExpandedSize(tools: Tools, blobs: Blobs, d: Descriptor): nat {
    match Expanded(tools, blobs, d) case None => 0 case Some(bytes) => |bytes|
  }

  function TotalSize(tools: Tools, blobs: Blobs, layers: seq<Descriptor>): nat {
    if layers == [] then 0
    else TotalSize(tools, blobs, layers[..|layers| - 1]) + ExpandedSize(tools, blobs, layers[|layers| - 1])
  }

  lemma {:induction false} TotalSizePrefix(tools: Tools, blobs: Blobs, layers: seq<Descriptor>, i: nat)
    requires i <= |layers|
    ensures TotalSize(tools, blobs, layers[..i]) <= TotalSize(tools, blobs, layers)
    decreases |layers|
  {
    if i == |layers| {
      assert layers[..i] == layers;
    } else {
      assert layers[..|layers| - 1][..i] == layers[..i];
      TotalSizePrefix(tools, blobs, layers[..|layers| - 1], i);
    }
  }

  lemma NextLayer(tools: Tools, blobs: Blobs, layers: seq<Descriptor>, diffIds: seq<string>, i: nat)
    requires i < |layers| == |diffIds|
    ensures TotalSize(tools, blobs, layers[..i + 1])
         == TotalSize(tools, blobs, layers[..i]) + ExpandedSize(tools, blobs, layers[i])
         <= TotalSize(tools, blobs, layers)
    ensures LayersMatch(tools, blobs, layers[..i + 1], diffIds[..i + 1]) <==>
              LayersMatch(tools, blobs, layers[..i], diffIds[..i]) && LayerFits(tools, blobs, layers[i])
              && tools.hash(Expanded(tools, blobs, layers[i]).value) == diffIds[i]
    ensures LayersMatch(tools, blobs, layers, diffIds) ==> LayersMatch(tools, blobs, layers[..i + 1], diffIds[..i + 1])
  {
    assert layers[..i + 1][..i] == layers[..i] && diffIds[..i + 1][..i] == diffIds[..i];
    TotalSizePrefix(tools, blobs, layers, i + 1);
    var a, b := layers[..i + 1], diffIds[..i + 1];
    assert forall k :: 0 <= k < i ==> a[k] == layers[..i][k] && b[k] == diffIds[..i][k];
  }

  function LayersOf(tools: Tools, blobs: Blobs, d: Descriptor): seq<Descriptor> {
    match DocumentOf(tools, blobs, d)
    case Some(Manifest(_, layers, _, _)) => layers
    case _ => []
  }

  function Height(depth: nat): nat { if depth <= MAX_DEPTH then MAX_DEPTH + 1 - depth else 0 }

  /** The manifests under a descriptor, depth first, down to the greatest depth. */
  function LeavesUnder(tools: Tools, blobs: Blobs, d: Descriptor, depth: nat): seq<Descriptor>
    decreases Height(depth), 0, 0
  {
    if d.media == ManifestType then [d]
    else if depth > MAX_DEPTH then []
    else match DocumentOf(tools, blobs, d)
      case Some(Index(manifests)) => LeavesOfAll(tools, blobs, manifests, depth + 1)
      case _ => []
  }

  function LeavesOfAll(tools: Tools, blobs: Blobs, ds: seq<Descriptor>, depth: nat): seq<Descriptor>
    decreases Height(depth), 1, |ds|
  {
    if ds == [] then []
    else LeavesOfAll(tools, blobs, ds[..|ds| - 1], depth) + LeavesUnder(tools, blobs, ds[|ds| - 1], depth)
  }

  /** Some of the descriptors' leaves are the first of them all. */
  lemma {:induction false} LeavesOfSome(tools: Tools, blobs: Blobs, ds: seq<Descriptor>, i: nat, depth: nat)
    requires i <= |ds|
    ensures LeavesOfAll(tools, blobs, ds[..i], depth) <= LeavesOfAll(tools, blobs, ds, depth)
    ensures VisitsOfAll(tools, blobs, ds[..i], depth) <= VisitsOfAll(tools, blobs, ds, depth)
    decreases |ds|
  {
    if i == |ds| {
      assert ds[..i] == ds;
    } else {
      var init := ds[..|ds| - 1];
      assert init[..i] == ds[..i];
      LeavesOfSome(tools, blobs, init, i, depth);
      PrefixOfMore(LeavesOfAll(tools, blobs, ds[..i], depth), LeavesOfAll(tools, blobs, init, depth),
                   LeavesUnder(tools, blobs, ds[|ds| - 1], depth));
    }
  }

  lemma PrefixOfMore<T>(a: seq<T>, b: seq<T>, c: seq<T>)
    requires a <= b
    ensures a <= b + c
  {
  }

  /** How many descriptors a walk visits, repeats included. */
  function VisitsUnder(tools: Tools, blobs: Blobs, d: Descriptor, depth: nat): nat
    decreases Height(depth), 0, 0
  {
    if d.media == ManifestType || depth > MAX_DEPTH then 1
    else match DocumentOf(tools, blobs, d)
      case Some(Index(manifests)) => 1 + VisitsOfAll(tools, blobs, manifests, depth + 1)
      case _ => 1
  }

  function VisitsOfAll(tools: Tools, blobs: Blobs, ds: seq<Descriptor>, depth: nat): nat
    decreases Height(depth), 1, |ds|
  {
    if ds == [] then 0
    else VisitsOfAll(tools, blobs, ds[..|ds| - 1], depth) + VisitsUnder(tools, blobs, ds[|ds| - 1], depth)
  }

  lemma OneMoreDescriptor(tools: Tools, blobs: Blobs, ds: seq<Descriptor>, i: nat, depth: nat, before: seq<Descriptor>)
    requires i < |ds|
    ensures before + LeavesOfAll(tools, blobs, ds[..i + 1], depth)
         == (before + LeavesOfAll(tools, blobs, ds[..i], depth)) + LeavesUnder(tools, blobs, ds[i], depth)
    ensures VisitsOfAll(tools, blobs, ds[..i + 1], depth)
         == VisitsOfAll(tools, blobs, ds[..i], depth) + VisitsUnder(tools, blobs, ds[i], depth)
  {
    assert ds[..i + 1][..i] == ds[..i];
    Assoc(before, LeavesOfAll(tools, blobs, ds[..i], depth), LeavesUnder(tools, blobs, ds[i], depth));
  }

  predicate Unrepeated(ds: seq<Descriptor>) { forall i, j :: 0 <= i < j < |ds| ==> ds[i].digest != ds[j].digest }

  datatype Attestation = Attestation(digest: string, subject: (Media, string, int))

  // ---- what makes an archive acceptable ----

  /** What the images of an archive have to be for. */
  datatype Wanted = Wanted(os: string, architecture: string, version: string, revision: string)

  predicate RunsOn(w: Wanted, platform: Platform) {
    && platform.os == Some(w.os) && platform.architecture == Some(w.architecture) && !platform.demanding
    && (platform.variant.None? || (w.architecture == "arm64" && platform.variant == Some("v8")))
  }

  /** What a subject's platform may say; each part may be left out. */
  predicate Suits(w: Wanted, platform: Platform) {
    && (platform.os.None? || platform.os == Some("linux"))
    && (platform.architecture.None? || platform.architecture == Some(w.architecture))
  }

  predicate ConfigFits(w: Wanted, d: Descriptor, layers: seq<Descriptor>, details: Document) {
    && details.Config? && d.platform.Some? && RunsOn(w, d.platform.value) && RunsOn(w, details.platform)
    && details.version == w.version && details.revision == w.revision
    && |layers| <= 4096 && |details.diffIds| == |layers|
  }

  /** An image whose configuration is the wanted one and whose layers are what it says. */
  ghost predicate ImageSound(tools: Tools, blobs: Blobs, w: Wanted, d: Descriptor) {
    match DocumentOf(tools, blobs, d)
    case Some(Manifest(config, layers, subject, _)) =>
      && subject.None? && config.media == ConfigType && Resolves(blobs, config)
      && (forall l :: l in layers ==> l.media.LayerType? && Resolves(blobs, l))
      && DocumentOf(tools, blobs, config).Some?
      && var details := DocumentOf(tools, blobs, config).value;
         ConfigFits(w, d, layers, details) && LayersMatch(tools, blobs, layers, details.diffIds)
    case _ => false
  }

  /** Whom an attestation says it is about, in its current or its older form, if it says so properly. */
  function SubjectKey(tools: Tools, blobs: Blobs, w: Wanted, d: Descriptor, config: Descriptor,
                      subject: Option<Descriptor>, artifact: Option<string>): Option<(Media, string, int)>
  {
    if artifact.Some? then
      if artifact != Some(ATTESTATION) || !(d.artifact.None? || d.artifact == Some(ATTESTATION))
         || config.media != EmptyConfigType || !Resolves(blobs, config)
           || DocumentOf(tools, blobs, config) != Some(Empty)
         || config.size != 2 || config.digest != tools.hash("{}")
         || subject.None? || subject.value.media != ManifestType || !Resolves(blobs, subject.value)
         || !(subject.value.platform.None? || Suits(w, subject.value.platform.value))
         || !(d.reference.None? || d.reference == Some(subject.value.digest))
      then None else Some(Key(subject.value))
    else if d.artifact.Some? || subject.Some? || config.media != ConfigType || !Resolves(blobs, config)
            || d.reference.None? || d.reference.value !in blobs
    then None
    else match DocumentOf(tools, blobs, config)
      case Some(Config(platform, _, _, _)) =>
        if IsUnknown(platform) then Some((ManifestType, d.reference.value, |blobs[d.reference.value]|)) else None
      case _ => None
  }

  predicate IsStatementAbout(tools: Tools, blobs: Blobs, l: Descriptor, digest: string) {
    l.media == InTotoType && Resolves(blobs, l)
    && match DocumentOf(tools, blobs, l) case Some(Statement(subjects)) => digest in subjects case _ => false
  }

  /** The subject of an acceptable attestation. */
  ghost function AttestedBy(tools: Tools, blobs: Blobs, w: Wanted, d: Descriptor): Option<(Media, string, int)> {
    match DocumentOf(tools, blobs, d)
    case Some(Manifest(config, layers, subject, artifact)) =>
      var key := SubjectKey(tools, blobs, w, d, config, subject, artifact);
      if && d.platform.Some? && IsUnknown(d.platform.value)
        && (d.refType.None? || d.refType == Some(ATTESTATION_REFERENCE))
         && key.Some? && 0 < |layers| <= 4096
         && forall l :: l in layers ==> IsStatementAbout(tools, blobs, l, key.value.1)
      then key else None
    case _ => None
  }

  /** A manifest is read as an attestation by its reference type or its artifact type. */
  predicate ReadAsAttestation(tools: Tools, blobs: Blobs, d: Descriptor) {
    match DocumentOf(tools, blobs, d)
    case Some(Manifest(_, _, _, artifact)) => d.refType == Some(ATTESTATION_REFERENCE) || artifact == Some(ATTESTATION)
    case _ => false
  }

  ghost predicate LeafSound(tools: Tools, blobs: Blobs, w: Wanted, d: Descriptor) {
    match DocumentOf(tools, blobs, d)
    case Some(Manifest(_, _, subject, artifact)) =>
      if ReadAsAttestation(tools, blobs, d) then AttestedBy(tools, blobs, w, d).Some?
      else d.artifact.None? && artifact.None? && d.refType.None? && ImageSound(tools, blobs, w, d)
    case _ => false
  }

  // ---- what that comes to, field by field ----

  /** A platform as the wanted images have to have it. */
  predicate IsPlatform(platform: Platform, os: string, architecture: string) {
    && platform.os == Some(os) && platform.architecture == Some(architecture) && !platform.demanding
    && (platform.variant.None? || (platform.variant == Some("v8") && architecture == "arm64"))
  }

  predicate Expands(tools: Tools, blobs: Blobs, l: Descriptor, diffId: string) {
    l.digest in blobs
    && match tools.expand(blobs[l.digest], l.media)
       case None => false
       case Some(bytes) => |bytes| <= 8 * 1024 * 1024 * 1024 && tools.hash(bytes) == diffId
  }

  /** A configuration for this system and release, whose layers expand to what it says. */
  ghost predicate IsConfig(tools: Tools, blobs: Blobs, w: Wanted, config: Descriptor, layers: seq<Descriptor>) {
    config.media == ConfigType && Resolves(blobs, config)
    && match tools.parse(blobs[config.digest], ConfigType)
       case Some(Config(platform, version, revision, diffIds)) =>
         && IsPlatform(platform, w.os, w.architecture) && version == w.version && revision == w.revision
         && |diffIds| == |layers| && forall i :: 0 <= i < |layers| ==> Expands(tools, blobs, layers[i], diffIds[i])
       case _ => false
  }

  /** An image for this system and release, all of which is there; it is about no other manifest. */
  ghost predicate IsImage(tools: Tools, blobs: Blobs, w: Wanted, d: Descriptor) {
    d.media == ManifestType && Resolves(blobs, d) && d.platform.Some?
    && IsPlatform(d.platform.value, w.os, w.architecture)
    && match tools.parse(blobs[d.digest], ManifestType)
       case Some(Manifest(config, layers, subject, _)) =>
         && subject.None? && |layers| <= 4096 && (forall l :: l in layers ==> l.media.LayerType? && Resolves(blobs, l))
         && IsConfig(tools, blobs, w, config, layers)
       case _ => false
  }

  lemma SoundIffImage(tools: Tools, blobs: Blobs, w: Wanted, d: Descriptor)
    requires d.media == ManifestType && Resolves(blobs, d)
    ensures ImageSound(tools, blobs, w, d) <==> IsImage(tools, blobs, w, d)
  {
    match DocumentOf(tools, blobs, d)
    case Some(Manifest(config, layers, _, _)) =>
      forall i, diffId | 0 <= i < |layers|
        ensures Expands(tools, blobs, layers[i], diffId) <==>
                  LayerFits(tools, blobs, layers[i]) && tools.hash(Expanded(tools, blobs, layers[i]).value) == diffId
      {
      }
    case _ =>
  }

  /** Every one of these is a statement that is about the manifest with this digest, among others. */
  ghost predicate StatementsName(tools: Tools, blobs: Blobs, layers: seq<Descriptor>, digest: string) {
    forall l :: l in layers ==>
      l.media == InTotoType && Resolves(blobs, l)
      && match tools.parse(blobs[l.digest], InTotoType)
         case Some(Statement(subjects)) => digest in subjects
         case _ => false
  }

  /** The current form names its subject by a descriptor, which the reference and the platform must not contradict. */
  predicate NamesSubject(tools: Tools, blobs: Blobs, w: Wanted, d: Descriptor, config: Descriptor, x: Descriptor,
                         key: (Media, string, int)) {
    && d.artifact in {None, Some("application/vnd.docker.attestation.manifest.v1+json")}
    && config.media == EmptyConfigType && Resolves(blobs, config) && config.size == 2
    && config.digest == tools.hash("{}") && tools.parse(blobs[config.digest], EmptyConfigType) == Some(Empty)
    && x.media == ManifestType && Resolves(blobs, x) && key == (ManifestType, x.digest, x.size)
    && d.reference in {None, Some(x.digest)}
    && (x.platform.Some? ==> x.platform.value.os in {None, Some("linux")}
                             && x.platform.value.architecture in {None, Some(w.architecture)})
  }

  /** The older form names it by the reference alone and has the configuration of something that does not run. */
  predicate NamesByReference(tools: Tools, blobs: Blobs, d: Descriptor, config: Descriptor, key: (Media, string, int)) {
    && d.artifact.None? && config.media == ConfigType && Resolves(blobs, config)
    && d.reference.Some? && d.reference.value in blobs
    && key == (ManifestType, d.reference.value, |blobs[d.reference.value]|)
    && match tools.parse(blobs[config.digest], ConfigType)
       case Some(Config(platform, _, _, _)) => platform.os == platform.architecture == Some("unknown")
       case _ => false
  }

  /** An attestation all of which is there and about the manifest with this key. */
  ghost predicate IsAbout(tools: Tools, blobs: Blobs, w: Wanted, d: Descriptor, key: (Media, string, int)) {
    d.media == ManifestType && Resolves(blobs, d) && d.refType in {None, Some("attestation-manifest")}
    && d.platform.Some? && d.platform.value.os == d.platform.value.architecture == Some("unknown")
    && match tools.parse(blobs[d.digest], ManifestType)
       case Some(Manifest(config, layers, subject, artifact)) =>
         && 0 < |layers| <= 4096 && StatementsName(tools, blobs, layers, key.1)
         && if artifact.Some?
            then artifact == Some("application/vnd.docker.attestation.manifest.v1+json") && subject.Some?
                 && NamesSubject(tools, blobs, w, d, config, subject.value, key)
            else subject.None? && NamesByReference(tools, blobs, d, config, key)
       case _ => false
  }

  lemma AttestedIffAbout(tools: Tools, blobs: Blobs, w: Wanted, d: Descriptor, key: (Media, string, int))
    requires d.media == ManifestType && Resolves(blobs, d)
    ensures AttestedBy(tools, blobs, w, d) == Some(key) <==> IsAbout(tools, blobs, w, d, key)
  {
    match DocumentOf(tools, blobs, d)
    case Some(Manifest(config, layers, subject, artifact)) =>
      SubjectIsNamed(tools, blobs, w, d, config, subject, artifact, key);
      assert (forall l :: l in layers ==> IsStatementAbout(tools, blobs, l, key.1))
        <==> StatementsName(tools, blobs, layers, key.1);
    case _ =>
  }

  lemma SubjectIsNamed(tools: Tools, blobs: Blobs, w: Wanted, d: Descriptor, config: Descriptor,
                       subject: Option<Descriptor>, artifact: Option<string>, key: (Media, string, int))
    ensures SubjectKey(tools, blobs, w, d, config, subject, artifact) == Some(key) <==>
              if artifact.Some?
              then artifact == Some("application/vnd.docker.attestation.manifest.v1+json") && subject.Some?
                   && NamesSubject(tools, blobs, w, d, config, subject.value, key)
              else subject.None? && NamesByReference(tools, blobs, d, config, key)
  {
  }

  /**
   * Which manifests are accepted: attestations, which say so by their reference type or by their artifact type,
   * and images, which say nothing of the kind.
   */
  lemma LeafIsImageOrAbout(tools: Tools, blobs: Blobs, w: Wanted, d: Descriptor)
    requires d.media == ManifestType && Resolves(blobs, d)
    ensures LeafSound(tools, blobs, w, d) <==>
              match tools.parse(blobs[d.digest], ManifestType)
              case Some(Manifest(_, _, _, artifact)) =>
                if d.refType == Some("attestation-manifest")
                   || artifact == Some("application/vnd.docker.attestation.manifest.v1+json")
                then exists key :: IsAbout(tools, blobs, w, d, key)
                else d.refType.None? && d.artifact.None? && artifact.None? && IsImage(tools, blobs, w, d)
              case _ => false
  {
    SoundIffImage(tools, blobs, w, d);
    if AttestedBy(tools, blobs, w, d).Some? {
      AttestedIffAbout(tools, blobs, w, d, AttestedBy(tools, blobs, w, d).value);
    }
    forall key | IsAbout(tools, blobs, w, d, key) ensures AttestedBy(tools, blobs, w, d) == Some(key) {
      AttestedIffAbout(tools, blobs, w, d, key);
    }
  }

  /** A descriptor all of whose graph is sound, down to the greatest depth. */
  ghost predicate Sound(tools: Tools, blobs: Blobs, w: Wanted, d: Descriptor, depth: nat)
    decreases Height(depth), 0, 0
  {
    && depth <= MAX_DEPTH && Resolves(blobs, d)
    && match DocumentOf(tools, blobs, d)
       case Some(Index(manifests)) =>
         d.media == IndexType && 0 < |manifests| <= 1024 && SoundAll(tools, blobs, w, manifests, depth + 1)
       case Some(Manifest(_, _, _, _)) => d.media == ManifestType && LeafSound(tools, blobs, w, d)
       case _ => false
  }

  ghost predicate SoundAll(tools: Tools, blobs: Blobs, w: Wanted, ds: seq<Descriptor>, depth: nat)
    decreases Height(depth), 1, |ds|
  {
    ds == [] || (SoundAll(tools, blobs, w, ds[..|ds| - 1], depth) && Sound(tools, blobs, w, ds[|ds| - 1], depth))
  }

  lemma {:induction false} SoundSome(tools: Tools, blobs: Blobs, w: Wanted, ds: seq<Descriptor>, i: nat, depth: nat)
    requires i < |ds|
    ensures SoundAll(tools, blobs, w, ds, depth) ==>
              SoundAll(tools, blobs, w, ds[..i], depth) && Sound(tools, blobs, w, ds[i], depth)
    ensures SoundAll(tools, blobs, w, ds[..i + 1], depth) <==>
              SoundAll(tools, blobs, w, ds[..i], depth) && Sound(tools, blobs, w, ds[i], depth)
    decreases |ds|
  {
    assert ds[..i + 1][..i] == ds[..i];
    if i < |ds| - 1 {
      assert ds[..|ds| - 1][..i] == ds[..i];
      SoundSome(tools, blobs, w, ds[..|ds| - 1], i, depth);
    }
  }

  /** What an accepted leaf costs of the root filesystem budget: all layers of an image, as often as listed. */
  function Weight(tools: Tools, blobs: Blobs, d: Descriptor): nat {
    if ReadAsAttestation(tools, blobs, d) then 0 else TotalSize(tools, blobs, LayersOf(tools, blobs, d))
  }

  function TotalWeight(tools: Tools, blobs: Blobs, ds: seq<Descriptor>): nat {
    if ds == [] then 0 else TotalWeight(tools, blobs, ds[..|ds| - 1]) + Weight(tools, blobs, ds[|ds| - 1])
  }

  lemma {:induction false} TotalWeightPrefix(tools: Tools, blobs: Blobs, a: seq<Descriptor>, b: seq<Descriptor>)
    requires a <= b
    ensures TotalWeight(tools, blobs, a) <= TotalWeight(tools, blobs, b)
    decreases |b|
  {
    if a != b {
      TotalWeightPrefix(tools, blobs, a, b[..|b| - 1]);
    }
  }

  function ImagesOf(tools: Tools, blobs: Blobs, ds: seq<Descriptor>): seq<(Media, string, int)> {
    if ds == [] then [] else
      ImagesOf(tools, blobs, ds[..|ds| - 1])
      + (if ReadAsAttestation(tools, blobs, ds[|ds| - 1]) then [] else [Key(ds[|ds| - 1])])
  }

  ghost function AttestationsOf(tools: Tools, blobs: Blobs, w: Wanted, ds: seq<Descriptor>): seq<Attestation> {
    if ds == [] then [] else
      AttestationsOf(tools, blobs, w, ds[..|ds| - 1])
      + (if ReadAsAttestation(tools, blobs, ds[|ds| - 1]) && AttestedBy(tools, blobs, w, ds[|ds| - 1]).Some?
         then [Attestation(ds[|ds| - 1].digest, AttestedBy(tools, blobs, w, ds[|ds| - 1]).value)] else [])
  }

  /** What has been walked, as far as it goes, fits all limits. */
  ghost predicate Fits(tools: Tools, blobs: Blobs, leaves: seq<Descriptor>, visited: nat) {
    visited <= MAX_VISITED && Unrepeated(leaves) && TotalWeight(tools, blobs, leaves) <= MAX_ROOTFS_BYTES
  }

  lemma FitsSome(tools: Tools, blobs: Blobs, a: seq<Descriptor>, b: seq<Descriptor>, m: nat, n: nat)
    requires a <= b && m <= n && Fits(tools, blobs, b, n)
    ensures Fits(tools, blobs, a, m)
  {
    TotalWeightPrefix(tools, blobs, a, b);
  }

  /** A descriptor is accepted after these leaves and visits. */
  ghost predicate Accepts(tools: Tools, blobs: Blobs, w: Wanted, leaves: seq<Descriptor>, visited: nat, d: Descriptor,
                          depth: nat)
  {
    Sound(tools, blobs, w, d, depth)
    && Fits(tools, blobs, leaves + LeavesUnder(tools, blobs, d, depth), visited + VisitsUnder(tools, blobs, d, depth))
  }

  ghost predicate AcceptsAll(tools: Tools, blobs: Blobs, w: Wanted, leaves: seq<Descriptor>, visited: nat,
                             ds: seq<Descriptor>, depth: nat)
  {
    SoundAll(tools, blobs, w, ds, depth)
    && Fits(tools, blobs, leaves + LeavesOfAll(tools, blobs, ds, depth), visited + VisitsOfAll(tools, blobs, ds, depth))
  }

  /** What a walk refuses before it looks into a descriptor's document. */
  predicate Visitable(blobs: Blobs, visited: nat, d: Descriptor, depth: nat) {
    depth <= MAX_DEPTH && visited < MAX_VISITED && (d.media == IndexType || d.media == ManifestType)
      && Resolves(blobs, d)
  }

  lemma OnlyVisitable(tools: Tools, blobs: Blobs, w: Wanted, leaves: seq<Descriptor>, visited: nat, d: Descriptor,
                      depth: nat)
    ensures Accepts(tools, blobs, w, leaves, visited, d, depth) ==> Visitable(blobs, visited, d, depth)
  {
  }

  lemma AcceptsIndex(tools: Tools, blobs: Blobs, w: Wanted, leaves: seq<Descriptor>, visited: nat, d: Descriptor,
                     depth: nat, manifests: seq<Descriptor>)
    requires Visitable(blobs, visited, d, depth) && DocumentOf(tools, blobs, d) == Some(Index(manifests))
    ensures Accepts(tools, blobs, w, leaves, visited, d, depth) ==> d.media == IndexType
    ensures d.media == IndexType ==>
              && (Accepts(tools, blobs, w, leaves, visited, d, depth) <==>
                    0 < |manifests| <= 1024 && AcceptsAll(tools, blobs, w, leaves, visited + 1, manifests, depth + 1))
              && LeavesUnder(tools, blobs, d, depth) == LeavesOfAll(tools, blobs, manifests, depth + 1)
              && VisitsUnder(tools, blobs, d, depth) == 1 + VisitsOfAll(tools, blobs, manifests, depth + 1)
  {
    if d.media == IndexType {
      IndexUnder(tools, blobs, d, depth, manifests);
      IndexSound(tools, blobs, w, d, depth, manifests);
    }
  }

  lemma IndexUnder(tools: Tools, blobs: Blobs, d: Descriptor, depth: nat, manifests: seq<Descriptor>)
    requires depth <= MAX_DEPTH && d.media == IndexType && DocumentOf(tools, blobs, d) == Some(Index(manifests))
    ensures LeavesUnder(tools, blobs, d, depth) == LeavesOfAll(tools, blobs, manifests, depth + 1)
    ensures VisitsUnder(tools, blobs, d, depth) == 1 + VisitsOfAll(tools, blobs, manifests, depth + 1)
  {
  }

  lemma IndexSound(tools: Tools, blobs: Blobs, w: Wanted, d: Descriptor, depth: nat, manifests: seq<Descriptor>)
    requires depth <= MAX_DEPTH && Resolves(blobs, d) && DocumentOf(tools, blobs, d) == Some(Index(manifests))
    ensures Sound(tools, blobs, w, d, depth) <==>
              d.media == IndexType && 0 < |manifests| <= 1024 && SoundAll(tools, blobs, w, manifests, depth + 1)
  {
  }

  lemma AcceptsManifest(tools: Tools, blobs: Blobs, w: Wanted, leaves: seq<Descriptor>, visited: nat, d: Descriptor,
                        depth: nat)
    requires Visitable(blobs, visited, d, depth) && DocumentOf(tools, blobs, d).Some?
    requires DocumentOf(tools, blobs, d).value.Manifest?
    ensures Accepts(tools, blobs, w, leaves, visited, d, depth) ==> d.media == ManifestType
    ensures d.media == ManifestType ==>
              && (Accepts(tools, blobs, w, leaves, visited, d, depth) <==>
                    LeafSound(tools, blobs, w, d) && Fits(tools, blobs, leaves + [d], visited + 1))
              && LeavesUnder(tools, blobs, d, depth) == [d] && VisitsUnder(tools, blobs, d, depth) == 1
  {
  }

  lemma AcceptsNothingElse(tools: Tools, blobs: Blobs, w: Wanted, leaves: seq<Descriptor>, visited: nat, d: Descriptor,
                           depth: nat)
    requires !(DocumentOf(tools, blobs, d).Some?
               && (DocumentOf(tools, blobs, d).value.Index? || DocumentOf(tools, blobs, d).value.Manifest?))
    ensures !Accepts(tools, blobs, w, leaves, visited, d, depth)
  {
  }

  /** The first `i` descriptors have been walked, after these leaves and visits, and led to those. */
  ghost predicate Along(tools: Tools, blobs: Blobs, w: Wanted, leaves: seq<Descriptor>, visited: nat,
                        ds: seq<Descriptor>, depth: nat, i: nat, leaves': seq<Descriptor>, visited': nat)
  {
    && i <= |ds| && SoundAll(tools, blobs, w, ds[..i], depth)
    && leaves' == leaves + LeavesOfAll(tools, blobs, ds[..i], depth)
    && visited' == visited + VisitsOfAll(tools, blobs, ds[..i], depth)
  }

  /** The next descriptor is accepted if all are, and when it is the walk is one further. */
  lemma AlongNext(tools: Tools, blobs: Blobs, w: Wanted, leaves: seq<Descriptor>, visited: nat, ds: seq<Descriptor>,
                  depth: nat, i: nat, leaves': seq<Descriptor>, visited': nat)
    requires Along(tools, blobs, w, leaves, visited, ds, depth, i, leaves', visited') && i < |ds|
    ensures AcceptsAll(tools, blobs, w, leaves, visited, ds, depth) ==>
              Accepts(tools, blobs, w, leaves', visited', ds[i], depth)
    ensures Accepts(tools, blobs, w, leaves', visited', ds[i], depth) ==>
              Along(tools, blobs, w, leaves, visited, ds, depth, i + 1,
                    leaves' + LeavesUnder(tools, blobs, ds[i], depth),
                    visited' + VisitsUnder(tools, blobs, ds[i], depth))
  {
    OneMoreDescriptor(tools, blobs, ds, i, depth, leaves);
    SoundSome(tools, blobs, w, ds, i, depth);
    if AcceptsAll(tools, blobs, w, leaves, visited, ds, depth) {
      LeavesOfSome(tools, blobs, ds, i + 1, depth);
      var a, b := LeavesOfAll(tools, blobs, ds[..i + 1], depth), LeavesOfAll(tools, blobs, ds, depth);
      assert leaves + a <= leaves + b;
      FitsSome(tools, blobs, leaves + a, leaves + b, visited + VisitsOfAll(tools, blobs, ds[..i + 1], depth),
               visited + VisitsOfAll(tools, blobs, ds, depth));
    }
  }

  lemma AlongWhole(tools: Tools, blobs: Blobs, w: Wanted, leaves: seq<Descriptor>, visited: nat, ds: seq<Descriptor>,
                   depth: nat, leaves': seq<Descriptor>, visited': nat)
    requires Along(tools, blobs, w, leaves, visited, ds, depth, |ds|, leaves', visited')
    requires Fits(tools, blobs, leaves', visited')
    ensures AcceptsAll(tools, blobs, w, leaves, visited, ds, depth)
    ensures leaves' == leaves + LeavesOfAll(tools, blobs, ds, depth)
    ensures visited' == visited + VisitsOfAll(tools, blobs, ds, depth)
  {
    assert ds[..|ds|] == ds;
  }

  /** An acceptable leaf, appended to those there are. */
  lemma OneMoreLeaf(tools: Tools, blobs: Blobs, w: Wanted, leaves: seq<Descriptor>, d: Descriptor)
    ensures TotalWeight(tools, blobs, leaves + [d]) == TotalWeight(tools, blobs, leaves) + Weight(tools, blobs, d)
    ensures ReadAsAttestation(tools, blobs, d) ==>
        ImagesOf(tools, blobs, leaves + [d]) == ImagesOf(tools, blobs, leaves)
    ensures !ReadAsAttestation(tools, blobs, d) ==>
              ImagesOf(tools, blobs, leaves + [d]) == ImagesOf(tools, blobs, leaves) + [Key(d)]
              && AttestationsOf(tools, blobs, w, leaves + [d]) == AttestationsOf(tools, blobs, w, leaves)
    ensures ReadAsAttestation(tools, blobs, d) && AttestedBy(tools, blobs, w, d).Some? ==>
              AttestationsOf(tools, blobs, w, leaves + [d])
              == AttestationsOf(tools, blobs, w, leaves) + [Attestation(d.digest, AttestedBy(tools, blobs, w, d).value)]
  {
    assert (leaves + [d])[..|leaves|] == leaves;
    assert ImagesOf(tools, blobs, leaves) + [] == ImagesOf(tools, blobs, leaves);
    assert AttestationsOf(tools, blobs, w, leaves) + [] == AttestationsOf(tools, blobs, w, leaves);
  }

  ghost predicate LeavesSound(tools: Tools, blobs: Blobs, w: Wanted, leaves: seq<Descriptor>) {
    forall d :: d in leaves ==> d.media == ManifestType && Resolves(blobs, d) && LeafSound(tools, blobs, w, d)
  }

  lemma LeavesSoundMore(tools: Tools, blobs: Blobs, w: Wanted, leaves: seq<Descriptor>, d: Descriptor)
    requires LeavesSound(tools, blobs, w, leaves)
    requires d.media == ManifestType && Resolves(blobs, d) && LeafSound(tools, blobs, w, d)
    ensures LeavesSound(tools, blobs, w, leaves + [d])
  {
  }

  predicate IsRepeated(leaves: seq<Descriptor>, d: Descriptor) { exists x :: x in leaves && x.digest == d.digest }

  lemma LeafFitsToo(tools: Tools, blobs: Blobs, leaves: seq<Descriptor>, visited: nat, d: Descriptor)
    requires Fits(tools, blobs, leaves, visited)
    ensures Fits(tools, blobs, leaves + [d], visited) <==>
              !IsRepeated(leaves, d) && TotalWeight(tools, blobs, leaves) + Weight(tools, blobs, d) <= MAX_ROOTFS_BYTES
  {
    assert (leaves + [d])[..|leaves|] == leaves;
    UnrepeatedMore(leaves, d);
  }

  lemma UnrepeatedMore(leaves: seq<Descriptor>, d: Descriptor)
    requires Unrepeated(leaves)
    ensures Unrepeated(leaves + [d]) <==> !IsRepeated(leaves, d)
  {
    if x :| x in leaves && x.digest == d.digest {
      var i :| 0 <= i < |leaves| && leaves[i] == x;
      assert (leaves + [d])[i].digest == (leaves + [d])[|leaves|].digest;
    }
  }

  class Archive {
    const tools: Tools
    const blobs: Blobs
    const wanted: Wanted
    var leaves: seq<Descriptor>
    var images: seq<(Media, string, int)>
    var attestations: seq<Attestation>
    var visited: nat
    var layerIdentities: map<(string, Media), (string, nat)>
    var rootfsBytes: nat

    constructor (tools: Tools, blobs: Blobs, wanted: Wanted)
      ensures this.tools == tools && this.blobs == blobs && this.wanted == wanted
      ensures Valid() && leaves == [] && visited == 0
    {
      this.tools, this.blobs, this.wanted := tools, blobs, wanted;
      leaves, images, attestations, visited := [], [], [], 0;
      layerIdentities, rootfsBytes := map[], 0;
    }

    /** Memoised layer digests are the recomputed ones. */
    ghost predicate Memoised()
      reads this
    {
      forall k :: k in layerIdentities ==>
        k.0 in blobs && tools.expand(blobs[k.0], k.1).Some? && |tools.expand(blobs[k.0], k.1).value| <= MAX_LAYER_BYTES
        && layerIdentities[k]
          == (tools.hash(tools.expand(blobs[k.0], k.1).value), |tools.expand(blobs[k.0], k.1).value|)
    }

    /** What has been accepted so far: sound leaves, each once, and what they come to. */
    ghost predicate Valid()
      reads this
    {
      && Memoised() && Fits(tools, blobs, leaves, visited) && rootfsBytes == TotalWeight(tools, blobs, leaves)
      && images == ImagesOf(tools, blobs, leaves) && attestations == AttestationsOf(tools, blobs, wanted, leaves)
      && LeavesSound(tools, blobs, wanted, leaves)
    }

    method LayerDigest(d: Descriptor) returns (r: Option<string>)
      requires Memoised() && Resolves(blobs, d)
      modifies this`layerIdentities, this`rootfsBytes
      ensures r.Some? <==>
          LayerFits(tools, blobs, d) && old(rootfsBytes) + ExpandedSize(tools, blobs, d) <= MAX_ROOTFS_BYTES
      ensures r.Some? ==> Memoised() && rootfsBytes == old(rootfsBytes) + ExpandedSize(tools, blobs, d)
      ensures r.Some? ==> r.value == tools.hash(Expanded(tools, blobs, d).value)
    {
      var key := (d.digest, d.media);
      if key in layerIdentities {
        var (checked, size) := layerIdentities[key];
        rootfsBytes := rootfsBytes + size;
        if rootfsBytes > MAX_ROOTFS_BYTES {
          return None;
        }
        return Some(checked);
      }
      var bytes := tools.expand(blobs[d.digest], d.media);
      if bytes.None? || |bytes.value| > MAX_LAYER_BYTES || rootfsBytes + |bytes.value| > MAX_ROOTFS_BYTES {
        return None;
      }
      rootfsBytes := rootfsBytes + |bytes.value|;
      layerIdentities := layerIdentities[key := (tools.hash(bytes.value), |bytes.value|)];
      return Some(tools.hash(bytes.value));
    }

    /** Every layer expands to the bytes its configuration names, and all of them fit the budget. */
    method CheckLayers(layers: seq<Descriptor>, diffIds: seq<string>) returns (ok: bool)
      requires Memoised() && rootfsBytes <= MAX_ROOTFS_BYTES && |layers| == |diffIds|
      requires forall l :: l in layers ==> Resolves(blobs, l)
      modifies this`layerIdentities, this`rootfsBytes
      ensures ok <==> LayersMatch(tools, blobs, layers, diffIds)
                      && old(rootfsBytes) + TotalSize(tools, blobs, layers) <= MAX_ROOTFS_BYTES
      ensures ok ==> Memoised() && rootfsBytes == old(rootfsBytes) + TotalSize(tools, blobs, layers)
    {
      for i := 0 to |layers|
        invariant Memoised()
            && rootfsBytes == old(rootfsBytes) + TotalSize(tools, blobs, layers[..i]) <= MAX_ROOTFS_BYTES
        invariant LayersMatch(tools, blobs, layers[..i], diffIds[..i])
      {
        NextLayer(tools, blobs, layers, diffIds, i);
        var digest := LayerDigest(layers[i]);
        if digest != Some(diffIds[i]) {
          return false;
        }
      }
      assert layers[..|layers|] == layers && diffIds[..|diffIds|] == diffIds;
      return true;
    }

    /** A runnable image for the wanted platform, whose layers expand to what its configuration says. */
    method Image(d: Descriptor, config: Descriptor, layers: seq<Descriptor>, artifact: Option<string>)
      returns (ok: bool)
      requires Memoised() && rootfsBytes <= MAX_ROOTFS_BYTES && d.media == ManifestType && Resolves(blobs, d)
      requires DocumentOf(tools, blobs, d) == Some(Manifest(config, layers, None, artifact))
      modifies this`layerIdentities, this`rootfsBytes, this`images
      ensures ok <==> ImageSound(tools, blobs, wanted, d)
                      && old(rootfsBytes) + TotalSize(tools, blobs, layers) <= MAX_ROOTFS_BYTES
      ensures ok ==> Memoised() && rootfsBytes == old(rootfsBytes) + TotalSize(tools, blobs, layers)
      ensures ok ==> images == old(images) + [Key(d)]
    {
      if config.media != ConfigType || !Resolves(blobs, config) {
        return false;
      }
      var details := DocumentOf(tools, blobs, config);
      if details.None? || !ConfigFits(wanted, d, layers, details.value)
         || exists l :: l in layers && !(l.media.LayerType? && Resolves(blobs, l))
      {
        return false;
      }
      ok := CheckLayers(layers, details.value.diffIds);
      if ok {
        images := images + [Key(d)];
      }
    }

    /** The subject of an attestation in its current or its older form, if all of it is as it should be. */
    method Attest(d: Descriptor, config: Descriptor, layers: seq<Descriptor>, subject: Option<Descriptor>,
                  artifact: Option<string>)
      returns (ok: bool)
      requires DocumentOf(tools, blobs, d) == Some(Manifest(config, layers, subject, artifact))
      modifies this`attestations
      ensures ok <==> AttestedBy(tools, blobs, wanted, d).Some?
      ensures ok ==>
          attestations == old(attestations) + [Attestation(d.digest, AttestedBy(tools, blobs, wanted, d).value)]
    {
      if d.platform.None? || !IsUnknown(d.platform.value)
        || !(d.refType.None? || d.refType == Some(ATTESTATION_REFERENCE)) {
        return false;
      }
      var key := SubjectKey(tools, blobs, wanted, d, config, subject, artifact);
      if key.None? || !(0 < |layers| <= 4096) {
        return false;
      }
      for i := 0 to |layers|
        invariant forall l :: l in layers[..i] ==> IsStatementAbout(tools, blobs, l, key.value.1)
      {
        var layer := layers[i];
        assert layer in layers;
        if layer.media != InTotoType || !Resolves(blobs, layer) {
          return false;
        }
        var statement := DocumentOf(tools, blobs, layer);
        if statement.None? || !statement.value.Statement? || key.value.1 !in statement.value.subjects {
          return false;
        }
        assert layers[..i + 1] == layers[..i] + [layer];
      }
      assert layers[..|layers|] == layers;
      attestations := attestations + [Attestation(d.digest, key.value)];
      return true;
    }

    method Walk(d: Descriptor, depth: nat) returns (ok: bool)
      requires Valid()
      modifies this
      ensures ok <==> Accepts(tools, blobs, wanted, old(leaves), old(visited), d, depth)
      ensures ok ==> Valid() && leaves == old(leaves) + LeavesUnder(tools, blobs, d, depth)
      ensures ok ==> visited == old(visited) + VisitsUnder(tools, blobs, d, depth)
      decreases Height(depth), 0, 1
    {
      OnlyVisitable(tools, blobs, wanted, leaves, visited, d, depth);
      visited := visited + 1;
      if depth > MAX_DEPTH || visited > MAX_VISITED {
        return false;
      }
      if (d.media != IndexType && d.media != ManifestType) || !Resolves(blobs, d) {
        return false;
      }
      var document := DocumentOf(tools, blobs, d);
      if document.None? {
        AcceptsNothingElse(tools, blobs, wanted, leaves, visited - 1, d, depth);
        return false;
      }
      ok := WalkDocument(d, depth, document.value);
    }

    /** The document read as what its descriptor says it is. */
    method WalkDocument(d: Descriptor, depth: nat, document: Document) returns (ok: bool)
      requires Valid() && visited > 0 && Visitable(blobs, visited - 1, d, depth)
      requires DocumentOf(tools, blobs, d) == Some(document)
      modifies this
      ensures ok <==> Accepts(tools, blobs, wanted, old(leaves), old(visited) - 1, d, depth)
      ensures ok ==> Valid() && leaves == old(leaves) + LeavesUnder(tools, blobs, d, depth)
      ensures ok ==> visited == old(visited) - 1 + VisitsUnder(tools, blobs, d, depth)
      decreases Height(depth), 0, 0
    {
      match document
      case Index(manifests) =>
        AcceptsIndex(tools, blobs, wanted, leaves, visited - 1, d, depth, manifests);
        if d.media != IndexType {
          return false;
        }
        ok := WalkIndex(manifests, depth + 1);
      case Manifest(config, layers, subject, artifact) =>
        AcceptsManifest(tools, blobs, wanted, leaves, visited - 1, d, depth);
        if d.media != ManifestType {
          return false;
        }
        ok := WalkManifest(d, config, layers, subject, artifact);
      case _ =>
        AcceptsNothingElse(tools, blobs, wanted, leaves, visited - 1, d, depth);
        return false;
    }

    /** An attestation or an image, whichever it says it is. */
    method Leaf(d: Descriptor, config: Descriptor, layers: seq<Descriptor>, subject: Option<Descriptor>,
                artifact: Option<string>)
      returns (ok: bool)
      requires Memoised() && rootfsBytes <= MAX_ROOTFS_BYTES && d.media == ManifestType && Resolves(blobs, d)
      requires DocumentOf(tools, blobs, d) == Some(Manifest(config, layers, subject, artifact))
      modifies this`layerIdentities, this`rootfsBytes, this`images, this`attestations
      ensures ok <==> LeafSound(tools, blobs, wanted, d)
                      && old(rootfsBytes) + Weight(tools, blobs, d) <= MAX_ROOTFS_BYTES
      ensures ok ==> Memoised() && rootfsBytes == old(rootfsBytes) + Weight(tools, blobs, d)
      ensures ok && ReadAsAttestation(tools, blobs, d) ==>
                images == old(images) && AttestedBy(tools, blobs, wanted, d).Some?
                && attestations
                  == old(attestations) + [Attestation(d.digest, AttestedBy(tools, blobs, wanted, d).value)]
      ensures ok && !ReadAsAttestation(tools, blobs, d) ==>
                images == old(images) + [Key(d)] && attestations == old(attestations)
    {
      if d.refType == Some(ATTESTATION_REFERENCE) || artifact == Some(ATTESTATION) {
        ok := Attest(d, config, layers, subject, artifact);
      } else {
        if d.artifact.Some? || artifact.Some? || subject.Some? || d.refType.Some? {
          return false;
        }
        ok := Image(d, config, layers, artifact);
      }
    }

    method WalkManifest(d: Descriptor, config: Descriptor, layers: seq<Descriptor>, subject: Option<Descriptor>,
                        artifact: Option<string>)
      returns (ok: bool)
      requires Valid() && d.media == ManifestType && Resolves(blobs, d)
      requires DocumentOf(tools, blobs, d) == Some(Manifest(config, layers, subject, artifact))
      modifies this`leaves, this`layerIdentities, this`rootfsBytes, this`images, this`attestations
      ensures ok <==> LeafSound(tools, blobs, wanted, d) && Fits(tools, blobs, old(leaves) + [d], visited)
      ensures ok ==> Valid() && leaves == old(leaves) + [d]
    {
      OneMoreLeaf(tools, blobs, wanted, leaves, d);
      LeafFitsToo(tools, blobs, leaves, visited, d);
      ok := Leaf(d, config, layers, subject, artifact);
      if !ok || IsRepeated(leaves, d) {
        return false;
      }
      LeavesSoundMore(tools, blobs, wanted, leaves, d);
      leaves := leaves + [d];
    }

    method WalkIndex(manifests: seq<Descriptor>, depth: nat) returns (ok: bool)
      requires Valid()
      modifies this
      ensures ok <==> 0 < |manifests| <= 1024
                      && AcceptsAll(tools, blobs, wanted, old(leaves), old(visited), manifests, depth)
      ensures ok ==> Valid() && leaves == old(leaves) + LeavesOfAll(tools, blobs, manifests, depth)
      ensures ok ==> visited == old(visited) + VisitsOfAll(tools, blobs, manifests, depth)
      decreases Height(depth), 1, 0
    {
      if !(0 < |manifests| <= 1024) {
        return false;
      }
      ghost var before, was := leaves, visited;
      assert before + [] == before;
      for i := 0 to |manifests|
        invariant Valid() && Along(tools, blobs, wanted, before, was, manifests, depth, i, leaves, visited)
      {
        AlongNext(tools, blobs, wanted, before, was, manifests, depth, i, leaves, visited);
        ok := Walk(manifests[i], depth);
        if !ok {
          return false;
        }
      }
      AlongWhole(tools, blobs, wanted, before, was, manifests, depth, leaves, visited);
      return true;
    }

    /** Exactly one runnable image, which every attestation is about. */
    method IsComplete() returns (ok: bool)
      ensures ok <==> |images| == 1 && forall a :: a in attestations ==> a.subject == images[0]
    {
      return |images| == 1 && forall a :: a in attestations ==> a.subject == images[0];
    }
  }
}
