/** The OCI layout builder and verifier of `oci_export.rs`. SHA-256 and the JSON
    serialisers are parameters with the laws the code relies on; files are
    written in steps that may tear or fail, and every state on the way is kept. */
module OciLayout {
  import opened Basics

  type Bytes = seq<Byte>

  // ----- library code, as parameters -----

  /** An incremental hash printed in hex. */
  datatype Sha<!S> = Sha(init: S, update: (S, Bytes) -> S, finish: S -> string)

  ghost predicate Incremental<S(!new)>(h: Sha<S>) {
    && (forall s, a, b :: h.update(h.update(s, a), b) == h.update(s, a + b))
    && (forall s :: h.update(s, []) == s)
  }

  /** `sha256_hex`. */
  function Digest<S>(h: Sha<S>, bytes: Bytes): string {
    h.finish(h.update(h.init, bytes))
  }

  ghost predicate CollisionFree<S(!new)>(h: Sha<S>) {
    forall a: Bytes, b: Bytes :: Digest(h, a) == Digest(h, b) ==> a == b
  }

  datatype ImageSpec = ImageSpec(architecture: string, os: string, entrypoint: seq<string>, command: seq<string>)

  /** What the verifier finds at `manifests[0].digest`. */
  datatype Reference = NotJson | NoDigest | Refers(digest: string)

  /** What a manifest says of the config file and the layer. */
  datatype Fields = Fields(configDigest: string, configSize: nat, layerDigest: string, layerSize: nat)

  datatype Json = Json(
    marker: Bytes,
    config: (ImageSpec, string) -> Bytes,
    manifest: (string, nat, string, nat) -> Bytes,
    index: (string, nat, string, string) -> Bytes,
    reference: Bytes -> Reference,
    fields: Bytes -> Option<Fields>,
    isText: Bytes -> bool,
    trim: Bytes -> Bytes)

  /** Serialised documents are text, the marker has no outer white space, the
      index names the digest it was made for, and a manifest can be read back. */
  ghost predicate Faithful(j: Json) {
    && j.isText(j.marker) && j.trim(j.marker) == j.marker
    && (forall s, d :: j.isText(j.config(s, d)))
    && (forall c, m, l, n :: j.fields(j.manifest(c, m, l, n)) == Some(Fields(c, m, l, n)))
    && (forall d, n, a, o :: j.isText(j.index(d, n, a, o)) && j.reference(j.index(d, n, a, o)) == Refers("sha256:" + d))
  }

  // ----- the directory -----

  /** The paths of a layout; `Tmp` is the temporary file of one export. */
  datatype Path = Marker | Index | Config | Tmp | Blob(digest: string)

  type Files = map<Path, Bytes>

  datatype OciError = Io | MissingFile(file: Path) | DigestMismatch(file: Path) | Parse

  datatype BuildReport = BuildReport(
    tarDigest: string, tarSize: nat,
    configDigest: string, configSize: nat,
    manifestDigest: string, manifestSize: nat,
    indexDigest: string, indexSize: nat)

  /** One file operation: what the file holds part-way, and whether it succeeds. */
  datatype IoStep = IoStep(torn: Bytes, ok: bool)

  ghost function BlobsOf(files: Files): Files { map p | p in files && p.Blob? :: files[p] }

  ghost predicate SameBlobs(a: Files, b: Files) { BlobsOf(a) == BlobsOf(b) }

  lemma SameBlobsAt(a: Files, b: Files, d: string)
    requires SameBlobs(a, b)
    ensures Blob(d) in a <==> Blob(d) in b
    ensures Blob(d) in a ==> a[Blob(d)] == b[Blob(d)]
  {
    assert Blob(d) in a <==> Blob(d) in BlobsOf(a);
    assert Blob(d) in b <==> Blob(d) in BlobsOf(b);
  }

  /** Every state since `from` shows the blobs of `start`. */
  ghost predicate Quiet(history: seq<Files>, from: nat, start: Files) {
    forall k :: from <= k < |history| ==> SameBlobs(history[k], start)
  }

  ghost predicate Continues(history: seq<Files>, before: seq<Files>) {
    |before| <= |history| && history[..|before|] == before
  }

  class LayoutDir {
    var files: Files
    /** Every state the directory has been in. */
    ghost var history: seq<Files>

    constructor (files: Files)
      ensures this.files == files && history == [files]
    {
      this.files := files;
      history := [files];
    }

    /** Writes a file that is no blob: it may tear, and on failure stays torn. */
    method Put(p: Path, content: Bytes, io: IoStep, ghost start: Files) returns (ok: bool)
      requires !p.Blob? && SameBlobs(files, start) && Quiet(history, 0, start)
      modifies this
      ensures ok == io.ok
      ensures files == old(files)[p := if ok then content else io.torn]
      ensures history == old(history) + [old(files)[p := io.torn]] + (if ok then [files] else [])
      ensures SameBlobs(files, start) && Quiet(history, 0, start) && Continues(history, old(history))
    {
      files := files[p := io.torn];
      history := history + [files];
      if !io.ok { return false; }
      files := files[p := content];
      history := history + [files];
      return true;
    }

    /** `rename` is atomic: the target appears whole or not at all. */
    method Rename(p: Path, q: Path, ok: bool)
      requires p in files && p != q
      modifies this
      ensures files == if ok then old(files)[q := old(files)[p]] - {p} else old(files)
      ensures history == old(history) + [files]
    {
      if ok { files := files[q := files[p]] - {p}; }
      history := history + [files];
    }
  }

  // ----- build_layer -----

  datatype Read = Chunk(bytes: Bytes) | ReadFails

  /** The bytes a reader yields up to its first empty read. */
  function Payload(input: seq<Read>): Bytes {
    if input == [] || input[0].ReadFails? || input[0].bytes == [] then []
    else input[0].bytes + Payload(input[1..])
  }

  /** Reading fails before the end of the data. */
  predicate ReadError(input: seq<Read>) {
    input != [] && (input[0].ReadFails? || (input[0].bytes != [] && ReadError(input[1..])))
  }

  function ReportFor<S>(h: Sha<S>, j: Json, config: Bytes, index: Bytes, tar: Bytes): BuildReport {
    var manifest := ManifestFor(h, j, config, tar);
    BuildReport(Digest(h, tar), |tar|, Digest(h, config), |config|, Digest(h, manifest), |manifest|, Digest(h, index), |index|)
  }

  /** The manifest that ties a config file to a layer. */
  function ManifestFor<S>(h: Sha<S>, j: Json, config: Bytes, tar: Bytes): Bytes {
    j.manifest(Digest(h, config), |config|, Digest(h, tar), |tar|)
  }

  function ConfigFor<S>(h: Sha<S>, j: Json, spec: ImageSpec, tar: Bytes): Bytes {
    j.config(spec, Digest(h, tar))
  }

  function IndexFor<S>(h: Sha<S>, j: Json, spec: ImageSpec, tar: Bytes): Bytes {
    var manifest := ManifestFor(h, j, ConfigFor(h, j, spec, tar), tar);
    j.index(Digest(h, manifest), |manifest|, spec.architecture, spec.os)
  }

  function FullReport<S>(h: Sha<S>, j: Json, spec: ImageSpec, tar: Bytes): BuildReport {
    ReportFor(h, j, ConfigFor(h, j, spec, tar), IndexFor(h, j, spec, tar), tar)
  }

  /** What a finished export adds to a directory. */
  function Built<S>(files: Files, h: Sha<S>, j: Json, spec: ImageSpec, tar: Bytes): Files {
    files[Marker := j.marker][Index := IndexFor(h, j, spec, tar)][Config := ConfigFor(h, j, spec, tar)]
         [Blob(Digest(h, tar)) := tar] - {Tmp}
  }

  /** The report tells the truth about the directory: each digest and size is
      that of its file, index.json refers to a manifest with the reported digest
      and size, and that manifest names the config file and the layer. */
  ghost predicate TrueReport<S>(files: Files, h: Sha<S>, j: Json, tar: Bytes, r: BuildReport) {
    && Index in files && Config in files && Marker in files && Blob(r.tarDigest) in files
    && files[Blob(r.tarDigest)] == tar && r.tarDigest == Digest(h, tar) && r.tarSize == |tar|
    && r.configDigest == Digest(h, files[Config]) && r.configSize == |files[Config]|
    && r.indexDigest == Digest(h, files[Index]) && r.indexSize == |files[Index]|
    && j.reference(files[Index]) == Refers("sha256:" + r.manifestDigest)
    && exists manifest :: Names(manifest, h, j, r)
  }

  ghost predicate Names<S>(manifest: Bytes, h: Sha<S>, j: Json, r: BuildReport) {
    && Digest(h, manifest) == r.manifestDigest && |manifest| == r.manifestSize
    && j.fields(manifest) == Some(Fields(r.configDigest, r.configSize, r.tarDigest, r.tarSize))
  }

  /** What was built: the config of this image, the index for its platform. */
  ghost predicate Describes(files: Files, j: Json, spec: ImageSpec, r: BuildReport) {
    && Index in files && Config in files && Marker in files && Tmp !in files
    && files[Config] == j.config(spec, r.tarDigest) && files[Marker] == j.marker
    && files[Index] == j.index(r.manifestDigest, r.manifestSize, spec.architecture, spec.os)
  }

  lemma BuiltReportIsTrue<S>(files: Files, h: Sha<S>, j: Json, spec: ImageSpec, tar: Bytes)
    requires Faithful(j)
    ensures var r := FullReport(h, j, spec, tar);
            TrueReport(Built(files, h, j, spec, tar), h, j, tar, r) && Describes(Built(files, h, j, spec, tar), j, spec, r)
  {
    assert Names(ManifestFor(h, j, ConfigFor(h, j, spec, tar), tar), h, j, FullReport(h, j, spec, tar));
  }

  /** Every digest-named blob holds bytes with that digest. */
  ghost predicate BlobsSound<S>(files: Files, h: Sha<S>) {
    forall d :: Blob(d) in files ==> Digest(h, files[Blob(d)]) == d
  }

  /** The hasher after one `update` per chunk. */
  function Absorbed<S>(h: Sha<S>, s: S, input: seq<Read>): S {
    if input == [] || input[0].ReadFails? || input[0].bytes == [] then s
    else Absorbed(h, h.update(s, input[0].bytes), input[1..])
  }

  /** Chunking does not matter to the hash. */
  lemma {:induction false} AbsorbedIsWhole<S(!new)>(h: Sha<S>, done: Bytes, input: seq<Read>)
    requires Incremental(h)
    ensures Absorbed(h, h.update(h.init, done), input) == h.update(h.init, done + Payload(input))
    decreases |input|
  {
    if input == [] || input[0].ReadFails? || input[0].bytes == [] {
      assert done + [] == done;
    } else {
      var chunk := input[0].bytes;
      AbsorbedIsWhole(h, done + chunk, input[1..]);
      assert done + (chunk + Payload(input[1..])) == (done + chunk) + Payload(input[1..]);
    }
  }

  /** How many chunks the reader yields. */
  function Chunks(input: seq<Read>): nat {
    if input == [] || input[0].ReadFails? || input[0].bytes == [] then 0 else 1 + Chunks(input[1..])
  }

  /** The read loop: write and hash each chunk as it comes. */
  method StreamLayer<S>(dir: LayoutDir, h: Sha<S>, input: seq<Read>, io: nat -> IoStep, ghost start: Files)
    returns (r: Result<(S, nat), OciError>)
    requires Tmp in dir.files && dir.files[Tmp] == []
    requires SameBlobs(dir.files, start) && Quiet(dir.history, 0, start)
    modifies dir
    ensures r.Err? ==> r.error == Io
    ensures r.Ok? <==> !ReadError(input) && forall k: nat :: k < Chunks(input) ==> io(k).ok
    ensures r.Ok? ==> r.value == (Absorbed(h, h.init, input), |Payload(input)|)
    ensures r.Ok? ==> dir.files == old(dir.files)[Tmp := Payload(input)]
    ensures SameBlobs(dir.files, start) && Quiet(dir.history, 0, start)
    ensures Continues(dir.history, old(dir.history))
  {
    var hasher, size: nat, done: Bytes, left, steps: nat := h.init, 0, [], input, 0;
    while left != []
      invariant Streaming(h, input, left, hasher, size, done, steps)
      invariant forall k: nat :: k < steps ==> io(k).ok
      invariant dir.files == old(dir.files)[Tmp := done]
      invariant SameBlobs(dir.files, start) && Quiet(dir.history, 0, start) && Continues(dir.history, old(dir.history))
      decreases |left|
    {
      if left[0].ReadFails? { return Err(Io); }
      var chunk := left[0].bytes;
      if chunk == [] { break; }
      StreamStep(h, input, left, hasher, size, done, steps);
      var ok := dir.Put(Tmp, done + chunk, io(steps), start);
      if !ok { return Err(Io); }
      steps := steps + 1;
      hasher := h.update(hasher, chunk);
      size := size + |chunk|;
      done := done + chunk;
      left := left[1..];
    }
    assert done + Payload(left) == done;
    return Ok((hasher, size));
  }

  /** Where the read loop stands: what is hashed and written, and what is left. */
  ghost predicate Streaming<S>(h: Sha<S>, input: seq<Read>, left: seq<Read>, hasher: S, size: nat, done: Bytes, steps: nat) {
    && Absorbed(h, h.init, input) == Absorbed(h, hasher, left) && size == |done|
    && Payload(input) == done + Payload(left) && (ReadError(input) <==> ReadError(left))
    && steps + Chunks(left) == Chunks(input)
  }

  lemma StreamStep<S>(h: Sha<S>, input: seq<Read>, left: seq<Read>, hasher: S, size: nat, done: Bytes, steps: nat)
    requires Streaming(h, input, left, hasher, size, done, steps)
    requires left != [] && left[0].Chunk? && left[0].bytes != []
    ensures var chunk := left[0].bytes;
            Streaming(h, input, left[1..], h.update(hasher, chunk), size + |chunk|, done + chunk, steps + 1)
    ensures steps < Chunks(input)
  {
    assert done + Payload(left) == (done + left[0].bytes) + Payload(left[1..]);
  }

  /** What the file system decides during one export. */
  datatype BuildEnv = BuildEnv(
    mkdirs: bool, create: IoStep, chunk: nat -> IoStep, flush: bool,
    marker: IoStep, index: IoStep, config: IoStep, rename: bool)

  ghost predicate AllSucceeds(env: BuildEnv, input: seq<Read>) {
    && env.mkdirs && env.create.ok && !ReadError(input)
    && (forall k: nat :: k < Chunks(input) ==> env.chunk(k).ok)
    && env.flush && env.marker.ok && env.index.ok && env.config.ok && env.rename
  }

  /** Everything up to the flushed temporary file. */
  method WriteTemp<S>(dir: LayoutDir, h: Sha<S>, input: seq<Read>, env: BuildEnv, ghost start: Files)
    returns (r: Result<(S, nat), OciError>)
    requires SameBlobs(dir.files, start) && Quiet(dir.history, 0, start)
    modifies dir
    ensures r.Err? ==> r.error == Io
    ensures r.Ok? <==> env.mkdirs && env.create.ok && !ReadError(input) && env.flush
                       && forall k: nat :: k < Chunks(input) ==> env.chunk(k).ok
    ensures r.Ok? ==> r.value == (Absorbed(h, h.init, input), |Payload(input)|)
    ensures r.Ok? ==> dir.files == old(dir.files)[Tmp := Payload(input)]
    ensures SameBlobs(dir.files, start) && Quiet(dir.history, 0, start)
    ensures Continues(dir.history, old(dir.history))
  {
    if !env.mkdirs { return Err(Io); }
    var ok := dir.Put(Tmp, [], env.create, start);
    if !ok { return Err(Io); }
    r := StreamLayer(dir, h, input, env.chunk, start);
    if r.Ok? && !env.flush { return Err(Io); }
  }

  /** The three metadata files, in the order they are written. */
  method WriteMetadata(dir: LayoutDir, marker: Bytes, index: Bytes, config: Bytes, env: BuildEnv, ghost start: Files)
    returns (ok: bool)
    requires SameBlobs(dir.files, start) && Quiet(dir.history, 0, start)
    modifies dir
    ensures ok <==> env.marker.ok && env.index.ok && env.config.ok
    ensures ok ==> dir.files == old(dir.files)[Marker := marker][Index := index][Config := config]
    ensures ok ==> LastIs(dir.history, dir.files)
    ensures SameBlobs(dir.files, start) && Quiet(dir.history, 0, start)
    ensures Continues(dir.history, old(dir.history))
  {
    ok := dir.Put(Marker, marker, env.marker, start);
    if !ok { return; }
    ok := dir.Put(Index, index, env.index, start);
    if !ok { return; }
    ok := dir.Put(Config, config, env.config, start);
  }

  /** Renaming the temporary file leaves no trace of it. */
  lemma TempVanishes(files: Files, tar: Bytes, marker: Bytes, index: Bytes, config: Bytes, blob: Path)
    requires blob.Blob?
    ensures var all := files[Tmp := tar][Marker := marker][Index := index][Config := config];
            all[blob := all[Tmp]] - {Tmp} == files[Marker := marker][Index := index][Config := config][blob := tar] - {Tmp}
  {
  }

  /** The directory just before the rename: all metadata is new, the layer is
      still in the temporary file. */
  function Unrenamed<S>(files: Files, h: Sha<S>, j: Json, spec: ImageSpec, tar: Bytes): Files {
    files[Tmp := tar][Marker := j.marker][Index := IndexFor(h, j, spec, tar)][Config := ConfigFor(h, j, spec, tar)]
  }

  ghost predicate AllSound<S>(history: seq<Files>, h: Sha<S>) {
    forall k :: 0 <= k < |history| ==> BlobsSound(history[k], h)
  }

  ghost predicate NoBlobs(files: Files) { forall d :: Blob(d) !in files }

  /** No state of `history` is accepted as the export of any layer. */
  ghost predicate NothingAccepted<S>(history: seq<Files>, h: Sha<S>, j: Json) {
    forall k, tar :: 0 <= k < |history| ==> VerifyLayout(history[k], h, j, tar).Err?
  }

  /** Crash safety of an export into a directory without blobs: until the rename
      no state is accepted. */
  lemma NothingVerifiesBeforeTheRename<S>(history: seq<Files>, start: Files, h: Sha<S>, j: Json)
    requires Quiet(history, 0, start)
    ensures NoBlobs(start) ==> NothingAccepted(history, h, j)
  {
    forall k, tar | 0 <= k < |history| && NoBlobs(start) ensures VerifyLayout(history[k], h, j, tar).Err? {
      SameBlobsAt(history[k], start, Digest(h, tar));
    }
  }

  /** In every state of an export each digest-named blob holds its bytes. */
  lemma BlobsStaySound<S>(history: seq<Files>, start: Files, h: Sha<S>)
    requires Quiet(history, 0, start)
    ensures BlobsSound(start, h) ==> AllSound(history, h)
  {
    forall k | 0 <= k < |history| && BlobsSound(start, h) ensures BlobsSound(history[k], h) {
      forall d | Blob(d) in history[k] ensures Digest(h, history[k][Blob(d)]) == d {
        SameBlobsAt(history[k], start, d);
      }
    }
  }

  /** The last two states of a success: all but the rename, and the layout. */
  ghost predicate EndsWithTheRename<S>(history: seq<Files>, start: Files, h: Sha<S>, j: Json, spec: ImageSpec, tar: Bytes) {
    && |history| >= 2 && history[|history| - 2] == Unrenamed(start, h, j, spec, tar)
    && history[|history| - 1] == Built(start, h, j, spec, tar)
  }

  /** `build_layer`: on success exactly the finished layout and its report. In
      every state on the way, however the export ends, digest-named blobs hold
      their bytes, and from a start without blobs nothing verifies before the
      rename, which is the last step of a success. */
  method BuildLayer<S(!new)>(dir: LayoutDir, h: Sha<S>, j: Json, spec: ImageSpec, input: seq<Read>, env: BuildEnv)
    returns (r: Result<BuildReport, OciError>)
    requires Incremental(h) && Quiet(dir.history, 0, dir.files)
    modifies dir
    ensures r.Ok? <==> AllSucceeds(env, input)
    ensures r.Ok? ==> dir.files == Built(old(dir.files), h, j, spec, Payload(input))
    ensures r.Ok? ==> r.value == FullReport(h, j, spec, Payload(input))
    ensures r.Ok? && Faithful(j) ==> TrueReport(dir.files, h, j, Payload(input), r.value) && Describes(dir.files, j, spec, r.value)
    ensures r.Err? ==> r.error == Io
    ensures Continues(dir.history, old(dir.history))
    ensures BlobsSound(old(dir.files), h) ==> AllSound(dir.history, h)
    ensures NoBlobs(old(dir.files)) ==> NothingAccepted(BeforeRename(dir.history, r.Ok?), h, j)
    ensures r.Ok? ==> EndsWithTheRename(dir.history, old(dir.files), h, j, spec, Payload(input))
  {
    r := Export(dir, h, j, spec, input, env);
    if Faithful(j) { BuiltReportIsTrue(old(dir.files), h, j, spec, Payload(input)); }
    QuietExportsAreSafe(dir.history, r.Ok?, old(dir.files), h, j, spec, Payload(input));
  }

  /** All states but the one a rename made. */
  function BeforeRename(history: seq<Files>, renamed: bool): seq<Files> {
    if renamed && history != [] then history[..|history| - 1] else history
  }

  lemma QuietExportsAreSafe<S>(history: seq<Files>, renamed: bool, start: Files, h: Sha<S>, j: Json, spec: ImageSpec, tar: Bytes)
    requires Quiet(BeforeRename(history, renamed), 0, start)
    requires renamed ==> EndsWithTheRename(history, start, h, j, spec, tar)
    ensures BlobsSound(start, h) ==> AllSound(history, h)
    ensures NoBlobs(start) ==> NothingAccepted(BeforeRename(history, renamed), h, j)
  {
    NothingVerifiesBeforeTheRename(BeforeRename(history, renamed), start, h, j);
    BlobsStaySound(BeforeRename(history, renamed), start, h);
    if renamed { RenameKeepsSound(history, start, h, j, spec, tar); }
  }

  lemma RenameKeepsSound<S>(history: seq<Files>, start: Files, h: Sha<S>, j: Json, spec: ImageSpec, tar: Bytes)
    requires history != [] && history[|history| - 1] == Built(start, h, j, spec, tar)
    requires BlobsSound(start, h) ==> AllSound(history[..|history| - 1], h)
    ensures BlobsSound(start, h) ==> AllSound(history, h)
  {
    forall k | 0 <= k < |history| && BlobsSound(start, h) ensures BlobsSound(history[k], h) {
      if k < |history| - 1 { assert history[..|history| - 1][k] == history[k]; }
    }
  }

  /** The steps of the export, in terms of which blobs each state shows. */
  method Export<S(!new)>(dir: LayoutDir, h: Sha<S>, j: Json, spec: ImageSpec, input: seq<Read>, env: BuildEnv)
    returns (r: Result<BuildReport, OciError>)
    requires Incremental(h) && Quiet(dir.history, 0, dir.files)
    modifies dir
    ensures r.Err? ==> r.error == Io
    ensures r.Ok? <==> AllSucceeds(env, input)
    ensures r.Ok? ==> dir.files == Built(old(dir.files), h, j, spec, Payload(input))
    ensures r.Ok? ==> r.value == FullReport(h, j, spec, Payload(input))
    ensures Continues(dir.history, old(dir.history))
    ensures Quiet(BeforeRename(dir.history, r.Ok?), 0, old(dir.files))
    ensures r.Ok? ==> EndsWithTheRename(dir.history, old(dir.files), h, j, spec, Payload(input))
  {
    ghost var start := dir.files;
    r := Prepare(dir, h, j, spec, input, env);
    if r.Err? { return; }
    var tarDigest := r.value.tarDigest;
    ghost var quiet, all := dir.history, dir.files;
    dir.Rename(Tmp, Blob(tarDigest), env.rename);
    if !env.rename {
      FailedRenameIsQuiet(quiet, dir.history, all, start);
      return Err(Io);
    }
    RenameFinishes(quiet, dir.history, all, dir.files, start, h, j, spec, Payload(input));
  }

  lemma FailedRenameIsQuiet(quiet: seq<Files>, history: seq<Files>, all: Files, start: Files)
    requires Quiet(quiet, 0, start) && SameBlobs(all, start) && history == quiet + [all]
    ensures Quiet(history, 0, start)
  {}

  lemma RenameFinishes<S>(quiet: seq<Files>, history: seq<Files>, all: Files, files: Files,
                          start: Files, h: Sha<S>, j: Json, spec: ImageSpec, tar: Bytes)
    requires all == Unrenamed(start, h, j, spec, tar) && LastIs(quiet, all) && Quiet(quiet, 0, start)
    requires var blob := Blob(FullReport(h, j, spec, tar).tarDigest);
             files == all[blob := all[Tmp]] - {Tmp} && history == quiet + [files]
    ensures files == Built(start, h, j, spec, tar) && EndsWithTheRename(history, start, h, j, spec, tar)
    ensures BeforeRename(history, true) == quiet
  {
    TempVanishes(start, tar, j.marker, IndexFor(h, j, spec, tar), ConfigFor(h, j, spec, tar), Blob(Digest(h, tar)));
  }

  /** Everything before the rename, and the report it will confirm. */
  method Prepare<S(!new)>(dir: LayoutDir, h: Sha<S>, j: Json, spec: ImageSpec, input: seq<Read>, env: BuildEnv)
    returns (r: Result<BuildReport, OciError>)
    requires Incremental(h) && Quiet(dir.history, 0, dir.files)
    modifies dir
    ensures r.Err? ==> r.error == Io
    ensures r.Ok? <==> AllSucceeds(env.(rename := true), input)
    ensures r.Ok? ==> dir.files == Unrenamed(old(dir.files), h, j, spec, Payload(input)) && LastIs(dir.history, dir.files)
    ensures r.Ok? ==> r.value == FullReport(h, j, spec, Payload(input))
    ensures SameBlobs(dir.files, old(dir.files)) && Quiet(dir.history, 0, old(dir.files))
    ensures Continues(dir.history, old(dir.history))
  {
    ghost var start := dir.files;
    var streamed := WriteTemp(dir, h, input, env, start);
    if streamed.Err? { return Err(streamed.error); }
    var tarDigest := h.finish(streamed.value.0);
    StreamedDigest(h, input);
    var config, index, report := MakeDocuments(h, j, spec, tarDigest, streamed.value.1, Payload(input));
    var ok := WriteMetadata(dir, j.marker, index, config, env, start);
    r := if ok then Ok(report) else Err(Io);
  }

  ghost predicate LastIs(history: seq<Files>, files: Files) { history != [] && history[|history| - 1] == files }

  /** config.json, the manifest, index.json and the report on all of them. */
  method MakeDocuments<S>(h: Sha<S>, j: Json, spec: ImageSpec, tarDigest: string, tarSize: nat, ghost tar: Bytes)
    returns (config: Bytes, index: Bytes, report: BuildReport)
    requires tarDigest == Digest(h, tar) && tarSize == |tar|
    ensures config == ConfigFor(h, j, spec, tar) && index == IndexFor(h, j, spec, tar)
    ensures report == FullReport(h, j, spec, tar)
  {
    config := j.config(spec, tarDigest);
    var manifest := j.manifest(Digest(h, config), |config|, tarDigest, tarSize);
    index := j.index(Digest(h, manifest), |manifest|, spec.architecture, spec.os);
    report := BuildReport(tarDigest, tarSize, Digest(h, config), |config|, Digest(h, manifest), |manifest|, Digest(h, index), |index|);
  }

  lemma StreamedDigest<S(!new)>(h: Sha<S>, input: seq<Read>)
    requires Incremental(h)
    ensures h.finish(Absorbed(h, h.init, input)) == Digest(h, Payload(input))
  {
    AbsorbedIsWhole(h, [], input);
    assert [] + Payload(input) == Payload(input);
  }

  // ----- verify_layout -----

  function VerifyLayout<S>(files: Files, h: Sha<S>, j: Json, tar: Bytes): Result<BuildReport, OciError> {
    if Index !in files then Err(MissingFile(Index)) else if !j.isText(files[Index]) then Err(Io)
    else if Config !in files then Err(MissingFile(Config)) else if !j.isText(files[Config]) then Err(Io)
    else if Marker !in files then Err(MissingFile(Marker)) else if !j.isText(files[Marker]) then Err(Io)
    else if j.trim(files[Marker]) != j.marker then Err(DigestMismatch(Marker))
    else
      var blob := Blob(Digest(h, tar));
      var manifest := ManifestFor(h, j, files[Config], tar);
      if blob !in files then Err(Io)
      else if files[blob] != tar then Err(DigestMismatch(blob))
      else
        match j.reference(files[Index])
        case NotJson => Err(Parse)
        case NoDigest => Err(MissingFile(Index))
        case Refers(d) =>
          if d != "sha256:" + Digest(h, manifest) then Err(DigestMismatch(Index))
          else Ok(ReportFor(h, j, files[Config], files[Index], tar))
  }

  /** Which error a directory is rejected with. */
  lemma VerifyErrorsAre<S>(files: Files, h: Sha<S>, j: Json, tar: Bytes)
    ensures var r, blob := VerifyLayout(files, h, j, tar), Blob(Digest(h, tar));
            var indexRead := Index in files && j.isText(files[Index]);
            var configRead := indexRead && Config in files && j.isText(files[Config]);
            var marked := configRead && Marker in files && j.isText(files[Marker]) && j.trim(files[Marker]) == j.marker;
            var stored := marked && blob in files && files[blob] == tar;
            && (r == Err(MissingFile(Index)) <==> Index !in files || (stored && j.reference(files[Index]) == NoDigest))
            && (r == Err(MissingFile(Config)) <==> indexRead && Config !in files)
            && (r == Err(MissingFile(Marker)) <==> configRead && Marker !in files)
            && (r == Err(DigestMismatch(Marker)) <==>
                  configRead && Marker in files && j.isText(files[Marker]) && j.trim(files[Marker]) != j.marker)
            && (r == Err(DigestMismatch(blob)) <==> marked && blob in files && files[blob] != tar)
            && (r == Err(Parse) <==> stored && j.reference(files[Index]) == NotJson)
            && (r == Err(DigestMismatch(Index)) <==> stored && j.reference(files[Index]).Refers? && r.Err?)
  {}

  /** An accepted directory is what the report says of it. */
  lemma AcceptedReportIsTrue<S>(files: Files, h: Sha<S>, j: Json, tar: Bytes)
    requires Faithful(j) && VerifyLayout(files, h, j, tar).Ok?
    ensures TrueReport(files, h, j, tar, VerifyLayout(files, h, j, tar).value)
  {
    assert Names(ManifestFor(h, j, files[Config], tar), h, j, VerifyLayout(files, h, j, tar).value);
  }

  /** Round trip: verifying what was built returns the builder's report. */
  lemma BuiltVerifies<S>(files: Files, h: Sha<S>, j: Json, spec: ImageSpec, tar: Bytes)
    requires Faithful(j)
    ensures VerifyLayout(Built(files, h, j, spec, tar), h, j, tar)
         == Ok(FullReport(h, j, spec, tar))
  {}

  ghost predicate Readable(files: Files, j: Json) {
    && Index in files && Config in files && Marker in files
    && j.isText(files[Index]) && j.isText(files[Config]) && j.isText(files[Marker])
  }

  ghost predicate NoForgery<S(!new)>(h: Sha<S>, j: Json) {
    Faithful(j) && CollisionFree(h)
  }

  /** Two references are the same only for the same config and layer. */
  lemma ReferencesApart<S(!new)>(h: Sha<S>, j: Json, a: Bytes, t: Bytes, b: Bytes, u: Bytes)
    requires NoForgery(h, j)
    requires "sha256:" + Digest(h, ManifestFor(h, j, a, t)) == "sha256:" + Digest(h, ManifestFor(h, j, b, u))
    ensures a == b && t == u
  {
    var mine, theirs := Digest(h, ManifestFor(h, j, a, t)), Digest(h, ManifestFor(h, j, b, u));
    assert ("sha256:" + mine)[7..] == mine && ("sha256:" + theirs)[7..] == theirs;
    assert ManifestFor(h, j, a, t) == ManifestFor(h, j, b, u);
    assert j.fields(ManifestFor(h, j, a, t)) == Some(Fields(Digest(h, a), |a|, Digest(h, t), |t|));
    assert j.fields(ManifestFor(h, j, b, u)) == Some(Fields(Digest(h, b), |b|, Digest(h, u), |u|));
    assert Digest(h, a) == Digest(h, b) && Digest(h, t) == Digest(h, u);
  }

  /** Once the new index.json is in place, only the new layer with the new
      config can be accepted. */
  lemma NewIndexFitsOnlyTheNew<S(!new)>(files: Files, h: Sha<S>, j: Json, spec: ImageSpec, tar: Bytes, other: Bytes)
    requires NoForgery(h, j) && Index in files && files[Index] == IndexFor(h, j, spec, tar)
    requires VerifyLayout(files, h, j, other).Ok?
    ensures other == tar && files[Config] == ConfigFor(h, j, spec, tar)
  {
    ReferencesApart(h, j, files[Config], other, ConfigFor(h, j, spec, tar), tar);
  }

  /** Export over an older layout: the directory just before the rename is
      accepted for the new layer if that was there already, and for no other
      layer, the old one included. */
  lemma BeforeTheRenameIff<S(!new)>(start: Files, h: Sha<S>, j: Json, spec: ImageSpec, tar: Bytes, other: Bytes)
    requires NoForgery(h, j)
    ensures var blob := Blob(Digest(h, tar));
            VerifyLayout(Unrenamed(start, h, j, spec, tar), h, j, other).Ok?
            <==> other == tar && blob in start && start[blob] == tar
  {
    var files := Unrenamed(start, h, j, spec, tar);
    if VerifyLayout(files, h, j, other).Ok? { NewIndexFitsOnlyTheNew(files, h, j, spec, tar, other); }
  }

  /** Tampering, exactly. Compared with the layout that was built for this layer,
      a directory is accepted if and only if its files can be read, the marker
      is the same up to outer white space, the blob is the same, and either
      config.json and the digest in index.json are both the same or both were
      changed and still belong together. */
  lemma AcceptedIff<S(!new)>(start: Files, files: Files, h: Sha<S>, j: Json, spec: ImageSpec, tar: Bytes)
    requires NoForgery(h, j)
    ensures var built, blob := Built(start, h, j, spec, tar), Blob(Digest(h, tar));
            VerifyLayout(files, h, j, tar).Ok? <==>
            && Readable(files, j) && j.trim(files[Marker]) == j.trim(built[Marker])
            && blob in files && files[blob] == built[blob]
            && if files[Config] == built[Config] then j.reference(files[Index]) == j.reference(built[Index])
               else j.reference(files[Index]) != j.reference(built[Index])
                    && j.reference(files[Index]) == Refers("sha256:" + Digest(h, ManifestFor(h, j, files[Config], tar)))
  {
    var built := Built(start, h, j, spec, tar);
    BuiltVerifies(start, h, j, spec, tar);
    if VerifyLayout(files, h, j, tar).Ok? && j.reference(files[Index]) == j.reference(built[Index]) {
      ReferencesApart(h, j, files[Config], tar, built[Config], tar);
    }
  }

  /** In particular changing just one of config.json and the digest in
      index.json is always rejected. */
  lemma TamperingIsRejected<S(!new)>(start: Files, files: Files, h: Sha<S>, j: Json, spec: ImageSpec, tar: Bytes)
    requires NoForgery(h, j) && VerifyLayout(files, h, j, tar).Ok?
    ensures var built := Built(start, h, j, spec, tar);
            && files[Blob(Digest(h, tar))] == built[Blob(Digest(h, tar))]
            && (files[Config] == built[Config] <==> j.reference(files[Index]) == j.reference(built[Index]))
  {
    AcceptedIff(start, files, h, j, spec, tar);
  }
}
