/** The Cloud Storage manager of installation_scripts/manage_gcs.py: the
    checks a local file must pass before a RAG import, the bucket, blob and
    `gs://` names it builds and parses, and its uploads and deletions against
    an in-memory store of buckets. */
module Gcs {
  import opened Wrappers
  import opened Strings

  // ---------------------------------------------------------------------
  // validate_file

  /** The file types a RAG corpus can import. */
  const SupportedExtensions: set<string> := {".pdf", ".txt", ".md", ".html", ".json", ".csv", ".tsv"}

  /** 500 MiB. */
  const MaxFileSize: nat := 500 * 1024 * 1024

  /** What `validate_file` learns about a local path from the file system:
      whether it exists, whether it is a regular file, its final component
      and its size in bytes. */
  datatype LocalFile = LocalFile(path: string, present: bool, isFile: bool, name: string, size: nat)

  /** `PurePath.suffix`: from the last `.` of the name to its end, unless
      that dot starts the name or ends it. */
  function Suffix(name: string): string {
    var p := LastPiece(name, '.');
    if p != [] && |p| + 1 < |name| then "." + p else ""
  }

  /** The suffix is a dot followed by dot-free text that ends the name, and
      it is empty exactly when the name is empty, ends with a dot, or has no
      dot past its first character. */
  lemma SuffixShape(name: string)
    ensures var r := Suffix(name);
      r != [] ==> 2 <= |r| < |name| && r == name[|name| - |r|..] && r[0] == '.'
                  && forall k :: 1 <= k < |r| ==> r[k] != '.'
    ensures Suffix(name) == [] <==>
      name == [] || name[|name| - 1] == '.' || forall k :: 0 < k < |name| ==> name[k] != '.'
  {
    var p := LastPiece(name, '.');
    LastPieceSeparator(name, '.');
    assert forall k :: 0 <= k < |p| ==> p[k] != '.';
    if p != [] && |p| + 1 < |name| {
      var i := |name| - |p| - 1;
      assert name[i] == '.' && name[i + 1..] == p;
      assert name[i..] == "." + p;
      assert name[|name| - 1] == p[|p| - 1];
    } else if p != [] {
      if |p| + 1 == |name| {
        assert name[0] == '.' && name[1..] == p;
        assert forall k :: 0 < k < |name| ==> name[k] == p[k - 1];
      } else {
        assert p == name;
      }
      assert name[|name| - 1] == p[|p| - 1];
    }
  }

  /** Lowering the name lowers its suffix. */
  lemma SuffixLower(name: string)
    ensures Suffix(Lower(name)) == Lower(Suffix(name))
  {
    LastPieceLower(name, '.');
    var p := LastPiece(name, '.');
    assert |Lower(name)| == |name| && |Lower(p)| == |p|;
    if p != [] && |p| + 1 < |name| {
      LowerDot(p);
    }
  }

  lemma LowerDot(p: string)
    ensures Lower("." + p) == "." + Lower(p)
  {
    assert LowerChar('.') == '.';
  }

  /** `file_path.suffix.lower() in SUPPORTED_EXTENSIONS`. */
  predicate SupportedName(name: string) {
    Lower(Suffix(name)) in SupportedExtensions
  }

  /** The outcome of `validate_file`; each failure carries what its
      message reports. */
  datatype FileVerdict =
    | FileOk
    | FileNotFound(path: string)
    | NotAFile(path: string)
    | Unsupported(suffix: string)
    | TooLarge(size: nat)

  /** `validate_file`: existence, then regular file, then extension, then
      size, the first failing check deciding the verdict. */
  function ValidateFile(f: LocalFile): (r: FileVerdict)
    ensures r.FileOk? <==> f.present && f.isFile && SupportedName(f.name) && f.size <= MaxFileSize
    ensures r.FileNotFound? <==> !f.present
    ensures r.NotAFile? <==> f.present && !f.isFile
    ensures r.Unsupported? <==> f.present && f.isFile && !SupportedName(f.name)
    ensures r.TooLarge? <==> f.present && f.isFile && SupportedName(f.name) && f.size > MaxFileSize
  {
    if !f.present then FileNotFound(f.path)
    else if !f.isFile then NotAFile(f.path)
    else if !SupportedName(f.name) then Unsupported(Suffix(f.name))
    else if f.size > MaxFileSize then TooLarge(f.size)
    else FileOk
  }

  /** The extension test ignores case: two names that lower to the same
      text get the same verdict kind. */
  lemma ValidateFileIgnoresCase(f: LocalFile, name: string)
    requires Lower(name) == Lower(f.name)
    ensures ValidateFile(f.(name := name)).FileOk? <==> ValidateFile(f).FileOk?
    ensures ValidateFile(f.(name := name)).Unsupported? <==> ValidateFile(f).Unsupported?
  {
    SuffixLower(name);
    SuffixLower(f.name);
  }

  /** A file of exactly 500 MiB passes; one byte more fails. */
  lemma ValidateFileSizeBound(f: LocalFile)
    requires f.present && f.isFile && SupportedName(f.name)
    ensures ValidateFile(f.(size := MaxFileSize)) == FileOk
    ensures ValidateFile(f.(size := MaxFileSize + 1)) == TooLarge(MaxFileSize + 1)
  {
  }

  // ---------------------------------------------------------------------
  // Names

  const NoBucketMessage := "No bucket name provided and GCS_DEFAULT_BUCKET not set"

  /** `bucket_name or self.default_bucket`, an error when both are empty. */
  function ResolveBucket(arg: Option<string>, default: Option<string>): (r: Result<string, string>)
    ensures r.Ok? <==> Truthy(arg) || Truthy(default)
    ensures r.Ok? ==> r.value != "" && (Truthy(arg) ==> r.value == arg.value)
    ensures r.Ok? && !Truthy(arg) ==> r.value == default.value
    ensures r.Err? ==> r.error == NoBucketMessage
  {
    if Truthy(arg) then Ok(arg.value)
    else if Truthy(default) then Ok(default.value)
    else Err(NoBucketMessage)
  }

  /** `gcs_path or file_path.name`. */
  function BlobName(gcsPath: Option<string>, fileName: string): string {
    if Truthy(gcsPath) then gcsPath.value else fileName
  }

  /** `gs://{bucket}/{blob}`. */
  function GsUri(bucket: string, blob: string): string {
    "gs://" + bucket + "/" + blob
  }

  /** `f"{prefix.rstrip('/')}/{name}"`. */
  function PrefixedPath(prefix: string, name: string): string {
    RStripChar(prefix, '/') + "/" + name
  }

  /** The blob path `upload_files` passes for one file: prefixed when a
      prefix is given, otherwise none. */
  function PathFor(prefix: Option<string>, name: string): Option<string> {
    if Truthy(prefix) then Some(PrefixedPath(prefix.value, name)) else None
  }

  /** Extra trailing slashes on the prefix do not change the path: the
      name always follows exactly one slash after the prefix's text. */
  lemma {:induction false} PrefixedPathSlashes(prefix: string, n: nat, name: string)
    ensures PrefixedPath(prefix + Repeat('/', n), name) == PrefixedPath(prefix, name)
    decreases n
  {
    if n == 0 {
      assert prefix + Repeat('/', n) == prefix;
    } else {
      var longer := prefix + Repeat('/', n);
      var shorter := prefix + Repeat('/', n - 1);
      assert longer == shorter + ['/'];
      assert longer[..|longer| - 1] == shorter;
      assert RStripChar(longer, '/') == RStripChar(shorter, '/');
      assert PrefixedPath(longer, name) == PrefixedPath(shorter, name);
      PrefixedPathSlashes(prefix, n - 1, name);
      assert PrefixedPath(shorter, name) == PrefixedPath(prefix, name);
    }
  }

  // ---------------------------------------------------------------------
  // URI parsing in delete_file

  datatype UriError = NotGsScheme | NoObjectPath

  /** The URI checks of `delete_file`: it must start with `gs://`, and the
      rest must hold a `/`; the bucket is the text before the first `/`
      and the blob everything after it. */
  function ParseGcsUri(uri: string): (r: Result<(string, string), UriError>)
    ensures r == Err(NotGsScheme) <==> !(|uri| >= 5 && uri[..5] == "gs://")
  {
    if |uri| < 5 || uri[..5] != "gs://" then Err(NotGsScheme)
    else
      var rest := uri[5..];
      match IndexOf(rest, '/')
      case None => Err(NoObjectPath)
      case Some(i) => Ok((rest[..i], rest[i + 1..]))
  }

  /** A parsed URI is rebuilt by `GsUri`, its bucket holding no `/`. */
  lemma UriOfParse(uri: string)
    requires ParseGcsUri(uri).Ok?
    ensures var (bucket, blob) := ParseGcsUri(uri).value;
      GsUri(bucket, blob) == uri && forall k :: 0 <= k < |bucket| ==> bucket[k] != '/'
  {
    var rest := uri[5..];
    var i := IndexOf(rest, '/').value;
    var bucket, blob := rest[..i], rest[i + 1..];
    assert ParseGcsUri(uri).value == (bucket, blob);
    SplitAtFirst(rest, '/', i);
    assert bucket + "/" + blob == rest;
    assert uri == uri[..5] + rest;
    assert GsUri(bucket, blob) == "gs://" + (bucket + "/" + blob);
  }

  /** A URI missing the `/` after its bucket is rejected. */
  lemma ParseGcsUriNoSlash(rest: string)
    requires forall k :: 0 <= k < |rest| ==> rest[k] != '/'
    ensures ParseGcsUri("gs://" + rest) == Err(NoObjectPath)
  {
    assert ("gs://" + rest)[5..] == rest;
  }

  /** Parsing the URI of a blob gives back its bucket and name. */
  lemma ParseOfUri(bucket: string, blob: string)
    requires forall k :: 0 <= k < |bucket| ==> bucket[k] != '/'
    ensures ParseGcsUri(GsUri(bucket, blob)) == Ok((bucket, blob))
  {
    var uri := GsUri(bucket, blob);
    assert uri[..5] == "gs://";
    assert uri[5..] == bucket + "/" + blob;
    IndexOfSeparator(bucket, blob, '/');
    assert (bucket + "/" + blob)[..|bucket|] == bucket;
  }

  // ---------------------------------------------------------------------
  // The store

  /** Buckets by name, each the set of its blob names. */
  type Buckets = map<string, set<string>>

  /** The blobs of a bucket, none when it does not exist. */
  function Blobs(buckets: Buckets, bucket: string): set<string> {
    if bucket in buckets then buckets[bucket] else {}
  }

  /** `_get_or_create_bucket` on the store: the bucket exists afterwards. */
  function WithBucket(buckets: Buckets, bucket: string): Buckets {
    buckets[bucket := Blobs(buckets, bucket)]
  }

  datatype UploadError =
    | InvalidFile(verdict: FileVerdict)
    | NoBucket(message: string)
    | AlreadyExists(uri: string)
    | UploadFailed(uri: string)

  /** `upload_file`: validate the file, find or create the bucket, refuse
      an existing blob unless `overwrite`, then store the blob. `failing`
      holds the blob names whose `upload_from_filename` raises; such an
      upload stores nothing. */
  function Upload(buckets: Buckets, default: Option<string>, f: LocalFile, arg: Option<string>,
                  gcsPath: Option<string>, overwrite: bool, failing: set<string>): (Buckets, Result<string, UploadError>)
  {
    var verdict := ValidateFile(f);
    if !verdict.FileOk? then (buckets, Err(InvalidFile(verdict)))
    else match ResolveBucket(arg, default)
      case Err(message) => (buckets, Err(NoBucket(message)))
      case Ok(bucket) =>
        var created := WithBucket(buckets, bucket);
        var blob := BlobName(gcsPath, f.name);
        if blob in created[bucket] && !overwrite then (created, Err(AlreadyExists(GsUri(bucket, blob))))
        else if blob in failing then (created, Err(UploadFailed(GsUri(bucket, blob))))
        else (created[bucket := created[bucket] + {blob}], Ok(GsUri(bucket, blob)))
  }

  /** An invalid file is rejected before any bucket is touched. */
  lemma UploadValidatesFirst(buckets: Buckets, default: Option<string>, f: LocalFile, arg: Option<string>,
                             gcsPath: Option<string>, overwrite: bool, failing: set<string>)
    requires !ValidateFile(f).FileOk?
    ensures Upload(buckets, default, f, arg, gcsPath, overwrite, failing) == (buckets, Err(InvalidFile(ValidateFile(f))))
  {
  }

  /** Without `overwrite`, an existing blob is refused and no blob of any
      bucket changes. */
  lemma UploadNeverOverwrites(buckets: Buckets, default: Option<string>, f: LocalFile, arg: Option<string>,
                              gcsPath: Option<string>, failing: set<string>)
    requires ValidateFile(f).FileOk? && ResolveBucket(arg, default).Ok?
    requires BlobName(gcsPath, f.name) in Blobs(buckets, ResolveBucket(arg, default).value)
    ensures var (after, r) := Upload(buckets, default, f, arg, gcsPath, false, failing);
      && r == Err(AlreadyExists(GsUri(ResolveBucket(arg, default).value, BlobName(gcsPath, f.name))))
      && after == buckets
  {
  }

  /** A successful upload stores the blob under the resolved bucket and
      returns a URI that parses back to them; every blob stored before is
      still there. */
  lemma UploadStores(buckets: Buckets, default: Option<string>, f: LocalFile, arg: Option<string>,
                     gcsPath: Option<string>, overwrite: bool, failing: set<string>)
    requires Upload(buckets, default, f, arg, gcsPath, overwrite, failing).1.Ok?
    ensures var (after, r) := Upload(buckets, default, f, arg, gcsPath, overwrite, failing);
      var bucket, blob := ResolveBucket(arg, default).value, BlobName(gcsPath, f.name);
      && ValidateFile(f).FileOk?
      && blob !in failing
      && r.value == GsUri(bucket, blob)
      && bucket in after && blob in after[bucket]
      && Kept(buckets, after)
  {
  }

  /** An upload that raises in `upload_from_filename` fails with its URI
      and stores nothing; the bucket has been created by then. */
  lemma UploadFailureStoresNothing(buckets: Buckets, default: Option<string>, f: LocalFile, arg: Option<string>,
                                   gcsPath: Option<string>, overwrite: bool, failing: set<string>)
    requires ValidateFile(f).FileOk? && ResolveBucket(arg, default).Ok?
    requires BlobName(gcsPath, f.name) in failing
    requires overwrite || BlobName(gcsPath, f.name) !in Blobs(buckets, ResolveBucket(arg, default).value)
    ensures var (after, r) := Upload(buckets, default, f, arg, gcsPath, overwrite, failing);
      var bucket := ResolveBucket(arg, default).value;
      && r == Err(UploadFailed(GsUri(bucket, BlobName(gcsPath, f.name))))
      && after == WithBucket(buckets, bucket)
  {
  }

  /** Every bucket and blob of `before` is in `after`. */
  predicate Kept(before: Buckets, after: Buckets) {
    forall b :: b in before ==> b in after && before[b] <= after[b]
  }

  lemma UploadKeeps(buckets: Buckets, default: Option<string>, f: LocalFile, arg: Option<string>,
                    gcsPath: Option<string>, overwrite: bool, failing: set<string>)
    ensures Kept(buckets, Upload(buckets, default, f, arg, gcsPath, overwrite, failing).0)
  {
  }

  /** `upload_files`: every file in order, with its prefixed path; the
      URIs of the uploads that succeeded and the names of the files that
      failed. */
  function UploadAll(buckets: Buckets, default: Option<string>, files: seq<LocalFile>, arg: Option<string>,
                     prefix: Option<string>, overwrite: bool, failing: set<string>): (Buckets, seq<string>, seq<string>)
    decreases |files|
  {
    if files == [] then (buckets, [], [])
    else
      var (before, uris, failed) := UploadAll(buckets, default, files[..|files| - 1], arg, prefix, overwrite, failing);
      var f := files[|files| - 1];
      var (after, r) := Upload(before, default, f, arg, PathFor(prefix, f.name), overwrite, failing);
      if r.Ok? then (after, uris + [r.value], failed) else (after, uris, failed + [f.name])
  }

  /** Every file is counted once, as uploaded or as failed. */
  lemma {:induction false} UploadAllCounts(buckets: Buckets, default: Option<string>, files: seq<LocalFile>,
                                           arg: Option<string>, prefix: Option<string>, overwrite: bool, failing: set<string>)
    ensures var (_, uris, failed) := UploadAll(buckets, default, files, arg, prefix, overwrite, failing);
      |uris| + |failed| == |files|
    decreases |files|
  {
    if files != [] {
      UploadAllCounts(buckets, default, files[..|files| - 1], arg, prefix, overwrite, failing);
    }
  }

  /** A batch upload only adds: every blob stored before is still stored. */
  lemma {:induction false} UploadAllKeeps(buckets: Buckets, default: Option<string>, files: seq<LocalFile>,
                                          arg: Option<string>, prefix: Option<string>, overwrite: bool, failing: set<string>)
    ensures Kept(buckets, UploadAll(buckets, default, files, arg, prefix, overwrite, failing).0)
    decreases |files|
  {
    if files != [] {
      var init := files[..|files| - 1];
      var f := files[|files| - 1];
      var before := UploadAll(buckets, default, init, arg, prefix, overwrite, failing).0;
      UploadAllKeeps(buckets, default, init, arg, prefix, overwrite, failing);
      UploadKeeps(before, default, f, arg, PathFor(prefix, f.name), overwrite, failing);
    }
  }

  /** When no bucket can be named, every file fails and nothing changes. */
  lemma {:induction false} UploadAllNoBucket(buckets: Buckets, default: Option<string>, files: seq<LocalFile>,
                                             arg: Option<string>, prefix: Option<string>, overwrite: bool, failing: set<string>)
    requires !Truthy(arg) && !Truthy(default)
    ensures var (after, uris, failed) := UploadAll(buckets, default, files, arg, prefix, overwrite, failing);
      after == buckets && uris == [] && |failed| == |files|
    decreases |files|
  {
    if files != [] {
      UploadAllNoBucket(buckets, default, files[..|files| - 1], arg, prefix, overwrite, failing);
    }
  }

  /** A file whose upload raises is reported among the failed files. */
  lemma {:induction false} UploadAllReportsFailure(buckets: Buckets, default: Option<string>, files: seq<LocalFile>,
                                                   arg: Option<string>, prefix: Option<string>, overwrite: bool,
                                                   failing: set<string>, k: nat)
    requires k < |files|
    requires BlobName(PathFor(prefix, files[k].name), files[k].name) in failing
    ensures files[k].name in UploadAll(buckets, default, files, arg, prefix, overwrite, failing).2
    decreases |files|
  {
    var init := files[..|files| - 1];
    var f := files[|files| - 1];
    var (before, uris, failed) := UploadAll(buckets, default, init, arg, prefix, overwrite, failing);
    var (after, r) := Upload(before, default, f, arg, PathFor(prefix, f.name), overwrite, failing);
    if k < |files| - 1 {
      assert init[k] == files[k];
      UploadAllReportsFailure(buckets, default, init, arg, prefix, overwrite, failing, k);
    } else {
      UploadFailingErrs(before, default, f, arg, PathFor(prefix, f.name), overwrite, failing);
    }
  }

  /** An upload whose blob raises never succeeds. */
  lemma UploadFailingErrs(buckets: Buckets, default: Option<string>, f: LocalFile, arg: Option<string>,
                          gcsPath: Option<string>, overwrite: bool, failing: set<string>)
    requires BlobName(gcsPath, f.name) in failing
    ensures Upload(buckets, default, f, arg, gcsPath, overwrite, failing).1.Err?
  {
  }

  /** `list_blobs(prefix=...)`: the names in the bucket that start with
      `prefix`. */
  function Listed(blobs: set<string>, prefix: string): (r: set<string>)
    ensures r <= blobs
    ensures forall n :: n in r ==> |prefix| <= |n| && n[..|prefix|] == prefix
  {
    set n | n in blobs && |prefix| <= |n| && n[..|prefix|] == prefix
  }

  lemma SubsetCard(a: set<string>, b: set<string>)
    requires a <= b
    ensures |a| <= |b|
  {
    assert b == a + (b - a);
  }

  /** The manager's storage client: the buckets of the project and the
      default bucket from `GCS_DEFAULT_BUCKET`. */
  class GcsStore {
    const defaultBucket: Option<string>
    var buckets: Buckets

    constructor(defaultBucket: Option<string>, buckets: Buckets)
      ensures this.defaultBucket == defaultBucket && this.buckets == buckets
    {
      this.defaultBucket := defaultBucket;
      this.buckets := buckets;
    }

    /** `_get_or_create_bucket`: the bucket's name, creating it when it does
        not exist. */
    method GetOrCreateBucket(arg: Option<string>) returns (r: Result<string, string>)
      modifies this
      ensures r == ResolveBucket(arg, defaultBucket)
      ensures buckets == if r.Ok? then WithBucket(old(buckets), r.value) else old(buckets)
    {
      var name := if Truthy(arg) then arg.value else if defaultBucket.Some? then defaultBucket.value else "";
      if name == "" {
        return Err(NoBucketMessage);
      }
      if name !in buckets {
        buckets := buckets[name := {}];
      }
      return Ok(name);
    }

    /** `upload_file`. */
    method UploadFile(f: LocalFile, arg: Option<string>, gcsPath: Option<string>, overwrite: bool, failing: set<string>)
      returns (r: Result<string, UploadError>)
      modifies this
      ensures (buckets, r) == Upload(old(buckets), defaultBucket, f, arg, gcsPath, overwrite, failing)
    {
      var verdict := ValidateFile(f);
      if !verdict.FileOk? {
        return Err(InvalidFile(verdict));
      }
      var bucket := GetOrCreateBucket(arg);
      if bucket.Err? {
        return Err(NoBucket(bucket.error));
      }
      var blob := BlobName(gcsPath, f.name);
      if blob in buckets[bucket.value] && !overwrite {
        return Err(AlreadyExists(GsUri(bucket.value, blob)));
      }
      if blob in failing {
        return Err(UploadFailed(GsUri(bucket.value, blob)));
      }
      buckets := buckets[bucket.value := buckets[bucket.value] + {blob}];
      return Ok(GsUri(bucket.value, blob));
    }

    /** `upload_files`: a failed file is recorded and the loop goes on. */
    method UploadFiles(files: seq<LocalFile>, arg: Option<string>, prefix: Option<string>, overwrite: bool, failing: set<string>)
      returns (uris: seq<string>, failed: seq<string>)
      modifies this
      ensures (buckets, uris, failed) == UploadAll(old(buckets), defaultBucket, files, arg, prefix, overwrite, failing)
    {
      uris, failed := [], [];
      var i := 0;
      while i < |files|
        invariant 0 <= i <= |files|
        invariant (buckets, uris, failed) == UploadAll(old(buckets), defaultBucket, files[..i], arg, prefix, overwrite, failing)
      {
        var f := files[i];
        assert files[..i + 1][..i] == files[..i];
        var r := UploadFile(f, arg, PathFor(prefix, f.name), overwrite, failing);
        if r.Ok? {
          uris := uris + [r.value];
        } else {
          failed := failed + [f.name];
        }
        i := i + 1;
      }
      assert files[..i] == files;
    }

    /** `delete_file`: the URI must parse, the bucket and the blob must
        exist; a dry run stops there, and without `force` the user must
        confirm. `failing` holds the blob names whose `blob.delete()`
        raises, which returns false and deletes nothing. */
    method DeleteFile(uri: string, force: bool, dryRun: bool, confirmed: bool, failing: set<string>) returns (ok: bool)
      modifies this
      ensures ok <==>
        && ParseGcsUri(uri).Ok?
        && ParseGcsUri(uri).value.0 in old(buckets)
        && ParseGcsUri(uri).value.1 in old(buckets)[ParseGcsUri(uri).value.0]
        && (dryRun || ((force || confirmed) && ParseGcsUri(uri).value.1 !in failing))
      ensures ok && !dryRun ==>
        var (bucket, blob) := ParseGcsUri(uri).value;
        buckets == old(buckets)[bucket := old(buckets)[bucket] - {blob}]
      ensures !ok || dryRun ==> buckets == old(buckets)
    {
      var parsed := ParseGcsUri(uri);
      if parsed.Err? {
        return false;
      }
      var (bucket, blob) := parsed.value;
      if bucket !in buckets || blob !in buckets[bucket] {
        return false;
      }
      if dryRun {
        return true;
      }
      if !force && !confirmed {
        return false;
      }
      if blob in failing {
        return false;
      }
      buckets := buckets[bucket := buckets[bucket] - {blob}];
      return true;
    }

    /** `delete_prefix`: every listed blob is deleted unless its deletion
        fails (`failing`), and the count of deletions is reported. Nothing
        listed and a dry run both succeed without deleting. */
    method DeletePrefix(bucket: string, prefix: string, force: bool, dryRun: bool, confirmed: bool,
                        failing: set<string>)
      returns (ok: bool, deleted: nat)
      modifies this
      ensures ok <==> bucket in old(buckets) && (Listed(old(buckets)[bucket], prefix) == {} || dryRun || force || confirmed)
      ensures deleted <= (if bucket in old(buckets) then |Listed(old(buckets)[bucket], prefix)| else 0)
      ensures ok && !dryRun ==>
        var listed := Listed(old(buckets)[bucket], prefix);
        && deleted == |listed - failing|
        && buckets == old(buckets)[bucket := old(buckets)[bucket] - (listed - failing)]
      ensures !ok || dryRun ==> deleted == 0 && buckets == old(buckets)
    {
      if bucket !in buckets {
        return false, 0;
      }
      var listed := Listed(buckets[bucket], prefix);
      if listed == {} {
        assert buckets[bucket] - (listed - failing) == buckets[bucket];
        assert buckets == buckets[bucket := buckets[bucket]];
        return true, 0;
      }
      if dryRun {
        return true, 0;
      }
      if !force && !confirmed {
        return false, 0;
      }
      deleted := DeleteListed(bucket, listed, failing);
      SubsetCard(listed - failing, listed);
      ok := true;
    }

    /** The loop of `DeleteListed` over the bucket's blob names. */
    static method RemoveListed(blobs: set<string>, listed: set<string>, failing: set<string>)
      returns (remaining: set<string>, deleted: nat)
      ensures deleted == |listed - failing|
      ensures remaining == blobs - (listed - failing)
    {
      deleted := 0;
      remaining := blobs;
      var todo := listed;
      while todo != {}
        invariant todo <= listed
        invariant deleted == |(listed - todo) - failing|
        invariant remaining == blobs - ((listed - todo) - failing)
        decreases |todo|
      {
        var n :| n in todo;
        TakeOne(blobs, listed, todo, failing, n);
        if n !in failing {
          remaining := remaining - {n};
          deleted := deleted + 1;
        }
        todo := todo - {n};
      }
      assert listed - todo == listed;
    }

    /** Taking one name off the to-do set deletes it exactly when its
        deletion does not fail. */
    static lemma TakeOne(blobs: set<string>, listed: set<string>, todo: set<string>, failing: set<string>, n: string)
      requires n in todo && todo <= listed
      ensures var gone, gone' := (listed - todo) - failing, (listed - (todo - {n})) - failing;
        if n in failing then gone' == gone
        else |gone'| == |gone| + 1 && blobs - gone' == (blobs - gone) - {n}
    {
      var gone, gone' := (listed - todo) - failing, (listed - (todo - {n})) - failing;
      if n !in failing {
        assert n !in gone && gone' == gone + {n};
      }
    }

    /** The deletion loop of `delete_prefix`: each listed blob whose
        deletion does not fail is removed and counted. */
    method DeleteListed(bucket: string, listed: set<string>, failing: set<string>) returns (deleted: nat)
      requires bucket in buckets
      modifies this
      ensures deleted == |listed - failing|
      ensures buckets == old(buckets)[bucket := old(buckets)[bucket] - (listed - failing)]
    {
      var remaining;
      remaining, deleted := RemoveListed(buckets[bucket], listed, failing);
      buckets := buckets[bucket := remaining];
    }
  }
}
