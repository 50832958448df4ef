/**
 * Cloud storage: the configuration read from the environment, the guards
 * every transfer passes through, and how a directory's files become object
 * keys (and keys become local files again). The object store is a bucket
 * whose objects the transfers change; what the store refuses is a parameter.
 */
module Storage {
  import opened Wrappers
  import opened Text
  import opened Paths

  type Bytes = seq<bv8>

  const CLOUD_FLAG := "USE_CLOUD_STORAGE"
  const ENDPOINT_VAR := "S3_ENDPOINT_URL"
  const ACCESS_KEY_VAR := "S3_ACCESS_KEY_ID"
  const SECRET_VAR := "S3_SECRET_ACCESS_KEY"
  const BUCKET_VAR := "S3_BUCKET_NAME"
  const REGION_VAR := "S3_REGION"
  const DEFAULT_BUCKET := "tbench-storage"
  const DEFAULT_REGION := "auto"
  /** The most keys one `list_objects_v2` response carries. */
  const LIST_PAGE := 1000

  // ---------------------------------------------------------------------------
  // Configuration

  function LowerChar(c: char): char {
    if 'A' <= c <= 'Z' then (c as int + 32) as char else c
  }

  /** `str.lower` on ASCII letters. */
  function Lower(s: string): (r: string)
    ensures |r| == |s|
    ensures forall i :: 0 <= i < |s| ==> r[i] == LowerChar(s[i])
  {
    seq(|s|, i requires 0 <= i < |s| => LowerChar(s[i]))
  }

  /** Lowering twice is lowering once. */
  lemma LowerIdempotent(s: string)
    ensures Lower(Lower(s)) == Lower(s)
  {
    assert forall i :: 0 <= i < |s| ==> LowerChar(LowerChar(s[i])) == LowerChar(s[i]);
  }

  function Getenv(env: map<string, string>, name: string): Option<string> {
    if name in env then Some(env[name]) else None
  }

  datatype Config = Config(
    useCloud: bool,
    endpoint: Option<string>, accessKey: Option<string>, secret: Option<string>,
    bucket: string, region: string)

  /** The settings read once from the process environment. */
  function ConfigOf(env: map<string, string>): (c: Config)
    ensures c.useCloud <==> CLOUD_FLAG in env && Lower(env[CLOUD_FLAG]) == "true"
    ensures c.endpoint.Some? <==> ENDPOINT_VAR in env
    ensures c.accessKey.Some? <==> ACCESS_KEY_VAR in env
    ensures c.secret.Some? <==> SECRET_VAR in env
    ensures c.bucket == if BUCKET_VAR in env then env[BUCKET_VAR] else DEFAULT_BUCKET
    ensures c.region == if REGION_VAR in env then env[REGION_VAR] else DEFAULT_REGION
  {
    Config(
      Lower(Get(env, CLOUD_FLAG, "false")) == "true",
      Getenv(env, ENDPOINT_VAR), Getenv(env, ACCESS_KEY_VAR), Getenv(env, SECRET_VAR),
      Get(env, BUCKET_VAR, DEFAULT_BUCKET), Get(env, REGION_VAR, DEFAULT_REGION))
  }

  /** Cloud storage is off unless the flag is set. */
  lemma CloudOffByDefault(env: map<string, string>)
    requires CLOUD_FLAG !in env
    ensures !ConfigOf(env).useCloud
  {
    assert Lower("false")[0] == 'f';
  }

  /** The flag is read without regard to case. */
  lemma CloudFlagIgnoresCase(env: map<string, string>)
    ensures ConfigOf(env[CLOUD_FLAG := "TRUE"]).useCloud
  {
    var e := env[CLOUD_FLAG := "TRUE"];
    assert Lower(e[CLOUD_FLAG]) == "true";
  }

  /** A setting Python's `all` accepts: present and not empty. */
  predicate Truthy(o: Option<string>) {
    o.Some? && o.value != ""
  }

  /** What the S3 client is built from. */
  datatype Client = Client(endpoint: string, accessKey: string, secret: string, region: string)

  /** `get_s3_client`: a client only when cloud storage is on and all three credentials are set. */
  function S3Client(c: Config): (r: Option<Client>)
    ensures r.Some? <==> c.useCloud && Truthy(c.endpoint) && Truthy(c.accessKey) && Truthy(c.secret)
    ensures r.Some? ==>
      && r.value.endpoint == c.endpoint.value && r.value.accessKey == c.accessKey.value
      && r.value.secret == c.secret.value && r.value.region == c.region
  {
    if !c.useCloud then None
    else if !(Truthy(c.endpoint) && Truthy(c.accessKey) && Truthy(c.secret)) then None
    else Some(Client(c.endpoint.value, c.accessKey.value, c.secret.value, c.region))
  }

  // ---------------------------------------------------------------------------
  // Keys and relative paths

  /** `str.replace('\\', '/')`. */
  function Slashed(s: string): (r: string)
    ensures |r| == |s| && '\\' !in r
    decreases |s|
  {
    if s == [] then []
    else [if s[0] == '\\' then '/' else s[0]] + Slashed(s[1..])
  }

  /** Every backslash becomes `/` and every other character stays. */
  lemma {:induction false} SlashedAt(s: string, i: nat)
    requires i < |s|
    ensures Slashed(s)[i] == if s[i] == '\\' then '/' else s[i]
    decreases |s|
  {
    if i > 0 {
      SlashedAt(s[1..], i - 1);
    }
  }

  /** Text without a backslash is left as it is. */
  lemma {:induction false} SlashedKeeps(s: string)
    requires '\\' !in s
    ensures Slashed(s) == s
    decreases |s|
  {
    if s != [] {
      assert s[0] in s;
      assert forall c :: c in s[1..] ==> c in s;
      SlashedKeeps(s[1..]);
    }
  }

  /** The replacement works on each piece of a concatenation alone. */
  lemma {:induction false} SlashedAppend(a: string, b: string)
    ensures Slashed(a + b) == Slashed(a) + Slashed(b)
    decreases |a|
  {
    if a != [] {
      assert (a + b)[0] == a[0];
      assert (a + b)[1..] == a[1..] + b;
      SlashedAppend(a[1..], b);
    } else {
      assert a + b == b;
    }
  }

  /** The key a file at `relative` (as the platform prints it) is uploaded under. */
  function UploadKey(prefix: string, relative: string): (k: string)
    ensures '\\' !in k
    ensures |k| == |prefix| + 1 + |relative|
  {
    Slashed(prefix + "/" + relative)
  }

  /** `str.lstrip(c)`: every leading `c` removed. */
  function LStrip(s: string, c: char): (r: string)
    ensures |r| <= |s| && r == s[|s| - |r|..]
    ensures r == [] || r[0] != c
    ensures forall i :: 0 <= i < |s| - |r| ==> s[i] == c
    decreases |s|
  {
    if s != [] && s[0] == c then LStrip(s[1..], c) else s
  }

  /** Where the download places an object: the key with the prefix's length cut off and leading `/` stripped. */
  function RelativeFromKey(key: string, prefix: string): (r: string)
    ensures r == [] || r[0] != '/'
    ensures |prefix| <= |key| ==> |r| <= |key| - |prefix| && r == key[|key| - |r|..]
  {
    LStrip(if |prefix| <= |key| then key[|prefix|..] else "", '/')
  }

  /** Under a backslash-free prefix only the relative part of a key is rewritten. */
  lemma UploadKeyShape(prefix: string, relative: string)
    requires '\\' !in prefix
    ensures UploadKey(prefix, relative) == prefix + ("/" + Slashed(relative))
  {
    var dir := prefix + "/";
    SlashedAppend(dir, relative);
    SlashedKeeps(dir);
    assert dir + Slashed(relative) == prefix + ("/" + Slashed(relative));
  }

  /** Stripping leading `/` from `/` followed by text not starting with `/` leaves that text. */
  lemma LStripOneSlash(t: string)
    requires t == [] || t[0] != '/'
    ensures LStrip("/" + t, '/') == t
  {
    assert ("/" + t)[1..] == t;
  }

  /**
   * Downloading what was uploaded: a key made for `relative` under a
   * backslash-free prefix comes back as `relative` with its backslashes
   * turned into `/` (on a POSIX machine, `relative` itself).
   */
  lemma {:induction false} KeyRoundTrip(prefix: string, relative: string)
    requires '\\' !in prefix
    requires relative == [] || (relative[0] != '/' && relative[0] != '\\')
    ensures RelativeFromKey(UploadKey(prefix, relative), prefix) == Slashed(relative)
  {
    UploadKeyShape(prefix, relative);
    var t := Slashed(relative);
    assert (prefix + ("/" + t))[|prefix|..] == "/" + t;
    LStripOneSlash(t);
  }

  lemma KeyRoundTripPosix(prefix: string, relative: string)
    requires '\\' !in prefix && '\\' !in relative
    requires relative == [] || relative[0] != '/'
    ensures RelativeFromKey(UploadKey(prefix, relative), prefix) == relative
  {
    KeyRoundTrip(prefix, relative);
    SlashedKeeps(relative);
  }

  /**
   * Selection is by bare prefix: a key uploaded under a longer prefix that
   * merely starts with `prefix` is selected too, and is placed under the
   * rest of that longer prefix.
   */
  lemma {:induction false} SiblingPrefixSelected(prefix: string, more: string, relative: string)
    requires '\\' !in prefix && '\\' !in more && '\\' !in relative
    requires more != [] && more[0] != '/'
    ensures StartsWith(UploadKey(prefix + more, relative), prefix)
    ensures RelativeFromKey(UploadKey(prefix + more, relative), prefix) == more + "/" + relative
  {
    UploadKeyShape(prefix + more, relative);
    SlashedKeeps(relative);
    var rest := more + "/" + relative;
    var key := UploadKey(prefix + more, relative);
    assert key == prefix + rest;
    assert key[..|prefix|] == prefix;
    assert key[|prefix|..] == rest;
    assert rest[0] == more[0];
  }

  // ---------------------------------------------------------------------------
  // The bucket and the local disk

  /** The bucket named by the configuration. */
  class Bucket {
    var objects: map<string, Bytes>

    constructor (objects: map<string, Bytes>)
      ensures this.objects == objects
    {
      this.objects := objects;
    }
  }

  /** The machine's files, by path. */
  class Disk {
    var files: map<string, Bytes>

    constructor (files: map<string, Bytes>)
      ensures this.files == files
    {
      this.files := files;
    }
  }

  /**
   * `upload_file_to_s3`; `accepted` says whether the store takes the file.
   * The client's upload reports a refusal as an upload failure, not as the
   * `ClientError` the function catches, so a refusal is raised to the caller
   * (`Err`, naming the key) rather than returned as `False`.
   */
  method UploadFile(bucket: Bucket, cfg: Config, content: Bytes, key: string, accepted: bool)
    returns (r: Result<bool, string>)
    modifies bucket
    ensures S3Client(cfg).None? ==> r == Ok(false)
    ensures S3Client(cfg).Some? && !accepted ==> r == Err(key)
    ensures S3Client(cfg).Some? && accepted ==> r == Ok(true)
    ensures bucket.objects == if r == Ok(true) then old(bucket.objects)[key := content] else old(bucket.objects)
  {
    if !cfg.useCloud {
      return Ok(false);
    }
    var client := S3Client(cfg);
    if client.None? {
      return Ok(false);
    }
    if !accepted {
      return Err(key);
    }
    bucket.objects := bucket.objects[key := content];
    r := Ok(true);
  }

  /**
   * `download_file_from_s3`: a missing key is the store's error; `answered`
   * is false when the store answers with an error of its own.
   */
  method DownloadFile(bucket: Bucket, disk: Disk, cfg: Config, key: string, localPath: string, answered: bool)
    returns (ok: bool)
    modifies disk
    ensures ok <==> S3Client(cfg).Some? && answered && key in bucket.objects
    ensures disk.files == if ok then old(disk.files)[localPath := bucket.objects[key]] else old(disk.files)
  {
    if !cfg.useCloud {
      return false;
    }
    var client := S3Client(cfg);
    if client.None? {
      return false;
    }
    if !answered || key !in bucket.objects {
      return false;
    }
    disk.files := disk.files[localPath := bucket.objects[key]];
    ok := true;
  }

  /** `delete_s3_object`: deleting a missing key succeeds; `answered` is false when the store answers with an error. */
  method DeleteObject(bucket: Bucket, cfg: Config, key: string, answered: bool) returns (ok: bool)
    modifies bucket
    ensures ok <==> S3Client(cfg).Some? && answered
    ensures bucket.objects == if ok then old(bucket.objects) - {key} else old(bucket.objects)
  {
    if !cfg.useCloud {
      return false;
    }
    var client := S3Client(cfg);
    if client.None? {
      return false;
    }
    if !answered {
      return false;
    }
    bucket.objects := bucket.objects - {key};
    ok := true;
  }

  /** What the store lists for a prefix: every key starting with it. */
  ghost predicate IsListing(objects: map<string, Bytes>, prefix: string, listing: seq<string>) {
    forall k :: k in listing <==> k in objects && StartsWith(k, prefix)
  }

  /**
   * `list_objects_v2` for a prefix, `listing` being the store's full answer
   * and `answered` false when it answers with an error. Only one response is
   * read, so at most `LIST_PAGE` keys are returned.
   */
  function ListObjects(cfg: Config, listing: seq<string>, answered: bool): (r: seq<string>)
    ensures S3Client(cfg).None? || !answered ==> r == []
    ensures S3Client(cfg).Some? && answered ==> |r| == if |listing| < LIST_PAGE then |listing| else LIST_PAGE
    ensures r == listing[..|r|]
  {
    if !cfg.useCloud then []
    else if S3Client(cfg).None? then []
    else if !answered then []
    else if |listing| < LIST_PAGE then listing else listing[..LIST_PAGE]
  }

  /** The keys a listing returns all carry the prefix and name stored objects. */
  lemma ListedKeysCarryPrefix(objects: map<string, Bytes>, cfg: Config, prefix: string, listing: seq<string>,
                              answered: bool)
    requires IsListing(objects, prefix, listing)
    ensures forall k :: k in ListObjects(cfg, listing, answered) ==> k in objects && StartsWith(k, prefix)
  {
    var r := ListObjects(cfg, listing, answered);
    forall k | k in r
      ensures k in objects && StartsWith(k, prefix)
    {
      var i :| 0 <= i < |r| && r[i] == k;
      assert listing[i] == k;
    }
  }

  // ---------------------------------------------------------------------------
  // Whole directories

  /** One item of the recursive walk of a directory: its path relative to the directory, as printed. */
  datatype WalkEntry = WalkEntry(relative: string, isFile: bool, content: Bytes)

  /** The objects uploading the walked entries writes: one per file, a later key overwriting an earlier one. */
  function Uploaded(prefix: string, walk: seq<WalkEntry>): (r: map<string, Bytes>)
    decreases |walk|
  {
    if walk == [] then map[]
    else
      var e := walk[|walk| - 1];
      var before := Uploaded(prefix, walk[..|walk| - 1]);
      if e.isFile then before[UploadKey(prefix, e.relative) := e.content] else before
  }

  /** Every uploaded key is the key of a walked file and so has no backslash, and every walked file has its key. */
  lemma {:induction false} UploadedKeys(prefix: string, walk: seq<WalkEntry>)
    ensures forall k :: k in Uploaded(prefix, walk) ==>
      '\\' !in k && exists i :: 0 <= i < |walk| && walk[i].isFile && UploadKey(prefix, walk[i].relative) == k
    ensures forall i :: 0 <= i < |walk| && walk[i].isFile ==> UploadKey(prefix, walk[i].relative) in Uploaded(prefix, walk)
    decreases |walk|
  {
    if walk != [] {
      var init := walk[..|walk| - 1];
      UploadedKeys(prefix, init);
      forall k | k in Uploaded(prefix, walk)
        ensures exists i :: 0 <= i < |walk| && walk[i].isFile && UploadKey(prefix, walk[i].relative) == k
      {
        if k !in Uploaded(prefix, init) {
          assert walk[|walk| - 1].isFile && UploadKey(prefix, walk[|walk| - 1].relative) == k;
        } else {
          var i :| 0 <= i < |init| && init[i].isFile && UploadKey(prefix, init[i].relative) == k;
          assert walk[i] == init[i];
        }
      }
      forall i | 0 <= i < |walk| && walk[i].isFile
        ensures UploadKey(prefix, walk[i].relative) in Uploaded(prefix, walk)
      {
        if i < |init| {
          assert init[i] == walk[i];
        }
      }
    }
  }

  /** The position of the first walked file the store refuses, or the walk's length. */
  function FirstRefused(prefix: string, walk: seq<WalkEntry>, accepts: string -> bool): (m: nat)
    ensures m <= |walk|
    ensures m < |walk| ==> walk[m].isFile && !accepts(UploadKey(prefix, walk[m].relative))
    ensures forall i :: 0 <= i < m && walk[i].isFile ==> accepts(UploadKey(prefix, walk[i].relative))
    decreases |walk|
  {
    if walk == [] then 0
    else if walk[0].isFile && !accepts(UploadKey(prefix, walk[0].relative)) then 0
    else 1 + FirstRefused(prefix, walk[1..], accepts)
  }

  lemma UploadedStep(prefix: string, walk: seq<WalkEntry>, i: nat, cur: map<string, Bytes>, base: map<string, Bytes>)
    requires i < |walk| && cur == base + Uploaded(prefix, walk[..i])
    ensures walk[..i + 1][..i] == walk[..i]
    ensures (if walk[i].isFile then cur[UploadKey(prefix, walk[i].relative) := walk[i].content] else cur)
         == base + Uploaded(prefix, walk[..i + 1])
  {
    assert walk[..i + 1][..i] == walk[..i];
  }

  /**
   * `upload_directory_to_s3`: each walked file is uploaded under its key, in
   * walk order. When the store refuses one, the upload stops there and the
   * upload failure is raised (`Err`, naming the refused key): it is not the
   * `ClientError` the function catches. The files before it stay uploaded.
   */
  method UploadDirectory(bucket: Bucket, cfg: Config, walk: seq<WalkEntry>, prefix: string, accepts: string -> bool)
    returns (r: Result<bool, string>)
    modifies bucket
    ensures S3Client(cfg).None? ==> r == Ok(false) && bucket.objects == old(bucket.objects)
    ensures S3Client(cfg).Some? ==>
      var m := FirstRefused(prefix, walk, accepts);
      && (m == |walk| ==> r == Ok(true))
      && (m < |walk| ==> r == Err(UploadKey(prefix, walk[m].relative)))
      && bucket.objects == old(bucket.objects) + Uploaded(prefix, walk[..m])
  {
    if !cfg.useCloud {
      return Ok(false);
    }
    var client := S3Client(cfg);
    if client.None? {
      return Ok(false);
    }
    ghost var base := bucket.objects;
    ghost var m := FirstRefused(prefix, walk, accepts);
    var i := 0;
    while i < |walk|
      invariant 0 <= i <= m
      invariant bucket.objects == base + Uploaded(prefix, walk[..i])
    {
      var e := walk[i];
      if e.isFile {
        var key := UploadKey(prefix, e.relative);
        if !accepts(key) {
          return Err(key);
        }
        UploadedStep(prefix, walk, i, bucket.objects, base);
        bucket.objects := bucket.objects[key := e.content];
      } else {
        UploadedStep(prefix, walk, i, bucket.objects, base);
      }
      i := i + 1;
    }
    assert walk[..i] == walk;
    r := Ok(true);
  }

  /** Where the download writes the object at `key`. */
  function LocalPath(localDir: string, prefix: string, key: string): string {
    JoinPath(localDir, RelativeFromKey(key, prefix))
  }

  /** `LocalPath` for one download. */
  function Placement(localDir: string, prefix: string): string -> string {
    k => LocalPath(localDir, prefix, k)
  }

  /**
   * The files downloading the listed keys writes, each object to the path
   * `place` gives its key, a later key overwriting an earlier one at the
   * same path.
   */
  function Downloaded(objects: map<string, Bytes>, keys: seq<string>, place: string -> string): map<string, Bytes>
    requires forall k :: k in keys ==> k in objects
    decreases |keys|
  {
    if keys == [] then map[]
    else
      var k := keys[|keys| - 1];
      Downloaded(objects, keys[..|keys| - 1], place)[place(k) := objects[k]]
  }

  /** Each file the download writes holds the object of a listed key placed there. */
  lemma {:induction false} DownloadedFromListing(objects: map<string, Bytes>, keys: seq<string>, place: string -> string)
    requires forall k :: k in keys ==> k in objects
    ensures forall p :: p in Downloaded(objects, keys, place) ==>
      exists k :: k in keys && p == place(k) && Downloaded(objects, keys, place)[p] == objects[k]
    ensures forall k :: k in keys ==> place(k) in Downloaded(objects, keys, place)
    decreases |keys|
  {
    if keys != [] {
      var init := keys[..|keys| - 1];
      var last := keys[|keys| - 1];
      assert forall k :: k in init ==> k in keys;
      DownloadedFromListing(objects, init, place);
      var d := Downloaded(objects, keys, place);
      forall p | p in d
        ensures exists k :: k in keys && p == place(k) && d[p] == objects[k]
      {
        if p == place(last) {
          assert d[p] == objects[last];
        } else {
          var k :| k in init && p == place(k) && Downloaded(objects, init, place)[p] == objects[k];
          assert k in keys;
        }
      }
      forall k | k in keys
        ensures place(k) in d
      {
        if k != last {
          assert k in init by {
            var j :| 0 <= j < |keys| && keys[j] == k;
            assert j < |keys| - 1;
            assert init[j] == k;
          }
        }
      }
    }
  }

  /** The position of the first listed key the store fails to send, or the listing's length. */
  function FirstUnsent(listing: seq<string>, sends: string -> bool): (m: nat)
    ensures m <= |listing|
    ensures m < |listing| ==> !sends(listing[m])
    ensures forall i :: 0 <= i < m ==> sends(listing[i])
    decreases |listing|
  {
    if listing == [] then 0
    else if !sends(listing[0]) then 0
    else 1 + FirstUnsent(listing[1..], sends)
  }

  lemma DownloadedStep(objects: map<string, Bytes>, listing: seq<string>, place: string -> string, i: nat,
                       cur: map<string, Bytes>, base: map<string, Bytes>)
    requires i < |listing| && forall k :: k in listing ==> k in objects
    requires cur == base + Downloaded(objects, listing[..i], place)
    ensures cur[place(listing[i]) := objects[listing[i]]] == base + Downloaded(objects, listing[..i + 1], place)
  {
    assert listing[..i + 1][..i] == listing[..i];
  }

  /**
   * The loop over the listed objects: each is written where `place` puts
   * it, in listing order, until the store fails to send one.
   */
  method DownloadListing(disk: Disk, objects: map<string, Bytes>, listing: seq<string>, place: string -> string,
                         sends: string -> bool)
    returns (ok: bool)
    requires forall k :: k in listing ==> k in objects
    modifies disk
    ensures var m := FirstUnsent(listing, sends);
      && (ok <==> m == |listing|)
      && disk.files == old(disk.files) + Downloaded(objects, listing[..m], place)
  {
    ghost var base := disk.files;
    ghost var m := FirstUnsent(listing, sends);
    var i := 0;
    while i < |listing|
      invariant 0 <= i <= m
      invariant disk.files == base + Downloaded(objects, listing[..i], place)
    {
      var key := listing[i];
      if !sends(key) {
        return false;
      }
      DownloadedStep(objects, listing, place, i, disk.files, base);
      disk.files := disk.files[place(key) := objects[key]];
      i := i + 1;
    }
    assert listing[..i] == listing;
    ok := true;
  }

  /**
   * `download_directory_from_s3`: every object listed under the prefix is
   * written to its local path, in listing order; when the store fails to
   * send one, the download stops there and reports failure, the files before
   * it staying written. `answered` is false when the listing request itself
   * is answered with an error: then nothing is written and the result is
   * false.
   */
  method DownloadDirectory(bucket: Bucket, disk: Disk, cfg: Config, prefix: string, localDir: string,
                           answered: bool, listing: seq<string>, sends: string -> bool)
    returns (ok: bool)
    requires IsListing(bucket.objects, prefix, listing)
    modifies disk
    ensures S3Client(cfg).None? ==> !ok && disk.files == old(disk.files)
    ensures S3Client(cfg).Some? && !answered ==> !ok && disk.files == old(disk.files)
    ensures S3Client(cfg).Some? && answered ==>
      var m := FirstUnsent(listing, sends);
      && (ok <==> m == |listing|)
      && disk.files == old(disk.files) + Downloaded(bucket.objects, listing[..m], Placement(localDir, prefix))
  {
    if !cfg.useCloud {
      return false;
    }
    var client := S3Client(cfg);
    if client.None? {
      return false;
    }
    if !answered {
      return false;
    }
    ok := DownloadListing(disk, bucket.objects, listing, Placement(localDir, prefix), sends);
  }
}
