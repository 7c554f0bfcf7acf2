/** The Cloud Storage client (scheduler/googlecloudplatform/storage.py): path
    normalisation, bucket/relative splitting, the no-overwrite upload guard,
    downloads and the directory-style listing, over an abstract store. */
module Storage {
  import opened Wrappers
  import opened Strings

  const Scheme := "gs://"

  type Content = seq<bv8>

  /** Bucket name to blob name to content. */
  type Store = map<string, map<string, Content>>

  datatype StorageError =
    | BucketNotFound(bucket: string)
    | FileAlreadyExists(path: string)
    | BlobNotFound(path: string)

  predicate HasScheme(path: string) {
    Scheme <= path
  }

  /** The content of a blob, if it exists. */
  function Get(store: Store, bucket: string, name: string): Option<Content> {
    if bucket in store && name in store[bucket] then Some(store[bucket][name]) else None
  }

  /** `_add_gs`: the path with the `gs://` scheme, added only when missing. */
  function AddGs(path: string): (uri: string)
    ensures HasScheme(uri)
    ensures HasScheme(path) ==> uri == path
    ensures !HasScheme(path) ==> uri[|Scheme|..] == path
  {
    if !HasScheme(path) then Scheme + path else path
  }

  /** `_remove_gs`: one leading `gs://` is stripped; any other path is kept. */
  function RemoveGs(path: string): (r: string)
    ensures HasScheme(path) ==> Scheme + r == path
    ensures !HasScheme(path) ==> r == path
  {
    if HasScheme(path) then path[|Scheme|..] else path
  }

  lemma AddGsIdempotent(path: string)
    ensures AddGs(AddGs(path)) == AddGs(path)
  {
  }

  /** Adding the scheme and removing it again gives back a scheme-less path. */
  lemma RemoveGsAddGs(path: string)
    requires !HasScheme(path)
    ensures RemoveGs(AddGs(path)) == path
  {
  }

  /** A path with the scheme and the same path without it name the same
      location once normalised, unless the path carries the scheme twice. */
  lemma AddGsRemoveGs(path: string)
    requires !HasScheme(RemoveGs(path))
    ensures AddGs(RemoveGs(path)) == AddGs(path)
  {
  }

  /** `_split_bucket_path` as written: for a scheme-less path without `/`,
      `find` returns -1, so the bucket is `path[:-1]` and the relative path is
      `path[0:]`. */
  function SplitBucketPathAsWritten(path: string): (string, string) {
    var p := RemoveGs(path);
    var i := Find(p, '/');
    if i >= 0 then (p[..i], p[i + 1..])
    else (if |p| == 0 then "" else p[..|p| - 1], p)
  }

  /** As written, a bucket-only path loses the last character of its bucket
      name and repeats the whole name as the relative path. */
  lemma {:induction false} SplitBucketPathAsWrittenTruncates(path: string)
    requires '/' !in RemoveGs(path) && |RemoveGs(path)| > 0
    ensures var (bucket, relative) := SplitBucketPathAsWritten(path);
      && bucket + [RemoveGs(path)[|RemoveGs(path)| - 1]] == RemoveGs(path)
      && relative == RemoveGs(path)
  {
    var p := RemoveGs(path);
    assert p[..|p| - 1] + [p[|p| - 1]] == p;
  }

  /** "gs://mybucket" is split into bucket "mybucke" and relative path "mybucket". */
  lemma {:induction false} SplitBucketPathAsWrittenExample(path: string)
    requires path == "gs://mybucket"
    ensures SplitBucketPathAsWritten(path) == ("mybucke", "mybucket")
  {
    var p := RemoveGs(path);
    assert p == "mybucket";
    assert '/' !in p;
    assert Find(p, '/') == -1;
    assert p[..|p| - 1] == "mybucke";
  }

  /** `_split_bucket_path` with the bucket-only case corrected: the bucket is
      everything before the first `/` of the scheme-less path and the relative
      path everything after it; without a `/` the whole path is the bucket and
      the relative path is empty. */
  function SplitBucketPath(path: string): (parts: (string, string))
    ensures '/' !in parts.0
    ensures '/' in RemoveGs(path) ==> parts.0 + "/" + parts.1 == RemoveGs(path)
    ensures '/' !in RemoveGs(path) ==> parts == (RemoveGs(path), "")
  {
    var p := RemoveGs(path);
    var i := Find(p, '/');
    if i >= 0 then
      assert p == p[..i] + "/" + p[i + 1..];
      (p[..i], p[i + 1..])
    else (p, "")
  }

  /** Both versions agree whenever the path has a `/` after its bucket name. */
  lemma SplitBucketPathAgrees(path: string)
    requires '/' in RemoveGs(path)
    ensures SplitBucketPathAsWritten(path) == SplitBucketPath(path)
  {
  }

  /** Splitting undoes joining a bucket name and a relative path. */
  lemma {:induction false} SplitBucketPathOfJoin(bucket: string, relative: string)
    requires '/' !in bucket
    ensures SplitBucketPath(Scheme + bucket + "/" + relative) == (bucket, relative)
  {
    var p := bucket + "/" + relative;
    var path := Scheme + bucket + "/" + relative;
    assert path == Scheme + p;
    assert HasScheme(path);
    assert RemoveGs(path) == p;
    SplitUnique(p, bucket, relative);
    assert p[..|bucket|] == bucket;
    assert p[|bucket| + 1..] == relative;
  }

  /** A string splits at its first `/` in exactly one way. */
  lemma {:induction false} SplitUnique(p: string, bucket: string, relative: string)
    requires '/' !in bucket && p == bucket + "/" + relative
    ensures Find(p, '/') == |bucket|
  {
    assert p[|bucket|] == '/';
  }

  /** The docstring's example. */
  lemma {:induction false} SplitBucketPathExample(path: string)
    requires path == "gs://mytestbucket/my/test/path"
    ensures SplitBucketPath(path) == ("mytestbucket", "my/test/path")
  {
    var bucket, relative := "mytestbucket", "my/test/path";
    assert path == Scheme + bucket + "/" + relative;
    assert '/' !in bucket;
    SplitBucketPathOfJoin(bucket, relative);
  }

  /** Bucket and blob name a (possibly scheme-less) path refers to. */
  function BlobKey(remotePath: string): (string, string) {
    SplitBucketPath(AddGs(remotePath))
  }

  /** The blob is absent from a bucket that exists: an upload without
      `overwrite` may go there. */
  predicate Vacant(store: Store, key: (string, string)) {
    key.0 in store && Get(store, key.0, key.1).None?
  }

  /** A path that has a `/` beyond the scheme's length keeps one once
      normalised, and normalising drops at most the scheme. */
  lemma {:induction false} NormalisedPath(path: string, pre: string)
    requires pre <= path && |pre| > |Scheme| && pre[|pre| - 1] == '/'
    ensures HasScheme(path) ==> RemoveGs(AddGs(path)) == path[|Scheme|..]
    ensures !HasScheme(path) ==> RemoveGs(AddGs(path)) == path
    ensures '/' in RemoveGs(AddGs(path))
  {
    assert path[|pre| - 1] == '/';
    if HasScheme(path) {
      assert path[|Scheme|..][|pre| - 1 - |Scheme|] == '/';
    } else {
      assert HasScheme(Scheme + path);
      assert (Scheme + path)[|Scheme|..] == path;
    }
  }

  /** Two paths that share a prefix ending in `/` beyond the scheme's length
      name the same blob only when they are the same path. */
  lemma {:induction false} BlobKeyInjective(path1: string, path2: string, pre: string)
    requires pre <= path1 && pre <= path2 && |pre| > |Scheme| && pre[|pre| - 1] == '/'
    ensures BlobKey(path1) == BlobKey(path2) ==> path1 == path2
  {
    NormalisedPath(path1, pre);
    NormalisedPath(path2, pre);
    assert path1[..|Scheme|] == pre[..|Scheme|] == path2[..|Scheme|];
    assert HasScheme(path1) <==> HasScheme(path2);
    var r1, r2 := RemoveGs(AddGs(path1)), RemoveGs(AddGs(path2));
    assert r1 == BlobKey(path1).0 + "/" + BlobKey(path1).1;
    assert r2 == BlobKey(path2).0 + "/" + BlobKey(path2).1;
    if HasScheme(path1) {
      assert path1 == path1[..|Scheme|] + r1;
      assert path2 == path2[..|Scheme|] + r2;
    }
  }

  /** For such paths the split as written addresses the same blob. */
  lemma {:induction false} BlobKeyAsWritten(path: string, pre: string)
    requires pre <= path && |pre| > |Scheme| && pre[|pre| - 1] == '/'
    ensures SplitBucketPathAsWritten(AddGs(path)) == BlobKey(path)
  {
    NormalisedPath(path, pre);
    SplitBucketPathAgrees(AddGs(path));
  }

  /** Two uploads without `overwrite` to different blobs both go through
      exactly when both blobs are vacant beforehand. */
  lemma {:induction false} TwoUploads(store: Store, path1: string, content1: Content, path2: string, content2: Content)
    requires BlobKey(path1) != BlobKey(path2)
    ensures var first := Upload(store, path1, content1, false);
      (first.Success? && Upload(first.value, path2, content2, false).Success?) <==>
      Vacant(store, BlobKey(path1)) && Vacant(store, BlobKey(path2))
  {
    var first := Upload(store, path1, content1, false);
    if first.Success? {
      var key := BlobKey(path2);
      assert Get(first.value, key.0, key.1) == Get(store, key.0, key.1);
    }
  }

  /** `_pre_upload`: the upload target, unless the bucket is missing or the
      blob exists and `overwrite` is false. */
  function PreUpload(store: Store, remotePath: string, overwrite: bool): (r: Result<(string, string), StorageError>)
    ensures r.Success? <==>
      BlobKey(remotePath).0 in store && (overwrite || Get(store, BlobKey(remotePath).0, BlobKey(remotePath).1).None?)
    ensures r.Success? ==> r.value == BlobKey(remotePath)
    ensures r.Failure? && BlobKey(remotePath).0 in store ==> r.error == FileAlreadyExists(AddGs(remotePath))
    ensures r.Failure? && BlobKey(remotePath).0 !in store ==> r.error == BucketNotFound(BlobKey(remotePath).0)
  {
    var (bucket, name) := BlobKey(remotePath);
    if bucket !in store then Failure(BucketNotFound(bucket))
    else if !overwrite && name in store[bucket] then Failure(FileAlreadyExists(AddGs(remotePath)))
    else Success((bucket, name))
  }

  /** `upload_file`, `upload_from_bytes` and `upload_content`: the guard, then
      the write. Only the target blob changes; with `overwrite` false an
      existing blob is never changed. A failure returns no new store. */
  function Upload(store: Store, remotePath: string, content: Content, overwrite: bool): (r: Result<Store, StorageError>)
    ensures r.Success? <==> PreUpload(store, remotePath, overwrite).Success?
    ensures r.Failure? ==> r.error == PreUpload(store, remotePath, overwrite).error
    ensures r.Success? ==> Get(r.value, BlobKey(remotePath).0, BlobKey(remotePath).1) == Some(content)
    ensures r.Success? ==> forall b, n :: (b, n) != BlobKey(remotePath) ==> Get(r.value, b, n) == Get(store, b, n)
    ensures r.Success? && !overwrite ==> forall b, n :: Get(store, b, n).Some? ==> Get(r.value, b, n) == Get(store, b, n)
    ensures r.Success? ==> r.value.Keys == store.Keys
  {
    var (bucket, name) :- PreUpload(store, remotePath, overwrite);
    Success(store[bucket := store[bucket][name := content]])
  }

  /** `file_exists`. */
  function FileExists(store: Store, remotePath: string): (r: Result<bool, StorageError>)
    ensures r.Success? <==> BlobKey(remotePath).0 in store
    ensures r.Success? ==> (r.value <==> Get(store, BlobKey(remotePath).0, BlobKey(remotePath).1).Some?)
  {
    var (bucket, name) := BlobKey(remotePath);
    if bucket !in store then Failure(BucketNotFound(bucket)) else Success(name in store[bucket])
  }

  /** `download_content`: the blob's content passed through `parse`. */
  function DownloadContent<T>(store: Store, remotePath: string, parse: Content -> T): (r: Result<T, StorageError>)
    ensures r.Success? <==> Get(store, BlobKey(remotePath).0, BlobKey(remotePath).1).Some?
    ensures r.Success? ==> r.value == parse(Get(store, BlobKey(remotePath).0, BlobKey(remotePath).1).value)
  {
    var (bucket, name) := BlobKey(remotePath);
    if bucket !in store then Failure(BucketNotFound(bucket))
    else if name !in store[bucket] then Failure(BlobNotFound(AddGs(remotePath)))
    else Success(parse(store[bucket][name]))
  }

  /** The blob-name prefix `list_files` searches under: the relative path with
      a trailing `/` added when it is non-empty and lacks one. */
  function ListingPrefix(relative: string): (prefix: string)
    ensures |relative| == 0 ==> prefix == ""
    ensures |relative| > 0 ==> relative <= prefix && prefix[|prefix| - 1] == '/'
    ensures |relative| > 0 && relative[|relative| - 1] == '/' ==> prefix == relative
    ensures |prefix| <= |relative| + 1
  {
    if |relative| > 0 && relative[|relative| - 1] != '/' then relative + "/" else relative
  }

  /** The part of a blob name up to its first `/`: `object.split("/")[0]`. */
  function FirstComponent(s: string): string {
    SplitOn(s, {'/'})[0]
  }

  /** `list_files`: the distinct first path components of the blobs under the
      listing prefix, with the prefix removed. */
  function ListFiles(store: Store, remotePath: string): (r: Result<set<string>, StorageError>)
    ensures r.Success? <==> BlobKey(remotePath).0 in store
  {
    var (bucket, relative) := BlobKey(remotePath);
    var prefix := ListingPrefix(relative);
    if bucket !in store then Failure(BucketNotFound(bucket))
    else Success(set n | n in store[bucket] && prefix <= n :: FirstComponent(n[|prefix|..]))
  }

  /** The first component is a prefix without `/`, ending where the input
      ends or at a `/`. */
  lemma {:induction false} FirstComponentShape(s: string)
    ensures '/' !in FirstComponent(s)
    ensures FirstComponent(s) <= s
    ensures |FirstComponent(s)| == |s| || s[|FirstComponent(s)|] == '/'
  {
    SplitOnFirstPiece(s, {'/'});
    assert NoneIn(SplitOn(s, {'/'})[0], {'/'});
  }

  /** Every listed item is a single path component, and some blob under the
      prefix continues the prefix with that item, followed by the end of the
      name or a `/`. */
  lemma {:induction false} ListFilesSound(store: Store, remotePath: string, item: string)
    requires ListFiles(store, remotePath).Success?
    requires item in ListFiles(store, remotePath).value
    ensures '/' !in item
    ensures var prefix := ListingPrefix(BlobKey(remotePath).1);
      exists n :: n in store[BlobKey(remotePath).0] && prefix + item <= n &&
        (|n| == |prefix + item| || n[|prefix + item|] == '/')
  {
    var bucket := BlobKey(remotePath).0;
    var prefix := ListingPrefix(BlobKey(remotePath).1);
    var blobs := store[bucket];
    assert ListFiles(store, remotePath).value == set n | n in blobs && prefix <= n :: FirstComponent(n[|prefix|..]);
    var n :| n in blobs && prefix <= n && item == FirstComponent(n[|prefix|..]);
    BlobUnderPrefix(n, prefix);
  }

  /** A blob name under the prefix continues the prefix with its first
      component after the prefix. */
  lemma {:induction false} BlobUnderPrefix(n: string, prefix: string)
    requires prefix <= n
    ensures var item := FirstComponent(n[|prefix|..]);
      '/' !in item && prefix + item <= n && (|n| == |prefix + item| || n[|prefix + item|] == '/')
  {
    var rest := n[|prefix|..];
    FirstComponentShape(rest);
    assert n == prefix + rest;
  }

  /** Every blob under the prefix shows up through the item naming its first
      path component after the prefix. */
  lemma {:induction false} ListFilesComplete(store: Store, remotePath: string, name: string)
    requires ListFiles(store, remotePath).Success?
    requires name in store[BlobKey(remotePath).0] && ListingPrefix(BlobKey(remotePath).1) <= name
    ensures var prefix := ListingPrefix(BlobKey(remotePath).1);
      exists item :: item in ListFiles(store, remotePath).value && prefix + item <= name &&
        (|name| == |prefix + item| || name[|prefix + item|] == '/')
  {
    var prefix := ListingPrefix(BlobKey(remotePath).1);
    var item := FirstComponent(name[|prefix|..]);
    BlobUnderPrefix(name, prefix);
    assert item in ListFiles(store, remotePath).value;
  }
}
