/**
 * The object-store service (app/services/file_storage_service.py): derivation of
 * the object key and of the ASCII-safe original filename on upload, the error
 * behaviour of upload, presign and download, and the listing of stored videos.
 *
 * The S3 client is not modelled: every call into it is an input (`Call<T>`),
 * as are the uuid4 hex string and the objects' modification times.
 */
module FileStorageService {
  import opened Outcomes
  import opened AsciiText
  import opened Sorting

  // ---------------------------------------------------------------------------
  // Object key
  // ---------------------------------------------------------------------------

  /** The longest suffix of s that holds no '.'; all of s when s has no '.'. */
  function AfterLastDot(s: string): (r: string)
    ensures '.' !in r
    ensures EndsWith(s, r)
    ensures |r| < |s| ==> s[|s| - |r| - 1] == '.'
    decreases |s|
  {
    if s == [] || s[|s| - 1] == '.' then ""
    else
      var init := s[..|s| - 1];
      var r0 := AfterLastDot(init);
      assert s[|s| - |r0| - 1..] == init[|init| - |r0|..] + [s[|s| - 1]];
      r0 + [s[|s| - 1]]
  }

  /**
   * `filename.split('.')[-1] if '.' in filename else ''`: the text after the
   * last '.', empty when there is no '.' or the name ends in '.'.
   */
  function Extension(filename: string): (ext: string)
    ensures '.' !in ext
    ensures '.' !in filename ==> ext == ""
    ensures '.' in filename ==> |ext| < |filename| && EndsWith(filename, "." + ext)
  {
    if '.' in filename then
      var ext := AfterLastDot(filename);
      assert filename[|filename| - |ext| - 1..] == [filename[|filename| - |ext| - 1]] + filename[|filename| - |ext|..];
      ext
    else ""
  }

  /** Splitting at the last '.' is the only decomposition `pre + "." + e` with no '.' in e. */
  lemma ExtensionOfDecomposition(pre: string, e: string)
    requires '.' !in e
    ensures Extension(pre + "." + e) == e
  {
    var x := pre + "." + e;
    assert x[|pre|] == '.';
    assert EndsWith(x, e);
  }

  /**
   * `f"{prefix}{file_uuid}.{extension}" if extension else f"{prefix}{file_uuid}"`.
   * The key is the prefix, the uuid, and then a tail that is either empty or the
   * filename's own last '.'-led suffix.
   */
  function UniqueKey(prefix: string, filename: string, uuidHex: string): (key: string)
    ensures StartsWith(key, prefix + uuidHex)
    ensures EndsWith(filename, key[|prefix + uuidHex|..])
    ensures key[|prefix + uuidHex|..] == "" <==> ('.' !in filename || filename[|filename| - 1] == '.')
    ensures key[|prefix + uuidHex|..] != "" ==>
              key[|prefix + uuidHex|] == '.' && '.' !in key[|prefix + uuidHex| + 1..]
  {
    var ext := Extension(filename);
    var key := if ext != "" then prefix + uuidHex + "." + ext else prefix + uuidHex;
    assert key[..|prefix + uuidHex|] == prefix + uuidHex;
    assert ext != "" ==> key[|prefix + uuidHex|..] == "." + ext;
    assert ext != "" ==> key[|prefix + uuidHex| + 1..] == ext;
    assert ('.' in filename && ext == "") ==> filename[|filename| - 1] == '.';
    assert ('.' in filename && ext != "") ==> filename[|filename| - 1] == ext[|ext| - 1];
    key
  }

  /**
   * Two uploads with different uuids of the same length never share a key,
   * whatever the two filenames are: the "prevent overwrites" intent of the key.
   */
  lemma KeysDistinct(prefix: string, filename1: string, filename2: string, uuid1: string, uuid2: string)
    requires |uuid1| == |uuid2| && uuid1 != uuid2
    ensures UniqueKey(prefix, filename1, uuid1) != UniqueKey(prefix, filename2, uuid2)
  {
    var k1, k2 := UniqueKey(prefix, filename1, uuid1), UniqueKey(prefix, filename2, uuid2);
    assert k1[|prefix|..|prefix| + |uuid1|] == (prefix + uuid1)[|prefix|..] == uuid1;
    assert k2[|prefix|..|prefix| + |uuid2|] == (prefix + uuid2)[|prefix|..] == uuid2;
  }

  /** The key keeps the original extension, so it is recovered from the key alone. */
  lemma ExtensionPreserved(prefix: string, filename: string, uuidHex: string)
    requires Extension(filename) != ""
    ensures Extension(UniqueKey(prefix, filename, uuidHex)) == Extension(filename)
  {
    ExtensionOfDecomposition(prefix + uuidHex, Extension(filename));
  }

  // ---------------------------------------------------------------------------
  // ASCII-safe original filename
  // ---------------------------------------------------------------------------

  /** a is obtained from b by deleting characters. */
  predicate IsSubsequence(a: string, b: string)
    decreases |a| + |b|
  {
    if a == [] then true
    else if b == [] then false
    else if a[0] == b[0] then IsSubsequence(a[1..], b[1..])
    else IsSubsequence(a, b[1..])
  }

  /** `s.encode('ascii', 'ignore').decode()`: s with every non-ASCII character removed. */
  function AsciiOnly(s: string): (r: string)
    ensures AllAscii(r)
    ensures IsSubsequence(r, s)
    ensures forall c :: IsAscii(c) ==> multiset(r)[c] == multiset(s)[c]
  {
    if s == [] then ""
    else
      assert s == [s[0]] + s[1..];
      var rest := AsciiOnly(s[1..]);
      if IsAscii(s[0]) then
        assert ([s[0]] + rest)[1..] == rest;
        [s[0]] + rest
      else rest
  }

  /** The ASCII-safe filename stored as the object's "original-filename" metadata. */
  function SafeFilename(filename: string): (r: string)
    ensures r != "" && AllAscii(r)
    ensures (exists i :: 0 <= i < |filename| && IsAscii(filename[i])) ==>
              IsSubsequence(r, filename) &&
              forall c :: IsAscii(c) ==> multiset(r)[c] == multiset(filename)[c]
    ensures !(exists i :: 0 <= i < |filename| && IsAscii(filename[i])) ==> r == "unknown_video"
  {
    var a := AsciiOnly(filename);
    if a != "" then
      assert a[0] in multiset(a);
      assert a[0] in multiset(filename);
      a
    else
      assert forall i :: 0 <= i < |filename| && IsAscii(filename[i]) ==> filename[i] in multiset(filename);
      "unknown_video"
  }

  lemma {:induction false} AsciiOnlyOfAscii(s: string)
    requires AllAscii(s)
    ensures AsciiOnly(s) == s
  {
    if s != [] {
      AsciiOnlyOfAscii(s[1..]);
      assert s == [s[0]] + s[1..];
    }
  }

  /** A non-empty all-ASCII filename is stored unchanged. */
  lemma SafeFilenameOfAscii(filename: string)
    requires filename != "" && AllAscii(filename)
    ensures SafeFilename(filename) == filename
  {
    AsciiOnlyOfAscii(filename);
  }

  /** Sanitising twice gives the same as sanitising once. */
  lemma SafeFilenameIdempotent(filename: string)
    ensures SafeFilename(SafeFilename(filename)) == SafeFilename(filename)
  {
    SafeFilenameOfAscii(SafeFilename(filename));
  }

  // ---------------------------------------------------------------------------
  // Upload, presign, download
  // ---------------------------------------------------------------------------

  /** What upload_fileobj is asked to store: the key, the content type and the metadata. */
  datatype PutObjectRequest = PutObjectRequest(key: string, contentType: string, originalFilename: string)

  const UploadFailure := "Failed to upload video to storage"
  const DownloadFailure := "Failed to download file from storage"

  /**
   * upload_file: the S3 client is the function `put`, applied to the request the
   * service builds. A successful put returns the generated key; a ClientError
   * becomes the fixed upload failure; any other exception propagates.
   */
  function UploadFile(prefix: string, filename: string, contentType: string, uuidHex: string,
                      put: PutObjectRequest -> Call<()>): (r: Result<string, string>)
    ensures var req := PutObjectRequest(UniqueKey(prefix, filename, uuidHex), contentType, SafeFilename(filename));
      && (r.Ok? <==> put(req).Returned?)
      && (r.Ok? ==> r.value == UniqueKey(prefix, filename, uuidHex))
      && (put(req).ClientError? ==> r == Err(UploadFailure))
      && (put(req).OtherError? ==> r == Err(put(req).detail))
  {
    var key := UniqueKey(prefix, filename, uuidHex);
    var safeFilename := SafeFilename(filename);
    match put(PutObjectRequest(key, contentType, safeFilename))
    case Returned(_) => Ok(key)
    case ClientError(_) => Err(UploadFailure)
    case OtherError(detail) => Err(detail)
  }

  /**
   * get_presigned_url: a ClientError is swallowed and yields the empty URL; any
   * other exception propagates.
   */
  function GetPresignedUrl(objectKey: string, expirationSeconds: int, presign: Call<string>): (r: Result<string, string>)
    ensures presign.Returned? ==> r == Ok(presign.value)
    ensures presign.ClientError? ==> r == Ok("")
    ensures presign.OtherError? ==> r == Err(presign.detail)
    ensures r.Err? <==> presign.OtherError?
  {
    match presign
    case Returned(url) => Ok(url)
    case ClientError(_) => Ok("")
    case OtherError(detail) => Err(detail)
  }

  /** download_file: returns the local path on success, raises on any failure. */
  function DownloadFile(objectKey: string, downloadPath: string, get: Call<()>): (r: Result<string, string>)
    ensures r.Ok? <==> get.Returned?
    ensures r.Ok? ==> r.value == downloadPath
    ensures get.ClientError? ==> r == Err(DownloadFailure)
    ensures get.OtherError? ==> r == Err(get.detail)
  {
    match get
    case Returned(_) => Ok(downloadPath)
    case ClientError(_) => Err(DownloadFailure)
    case OtherError(detail) => Err(detail)
  }

  // ---------------------------------------------------------------------------
  // Listing
  // ---------------------------------------------------------------------------

  /**
   * One entry of list_objects_v2's `Contents`, with the answers of the two calls
   * the service makes about it: head_object (its `Metadata`, `{}` when absent)
   * and generate_presigned_url. `lastModified` stands for the ISO-8601 text of
   * the modification time, whose order it preserves.
   */
  datatype ListedObject = ListedObject(
    key: string, size: nat, lastModified: int,
    head: Call<map<string, string>>, presign: Call<string>)

  /** The dict built for each listed object. */
  datatype VideoRecord = VideoRecord(
    videoId: string, originalFilename: string, sizeBytes: nat, uploadedAt: int, url: string)

  const ListFailure := "Failed to retrieve videos from storage"

  function UploadedAt(v: VideoRecord): int {
    v.uploadedAt
  }

  /** `metadata.get('original-filename', key)` */
  function OriginalName(key: string, metadata: map<string, string>): (name: string)
    ensures "original-filename" in metadata ==> name == metadata["original-filename"]
    ensures "original-filename" !in metadata ==> name == key
  {
    if "original-filename" in metadata then metadata["original-filename"] else key
  }

  /** The body of the listing loop for one object. */
  function RecordOf(o: ListedObject): (r: Result<VideoRecord, string>)
    ensures r.Ok? <==> o.head.Returned? && !o.presign.OtherError?
    ensures o.head.ClientError? ==> r == Err(ListFailure)
    ensures o.head.OtherError? ==> r == Err(o.head.detail)
    ensures o.head.Returned? && o.presign.OtherError? ==> r == Err(o.presign.detail)
  {
    match o.head
    case ClientError(_) => Err(ListFailure)
    case OtherError(detail) => Err(detail)
    case Returned(metadata) =>
      match GetPresignedUrl(o.key, 3600, o.presign)
      case Err(e) => Err(e)
      case Ok(url) => Ok(VideoRecord(o.key, OriginalName(o.key, metadata), o.size, o.lastModified, url))
  }

  /** The loop over `Contents`, in order, stopping at the first failing object. */
  function RecordsOf(objs: seq<ListedObject>): (r: Result<seq<VideoRecord>, string>)
    ensures r.Ok? ==> |r.value| == |objs|
  {
    if objs == [] then Ok([])
    else
      match RecordsOf(objs[..|objs| - 1])
      case Err(e) => Err(e)
      case Ok(videos) =>
        match RecordOf(objs[|objs| - 1])
        case Err(e) => Err(e)
        case Ok(v) => Ok(videos + [v])
  }

  /** The whole of list_videos as a function of the client's answers. */
  function Listing(listing: Call<Option<seq<ListedObject>>>): (r: Result<seq<VideoRecord>, string>)
    ensures listing.ClientError? ==> r == Err(ListFailure)
    ensures listing.OtherError? ==> r == Err(listing.detail)
    ensures listing == Returned(None) ==> r == Ok([])
    ensures r.Ok? ==> SortedDesc(r.value, UploadedAt)
    ensures listing.Returned? && listing.value.Some? ==>
              (r.Ok? <==> RecordsOf(listing.value.value).Ok?) &&
              (r.Ok? ==> multiset(r.value) == multiset(RecordsOf(listing.value.value).value))
  {
    match listing
    case ClientError(_) => Err(ListFailure)
    case OtherError(detail) => Err(detail)
    case Returned(None) => Ok([])
    case Returned(Some(objs)) =>
      match RecordsOf(objs)
      case Err(e) => Err(e)
      case Ok(videos) =>
        SortDescSorted(videos, UploadedAt);
        Ok(SortDesc(videos, UploadedAt))
  }

  /**
   * The loop succeeds exactly when every object's calls do; it then yields one
   * record per object, in order, with the key as video id and the metadata
   * filename or else the key; otherwise it fails with the first object's failure.
   */
  lemma {:induction false} RecordsOfSpec(objs: seq<ListedObject>)
    ensures RecordsOf(objs).Ok? <==> forall i :: 0 <= i < |objs| ==> RecordOf(objs[i]).Ok?
    ensures RecordsOf(objs).Ok? ==>
              |RecordsOf(objs).value| == |objs| &&
              forall i :: 0 <= i < |objs| ==> RecordsOf(objs).value[i] == RecordOf(objs[i]).value
    ensures RecordsOf(objs).Err? ==>
              exists i :: 0 <= i < |objs| && RecordOf(objs[i]).Err? &&
                          RecordsOf(objs).error == RecordOf(objs[i]).error &&
                          forall j :: 0 <= j < i ==> RecordOf(objs[j]).Ok?
  {
    if objs != [] {
      var init := objs[..|objs| - 1];
      RecordsOfSpec(init);
      assert forall i :: 0 <= i < |init| ==> init[i] == objs[i];
    }
  }

  /** Each successful record carries the object's key, size, time and recovered filename. */
  lemma RecordOfFields(o: ListedObject)
    requires RecordOf(o).Ok?
    ensures o.head.Returned?
    ensures RecordOf(o).value.videoId == o.key
    ensures RecordOf(o).value.originalFilename == OriginalName(o.key, o.head.value)
    ensures RecordOf(o).value.sizeBytes == o.size && RecordOf(o).value.uploadedAt == o.lastModified
    ensures RecordOf(o).value.url == GetPresignedUrl(o.key, 3600, o.presign).value
    ensures o.presign.ClientError? ==> RecordOf(o).value.url == ""
  {
  }

  /**
   * list_videos: the loop appends one record per object, then the records are
   * sorted by upload time, newest first.
   */
  method ListVideos(listing: Call<Option<seq<ListedObject>>>) returns (r: Result<seq<VideoRecord>, string>)
    ensures r == Listing(listing)
    ensures listing.ClientError? ==> r == Err(ListFailure)
    ensures listing == Returned(None) ==> r == Ok([])
    ensures r.Ok? ==> SortedDesc(r.value, UploadedAt)
    ensures listing.Returned? && listing.value.Some? ==>
              (r.Ok? <==> RecordsOf(listing.value.value).Ok?) &&
              (r.Ok? ==> multiset(r.value) == multiset(RecordsOf(listing.value.value).value) &&
                         |r.value| == |listing.value.value|)
  {
    match listing {
      case ClientError(_) =>
        return Err(ListFailure);
      case OtherError(detail) =>
        return Err(detail);
      case Returned(contents) =>
        var videos: seq<VideoRecord> := [];
        if contents.Some? {
          var objs := contents.value;
          var i := 0;
          while i < |objs|
            invariant 0 <= i <= |objs|
            invariant RecordsOf(objs[..i]) == Ok(videos)
          {
            assert objs[..i + 1][..i] == objs[..i];
            var v := RecordOf(objs[i]);
            if v.Err? {
              RecordsOfSpec(objs);
              RecordsOfSpec(objs[..i + 1]);
              return Err(v.error);
            }
            videos := videos + [v.value];
            i := i + 1;
          }
          assert objs[..i] == objs;
          RecordsOfSpec(objs);
        }
        SortDescSorted(videos, UploadedAt);
        return Ok(SortDesc(videos, UploadedAt));
    }
  }
}
