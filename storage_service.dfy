/**
 * The prefix-less object-store service (app/services/storage.py), the one the
 * video endpoints use. Its key and filename derivation, presign and listing are
 * those of FileStorageService with an empty prefix.
 */
module StorageService {
  import opened Outcomes
  import opened AsciiText
  import opened Sorting
  import FS = FileStorageService

  /**
   * `f"{uuid}.{extension}" if extension else uuid`: the uuid, then nothing or
   * the filename's last '.'-led suffix; no prefix is ever added.
   */
  function UniqueKey(filename: string, uuidHex: string): (key: string)
    ensures StartsWith(key, uuidHex)
    ensures FS.Extension(filename) != "" ==> key == uuidHex + "." + FS.Extension(filename)
    ensures FS.Extension(filename) == "" ==> key == uuidHex
  {
    assert "" + uuidHex == uuidHex;
    FS.UniqueKey("", filename, uuidHex)
  }

  /**
   * upload_file: success returns exactly the generated key, a ClientError
   * becomes "Failed to upload video to storage", other exceptions propagate.
   * The stored metadata is the ASCII-safe filename.
   */
  function UploadFile(filename: string, contentType: string, uuidHex: string,
                      put: FS.PutObjectRequest -> Call<()>): (r: Result<string, string>)
    ensures var req := FS.PutObjectRequest(UniqueKey(filename, uuidHex), contentType, FS.SafeFilename(filename));
      && (r.Ok? <==> put(req).Returned?)
      && (r.Ok? ==> r.value == UniqueKey(filename, uuidHex))
      && (put(req).ClientError? ==> r == Err(FS.UploadFailure))
      && (put(req).OtherError? ==> r == Err(put(req).detail))
  {
    FS.UploadFile("", filename, contentType, uuidHex, put)
  }

  /** get_presigned_url: a ClientError yields "" instead of raising. */
  function GetPresignedUrl(objectKey: string, expirationSeconds: int, presign: Call<string>): (r: Result<string, string>)
    ensures presign.Returned? ==> r == Ok(presign.value)
    ensures presign.ClientError? ==> r == Ok("")
    ensures presign.OtherError? ==> r == Err(presign.detail)
    ensures r.Err? <==> presign.OtherError?
  {
    FS.GetPresignedUrl(objectKey, expirationSeconds, presign)
  }

  /** list_videos: one record per object, newest first; empty without `Contents`. */
  method ListVideos(listing: Call<Option<seq<FS.ListedObject>>>) returns (r: Result<seq<FS.VideoRecord>, string>)
    ensures r == FS.Listing(listing)
    ensures listing.ClientError? ==> r == Err(FS.ListFailure)
    ensures listing == Returned(None) ==> r == Ok([])
    ensures r.Ok? ==> SortedDesc(r.value, FS.UploadedAt)
    ensures listing.Returned? && listing.value.Some? ==>
              (r.Ok? <==> FS.RecordsOf(listing.value.value).Ok?) &&
              (r.Ok? ==> multiset(r.value) == multiset(FS.RecordsOf(listing.value.value).value) &&
                         |r.value| == |listing.value.value|)
  {
    r := FS.ListVideos(listing);
  }
}
