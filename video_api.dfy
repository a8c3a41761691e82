/**
 * The video endpoints (app/api/video.py): listing, upload with content-type
 * validation, and the mock search. Both storage-backed endpoints go through the
 * prefix-less StorageService, whose S3 answers are parameters here.
 */
module VideoApi {
  import opened Outcomes
  import opened AsciiText
  import FS = FileStorageService
  import Storage = StorageService

  /**
   * How a request fails: an HTTPException with its status code and detail, or
   * an exception the endpoint does not handle, which the framework turns into
   * a bare 500 response.
   */
  datatype HttpError =
    | HttpError(statusCode: int, detail: string)
    | UnhandledException(name: string)

  datatype VideosResponse = VideosResponse(status: string, count: nat, videos: seq<FS.VideoRecord>)

  datatype UploadResponse = UploadResponse(status: string, message: string, videoId: string, originalFilename: string)

  datatype SearchMatch = SearchMatch(timestamp: string, confidenceScore: real)

  datatype SearchResponse = SearchResponse(
    status: string, videoId: string, character: string, query: string, matches: seq<SearchMatch>)

  const NotAVideo := "File must be a video."

  const MockMatches := [SearchMatch("00:15:23", 0.98), SearchMatch("00:21:05", 0.92)]

  /**
   * GET /videos/: the listing with its length as `count`; any exception from the
   * storage service becomes a 500 carrying its text.
   */
  function GetVideos(listing: Call<Option<seq<FS.ListedObject>>>): (r: Result<VideosResponse, HttpError>)
    ensures r.Ok? <==> FS.Listing(listing).Ok?
    ensures r.Ok? ==> r.value.status == "success" && r.value.videos == FS.Listing(listing).value
    ensures r.Ok? ==> r.value.count == |r.value.videos|
    ensures r.Err? ==> r.error == HttpError(500, FS.Listing(listing).error)
  {
    match FS.Listing(listing)
    case Ok(videos) => Ok(VideosResponse("success", |videos|, videos))
    case Err(e) => Err(HttpError(500, e))
  }

  /**
   * POST /videos/upload: a part without a Content-Type (`content_type` None)
   * fails the check itself with an unhandled AttributeError; a content type that
   * does not start with "video/" is a 400; otherwise the file is stored and the
   * answer names the object key as `video_id`, or the storage exception becomes
   * a 500.
   */
  function UploadVideo(contentType: Option<string>, filename: string, uuidHex: string,
                       put: FS.PutObjectRequest -> Call<()>): (r: Result<UploadResponse, HttpError>)
    ensures contentType.None? ==> r == Err(UnhandledException("AttributeError"))
    ensures contentType.Some? && !StartsWith(contentType.value, "video/") ==> r == Err(HttpError(400, NotAVideo))
    ensures contentType.Some? && StartsWith(contentType.value, "video/") ==>
              && (r.Ok? <==> Storage.UploadFile(filename, contentType.value, uuidHex, put).Ok?)
              && (r.Err? ==> r.error == HttpError(500, Storage.UploadFile(filename, contentType.value, uuidHex, put).error))
    ensures r.Ok? ==> r.value.videoId == Storage.UniqueKey(filename, uuidHex) && r.value.originalFilename == filename
  {
    match contentType
    case None => Err(UnhandledException("AttributeError"))
    case Some(ct) =>
      if !StartsWith(ct, "video/") then Err(HttpError(400, NotAVideo))
      else
        match Storage.UploadFile(filename, ct, uuidHex, put)
        case Ok(objectKey) => Ok(UploadResponse("success", "Video uploaded successfully", objectKey, filename))
        case Err(e) => Err(HttpError(500, e))
  }

  /** A rejected upload never reaches storage: its answer does not depend on the client. */
  lemma RejectedUploadIgnoresStorage(contentType: Option<string>, filename: string, uuidHex: string,
                                     put1: FS.PutObjectRequest -> Call<()>, put2: FS.PutObjectRequest -> Call<()>)
    requires contentType.None? || !StartsWith(contentType.value, "video/")
    ensures UploadVideo(contentType, filename, uuidHex, put1) == UploadVideo(contentType, filename, uuidHex, put2)
  {
  }

  /**
   * GET /videos/search: the two fixed matches exactly when the query is
   * "drinking" and the character "rick", ignoring case; no match otherwise.
   * Both answers echo the request.
   */
  function SearchVideo(query: string, characterName: string, videoId: string): (r: SearchResponse)
    ensures r.status == "success" && r.videoId == videoId && r.character == characterName && r.query == query
    ensures r.matches != [] <==> Lower(query) == "drinking" && Lower(characterName) == "rick"
    ensures r.matches != [] ==> r.matches == MockMatches
  {
    if Lower(query) == "drinking" && Lower(characterName) == "rick" then
      SearchResponse("success", videoId, characterName, query, MockMatches)
    else
      SearchResponse("success", videoId, characterName, query, [])
  }

  /** Any casing of both words finds the matches: "DRINKING" by "Rick" does. */
  lemma SearchMatchesAnyCasing(query: string, characterName: string, videoId: string)
    requires Upper(query) == "DRINKING" && Upper(characterName) == "RICK"
    ensures SearchVideo(query, characterName, videoId).matches == MockMatches
  {
    LowerOfUpper(query);
    LowerOfUpper(characterName);
    assert Lower("DRINKING") == "drinking";
    assert Lower("RICK") == "rick";
  }
}
