# Moment Finder backend: a Dafny model of its deterministic core

The Moment Finder backend lets a client upload videos and character screenshots. It keeps the files in an
S3-compatible object store and keeps video, screenshot and moment records in a relational database. It also
chooses an AI engine that will search the videos for moments where a character appears. Most of the code
is plumbing around S3, SQLAlchemy, the Gemini SDK and Celery. This project models the logic in it that is
deterministic:

- **Object store** (`app/services/file_storage_service.py`, `app/services/storage.py`). How an upload
  derives its object key as prefix + uuid + "." + extension. How it derives the ASCII-only filename it
  stores as metadata. How upload, presign and download fail. How the listing builds one record per stored
  object and sorts the records newest first.
- **Engine registry** (`app/services/ai/factory.py`). The configured name is dispatched on without regard
  to case. The result is the Gemini engine or an error; there is no default engine.
- **Metadata store** (the three model files and the two metadata services). Three tables keyed by id. They
  carry the unique `storage_key`, the required references, the column defaults (`status` PENDING,
  `is_processed` false) and the cascade from a video to its screenshots and moments. Every insert and
  delete is one transaction: it commits, or it rolls back and leaves the tables unchanged. The services
  are classes that hold the database. Saving inserts exactly one row. Listing returns the rows newest
  first.
- **Video endpoints** (`app/api/video.py`). An upload must have a `video/` content type. The listing's
  `count` is the number of videos. The mock search answers a case-insensitive "drinking"/"rick" query.

These are inputs rather than modelled code: the S3 client's answers (`Outcomes.Call`, which
distinguishes botocore's `ClientError` from other exceptions), `uuid.uuid4().hex`, the clock, database
faults, and the `ACTIVE_AI_ENGINE` and `GEMINI_API_KEY` settings (an empty key stands for an unset one).
The `Settings` class as shown (`app/core/config.py:3-13`) declares neither of these two settings; the
model takes both as inputs, although the program as shown never declares them. Python's `str.lower`/`str.upper` are modelled as ASCII case
mapping. ISO-8601 times are integers that keep their order. Float columns are `real` and are never
computed on.

`storage.py` and `file_storage_service.py` repeat the same naming, presign and listing code; the only
difference is that `storage.py` never adds a prefix. The model defines that code once, in
`FileStorageService`. `StorageService` uses it with an empty prefix, and its own contracts state the
prefix-less shape. `KeysDistinct` therefore covers both services' keys (`storage.py:27` is
`UniqueKey("", …)`).

`app/services/video_metadata_service.py:3` imports `app.models.video`, which is not part of this model.
Its `Video` record is taken to be the `VideoMetadata` record of `app/models/video_metadata.py:16-33`.
`app/models/moment.py:17-18` still names the tables `videos` and `video_screenshots`, which a migration
renamed to `video_metadata` and `character_screenshot_metadata`. The model uses the intended references:
a moment refers to a row of `video_metadata` and to a row of `character_screenshot_metadata`.

## Model

| member | source | states |
|---|---|---|
| FileStorageService.AfterLastDot | app/services/file_storage_service.py:27 | the result is the longest dot-free suffix of the name: it has no '.', the name ends with it, and the character before it is a '.' |
| FileStorageService.Extension | app/services/file_storage_service.py:27 | the extension holds no '.'; it is empty when the name has no '.'; otherwise the name ends with "." + extension |
| FileStorageService.ExtensionOfDecomposition | app/services/file_storage_service.py:27 | for any name pre + "." + e where e has no '.', the extension is exactly e (splitting at the last dot is the only such decomposition) |
| FileStorageService.UniqueKey | app/services/file_storage_service.py:26-29 | the key starts with prefix + uuid; the rest is empty exactly when the filename has no '.' or ends in '.'; otherwise the rest is a '.' followed by dot-free text that ends the filename |
| FileStorageService.KeysDistinct | app/services/file_storage_service.py:26-29 | two different uuids of the same length always give different keys, whatever the two filenames are (no overwrite) |
| FileStorageService.ExtensionPreserved | app/services/file_storage_service.py:27-29 | when the filename has an extension, the key has the same extension |
| FileStorageService.AsciiOnly | app/services/file_storage_service.py:34 | `encode('ascii','ignore')` keeps only ASCII characters, in their original order, and keeps every ASCII character the same number of times |
| FileStorageService.SafeFilename | app/services/file_storage_service.py:34 | the stored filename is non-empty and ASCII-only; if the name has an ASCII character, it is the name's ASCII characters in order; otherwise it is "unknown_video" |
| FileStorageService.AsciiOnlyOfAscii | app/services/file_storage_service.py:34 | removing non-ASCII characters from an all-ASCII string changes nothing |
| FileStorageService.SafeFilenameOfAscii | app/services/file_storage_service.py:34 | a non-empty all-ASCII filename is stored unchanged |
| FileStorageService.SafeFilenameIdempotent | app/services/file_storage_service.py:34 | sanitising twice gives the same as sanitising once |
| FileStorageService.UploadFile | app/services/file_storage_service.py:21-48 | the client is asked to store the generated key with the safe filename as metadata; success returns exactly that key; a ClientError raises "Failed to upload video to storage"; other exceptions propagate |
| FileStorageService.GetPresignedUrl | app/services/file_storage_service.py:50-62 | the client's URL is returned; a ClientError yields "" instead of raising; only other exceptions raise |
| FileStorageService.DownloadFile | app/services/file_storage_service.py:64-74 | success returns the download path; a ClientError raises "Failed to download file from storage"; other exceptions propagate |
| FileStorageService.OriginalName | app/services/file_storage_service.py:94 | the filename is the metadata's "original-filename" when present, and the object key otherwise |
| FileStorageService.RecordOf | app/services/file_storage_service.py:86-104 | one object gives a record exactly when its `head_object` returns and its presign does not raise a non-ClientError; a `head_object` ClientError becomes "Failed to retrieve videos from storage", any other exception propagates |
| FileStorageService.RecordsOf | app/services/file_storage_service.py:83-104 | a successful loop gives exactly one record per listed object |
| FileStorageService.Listing | app/services/file_storage_service.py:76-110 | a listing ClientError raises the fixed message, no `Contents` gives the empty list, and otherwise the loop's records come back sorted newest first, as a permutation; the listing fails exactly when the loop does |
| FileStorageService.RecordsOfSpec | app/services/file_storage_service.py:83-104 | the loop succeeds exactly when every object's calls succeed, and then gives one record per object in order; otherwise it fails with the first failing object's error |
| FileStorageService.RecordOfFields | app/services/file_storage_service.py:86-104 | a record has the object's key as `video_id`, its size and time, the metadata "original-filename" or else the key, and the presigned URL, which is "" when presigning hit a ClientError |
| FileStorageService.ListVideos | app/services/file_storage_service.py:76-110 | the loop computes the listing function; with no `Contents` the list is empty; a listing ClientError raises the fixed message; the result is sorted newest first and is a permutation of the per-object records, one per object |
| StorageService.UniqueKey | app/services/storage.py:25-27 | the key starts with the uuid; it is uuid + "." + extension when there is an extension, else the bare uuid; no prefix is ever added |
| StorageService.UploadFile | app/services/storage.py:21-46 | success returns exactly the generated key; a ClientError raises "Failed to upload video to storage"; other exceptions propagate |
| StorageService.GetPresignedUrl | app/services/storage.py:48-60 | the client's URL is returned; a presign ClientError returns "" rather than raising; only other exceptions raise, with their own message |
| StorageService.ListVideos | app/services/storage.py:62-97 | one record per object, sorted newest first and a permutation of the per-object records; empty without `Contents`; a ClientError raises the fixed message |
| Sorting.SortDesc | app/services/file_storage_service.py:106 | the sorted list has the same elements with the same multiplicities, so it has the same length |
| Sorting.SortDescSorted | app/services/file_storage_service.py:106 | the sorted list is ordered by the key, largest (newest) first |
| AiFactory.NewGeminiEngine | app/services/ai/gemini_engine.py:31-33 | the engine is constructed exactly when the API key is set; otherwise it raises ValueError "GEMINI_API_KEY is not set in the environment variables." |
| AiFactory.GetAiEngine | app/services/ai/factory.py:7-27 | the name GEMINI in any case gives the Gemini engine when the API key is set, and raises the missing-key ValueError when it is not; only that name can succeed; VECTOR raises not-implemented; any other name raises "Unsupported AI Engine: " + the upper-cased name |
| AiFactory.DispatchIgnoresCase | app/services/ai/factory.py:12-14 | two names that agree once lower-cased get the same answer |
| AiFactory.SucceedsExactlyForGemini | app/services/ai/factory.py:12-27 | an engine is returned exactly when the lower-cased name is "gemini" and the API key is set; there is no default |
| AsciiText.Lower | app/api/video.py:52 | lower-casing keeps the length, leaves no upper-case letter, and changes only upper-case letters, each into the letter that upper-cases back to it |
| AsciiText.Upper | app/services/ai/factory.py:12 | upper-casing keeps the length, leaves no lower-case letter, and changes only lower-case letters, each into the letter that lower-cases back to it |
| VideoMetadataModel.NewVideoMetadata | app/models/video_metadata.py:20-33 | a new row carries the given filename, storage key and status, and status PENDING when none is given (the column default); `duration_seconds` and `error_message` are empty; `created_at` and `updated_at` are the current time |
| ScreenshotModel.NewScreenshot | app/services/character_screenshot_metadata_service.py:18-23 | a new row carries the given video, character, storage key as `screenshot_url` and time stamp; it is not processed and has no vector id |
| VideoMetadataService.ToVideoDict | app/services/video_metadata_service.py:51-58 | the dict carries the row's id, filename, duration, storage key and creation time, and a status string that converts back to the row's status |
| VideoMetadataModel.StatusFromValue | app/models/video_metadata.py:9-14 | a status value is found exactly for the five strings PENDING, EXTRACTING, ANALYZING, COMPLETED, FAILED |
| VideoMetadataModel.StatusValueRoundTrip | app/models/video_metadata.py:9-14 | a status and its string value convert into each other, in both directions |
| MetadataDb.InsertVideo | app/models/video_metadata.py:20-28 | a video insert commits exactly when the database does not fail and neither the id nor the `storage_key` is already used; it adds that one row; it keeps the table invariants |
| MetadataDb.InsertScreenshot | app/models/character_screenshot_metadata.py:14-17 | a screenshot insert commits exactly when the id is new and its video exists; a missing video is a foreign-key error; it adds that one row; it keeps the invariants |
| MetadataDb.InsertMoment | app/models/moment.py:14-18 | a moment insert commits exactly when the id is new and its video and its screenshot exist; it adds that one row; it keeps the invariants |
| MetadataDb.DeleteVideo | app/models/video_metadata.py:37-38 | deleting a video removes it, every screenshot of it and every moment of it, and nothing else; it fails only on a database fault or when another video's moment refers to one of its screenshots; it keeps the invariants |
| MetadataDb.DeleteLeavesNoOrphans | app/models/video_metadata.py:37-38 | after the delete, no screenshot or moment refers to the deleted video |
| MetadataDb.Database.AddVideo | app/services/video_metadata_service.py:26-27 | add and commit; on failure the rollback leaves all three tables unchanged; the invariants are kept |
| MetadataDb.Database.AddScreenshot | app/services/character_screenshot_metadata_service.py:24-25 | add and commit of a screenshot, or rollback to the unchanged tables; the invariants are kept |
| MetadataDb.Database.AddMoment | app/models/moment.py:14-26 | add and commit of a moment, or rollback to the unchanged tables; the invariants are kept |
| MetadataDb.Database.RemoveVideo | app/models/video_metadata.py:37-38 | the cascading delete on the database, or rollback to the unchanged tables; the invariants are kept |
| VideoMetadataService.VideoMetadataStorageService.constructor | app/services/video_metadata_service.py:11-13 | the service holds the database session it is given |
| VideoMetadataService.VideoMetadataStorageService.SaveVideoMetadata | app/services/video_metadata_service.py:15-42 | succeeds exactly when the key is free, the id is new and the database does not fail; it then inserts one row with status PENDING, no duration and no error, leaves every other row unchanged, and returns the row as a dict with status "PENDING"; on failure the tables are unchanged and the error starts with "Database error: " |
| VideoMetadataService.VideoMetadataStorageService.GetAllVideoMetadata | app/services/video_metadata_service.py:44-60 | one dict per stored video and nothing else, ordered by `created_at`, newest first; the tables are only read; a database failure propagates with its own message, without the "Database error: " prefix |
| CharacterScreenshotMetadataService.ScreenshotMetadataService.constructor | app/services/character_screenshot_metadata_service.py:10-11 | the service holds the database session it is given |
| CharacterScreenshotMetadataService.ScreenshotMetadataService.SaveScreenshotMetadata | app/services/character_screenshot_metadata_service.py:13-39 | succeeds exactly when the video exists, the id is new and the database does not fail; it then inserts one row with the storage key as `screenshot_url`, `is_processed` false and no vector id, and echoes the fields; on failure the tables are unchanged and the error starts with "Database error: " |
| VideoApi.GetVideos | app/api/video.py:9-22 | the response's `count` equals the number of videos it lists; a storage exception becomes a 500 carrying its text |
| VideoApi.UploadVideo | app/api/video.py:24-43 | a part without a content type fails with an unhandled AttributeError; a content type not starting with "video/" is a 400; otherwise success returns the object key as `video_id` and echoes the filename, and a storage exception becomes a 500 carrying its text |
| VideoApi.RejectedUploadIgnoresStorage | app/api/video.py:29-30 | a rejected upload (no content type, or one not starting with "video/") gives the same answer for every storage client, so storage plays no part in it |
| VideoApi.SearchVideo | app/api/video.py:45-70 | the two fixed matches are returned exactly when the lower-cased query is "drinking" and the lower-cased character is "rick", and no match otherwise; both answers echo video id, character and query |
| VideoApi.SearchMatchesAnyCasing | app/api/video.py:52 | any casing of "drinking" and "rick" gets the matches |

## Left out

- The analysis pipeline and the status transitions past PENDING: no code performs them. The worker task
  (`app/worker/tasks.py`) only sleeps and returns a fixed dictionary.
- The Gemini engine (`app/services/ai/gemini_engine.py`) and the abstract engine interface: they are
  remote SDK calls, parsing of the model's output and an unbounded polling loop. Of the engine only its
  constructor's check of the API key is modelled (`AiFactory.NewGeminiEngine`); the factory returns the
  engine as an opaque value.
- The database engine and session setup, the settings, the application wiring and CORS, the Celery
  configuration, and the schema migration.
- The S3 client, `uuid4` and `utcnow`: they are parameters. The model does not check that `uuid4().hex`
  gives 32 hexadecimal digits; `KeysDistinct` only needs the two uuids to have the same length.
- Sorting.SortDesc: it does not state stability, that is, that records with equal times keep their listing
  order as Python's `sorted` does. The listing contract says only "sorted newest first" and "a permutation".
- VideoMetadataService.VideoMetadataStorageService.GetAllVideoMetadata: the order of videos with equal
  `created_at` is not specified, just as SQL leaves it unspecified.
- VideoMetadataService.VideoMetadataStorageService.SaveVideoMetadata: `created_at` and `updated_at` come
  from one clock reading, where the source evaluates `utcnow` separately for each column. A failure of the
  `refresh` after a successful commit is not modelled: the source then leaves the row committed and still
  raises "Database error: …", whereas in the model every error leaves the tables unchanged.
- MetadataDb.Database.AddVideo: the session's buffer of pending objects is folded into one transactional
  insert. This is the case of the fresh per-request session the services receive.
- CharacterScreenshotMetadataService.ScreenshotMetadataService.SaveScreenshotMetadata: ids are opaque
  strings, so `str()` does not normalise the spelling of a UUID, and a malformed id counts as a missing
  video. A failure of the `refresh` after a successful commit is not modelled: the source then leaves the
  row committed and still raises "Database error: …", whereas in the model every error leaves the tables
  unchanged.
- VideoApi.UploadVideo: a part without a filename (`filename` None) is not modelled; the filename is
  always a string here.
- Unicode case mapping beyond ASCII: `str.upper`/`str.lower` are modelled on ASCII letters only.
- The legacy `app/models/character.py`: it duplicates the screenshot model under the old table name.
