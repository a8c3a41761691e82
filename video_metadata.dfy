/**
 * The video record (app/models/video_metadata.py): the status enum and the
 * VideoMetadata row with its column defaults. Identifiers and timestamps are
 * opaque values supplied by the caller (uuid4 and utcnow in the source).
 */
module VideoMetadataModel {
  import opened Outcomes

  type Uuid = string

  /** A point in time; its order is that of the ISO-8601 text the services return. */
  type Timestamp = int

  /** VideoStatus: a value of this type is always one of exactly these five. */
  datatype VideoStatus = Pending | Extracting | Analyzing | Completed | Failed {
    /** The enum member's `.value`. */
    function Value(): string {
      match this
      case Pending => "PENDING"
      case Extracting => "EXTRACTING"
      case Analyzing => "ANALYZING"
      case Completed => "COMPLETED"
      case Failed => "FAILED"
    }
  }

  const StatusValues: set<string> := {"PENDING", "EXTRACTING", "ANALYZING", "COMPLETED", "FAILED"}

  /** `VideoStatus(v)`: the lookup by value, which fails for any other string. */
  function StatusFromValue(v: string): (r: Option<VideoStatus>)
    ensures r.Some? <==> v in StatusValues
  {
    match v
    case "PENDING" => Some(Pending)
    case "EXTRACTING" => Some(Extracting)
    case "ANALYZING" => Some(Analyzing)
    case "COMPLETED" => Some(Completed)
    case "FAILED" => Some(Failed)
    case _ => None
  }

  /** Value and lookup by value are inverse to each other, in both directions. */
  lemma StatusValueRoundTrip(s: VideoStatus, v: string)
    ensures StatusFromValue(s.Value()) == Some(s)
    ensures StatusFromValue(v) == Some(s) <==> v == s.Value()
  {
  }

  /** One row of the `video_metadata` table. */
  datatype VideoMetadata = VideoMetadata(
    id: Uuid,
    originalFilename: string,       // required
    storageKey: string,             // required, unique across rows
    durationSeconds: Option<int>,   // optional
    status: VideoStatus,            // required, defaults to Pending
    errorMessage: Option<string>,   // optional
    createdAt: Timestamp,
    updatedAt: Timestamp)

  /**
   * A new row built from the two required columns and, when given, the status;
   * every other column takes its default, and so does an omitted status.
   */
  function NewVideoMetadata(id: Uuid, originalFilename: string, storageKey: string,
                            status: Option<VideoStatus>, now: Timestamp): (row: VideoMetadata)
    ensures row.id == id && row.originalFilename == originalFilename && row.storageKey == storageKey
    ensures status.Some? ==> row.status == status.value
    ensures status.None? ==> row.status == Pending
    ensures row.durationSeconds.None? && row.errorMessage.None?
    ensures row.createdAt == now && row.updatedAt == now
  {
    var s := if status.Some? then status.value else Pending;
    VideoMetadata(id, originalFilename, storageKey, None, s, None, now, now)
  }
}
