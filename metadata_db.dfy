/**
 * The metadata store as three in-memory relational tables: the constraints the
 * three models declare (primary keys, the unique `storage_key`, the required
 * references) and the cascade from a video to its screenshots and moments.
 *
 * Each insert or delete is one transaction: it commits, or it fails and the
 * rollback leaves the tables as they were. `fault` stands for a failure of the
 * database itself (a lost connection, say), with its message.
 */
module MetadataDb {
  import opened Outcomes
  import opened VideoMetadataModel
  import opened ScreenshotModel
  import opened MomentModel

  /** Why a commit failed. */
  datatype DbError =
    | OperationalError(detail: string)
    | UniqueViolation(column: string)
    | ForeignKeyViolation(column: string)
    | NotNullViolation(column: string)
  {
    /**
     * A stand-in for the text of the exception (`str(e)`); only the services'
     * "Database error: " prefix in front of it is modelled exactly.
     */
    function Message(): string {
      match this
      case OperationalError(detail) => detail
      case UniqueViolation(column) => "duplicate key value violates unique constraint on " + column
      case ForeignKeyViolation(column) => "insert violates foreign key constraint on " + column
      case NotNullViolation(column) => "null value violates not-null constraint on " + column
    }
  }

  const VideoIdColumn := "video_metadata.id"
  const StorageKeyColumn := "video_metadata.storage_key"
  const ScreenshotIdColumn := "character_screenshot_metadata.id"
  const ScreenshotVideoColumn := "character_screenshot_metadata.video_id"
  const MomentIdColumn := "character_moments.id"
  const MomentVideoColumn := "character_moments.video_id"
  const MomentScreenshotColumn := "character_moments.character_id"

  /** The services' wrapping of a failed transaction: `f"Database error: {e}"`. */
  const DatabaseErrorPrefix := "Database error: "

  /** The three tables, each keyed by its rows' primary key. */
  datatype Tables = Tables(
    videos: map<Uuid, VideoMetadata>,
    screenshots: map<Uuid, CharacterScreenshotMetadata>,
    moments: map<Uuid, CharacterMoment>)

  const EmptyTables := Tables(map[], map[], map[])

  predicate KeyedById(t: Tables) {
    && (forall k :: k in t.videos ==> t.videos[k].id == k)
    && (forall k :: k in t.screenshots ==> t.screenshots[k].id == k)
    && (forall k :: k in t.moments ==> t.moments[k].id == k)
  }

  predicate StorageKeyTaken(videos: map<Uuid, VideoMetadata>, storageKey: string) {
    exists k :: k in videos && videos[k].storageKey == storageKey
  }

  /** `storage_key` is unique across all video rows. */
  predicate StorageKeysUnique(videos: map<Uuid, VideoMetadata>) {
    forall a, b :: a in videos && b in videos && a != b ==> videos[a].storageKey != videos[b].storageKey
  }

  /** Every screenshot belongs to a stored video; every moment to a stored video and screenshot. */
  predicate ReferencesResolve(t: Tables) {
    && (forall k :: k in t.screenshots ==> t.screenshots[k].videoId in t.videos)
    && (forall k :: k in t.moments ==> t.moments[k].videoId in t.videos && t.moments[k].characterId in t.screenshots)
  }

  predicate TablesValid(t: Tables) {
    KeyedById(t) && StorageKeysUnique(t.videos) && ReferencesResolve(t)
  }

  // ---------------------------------------------------------------------------
  // Transactions, as functions of the tables before them
  // ---------------------------------------------------------------------------

  /** Add and commit one video row. */
  function InsertVideo(t: Tables, row: VideoMetadata, fault: Option<string>): (r: Result<Tables, DbError>)
    ensures r.Ok? <==> fault.None? && row.id !in t.videos && !StorageKeyTaken(t.videos, row.storageKey)
    ensures r.Ok? ==> r.value == t.(videos := t.videos[row.id := row])
    ensures TablesValid(t) && r.Ok? ==> TablesValid(r.value)
  {
    if fault.Some? then Err(OperationalError(fault.value))
    else if row.id in t.videos then Err(UniqueViolation(VideoIdColumn))
    else if StorageKeyTaken(t.videos, row.storageKey) then Err(UniqueViolation(StorageKeyColumn))
    else Ok(t.(videos := t.videos[row.id := row]))
  }

  /** Add and commit one screenshot row; its video must exist. */
  function InsertScreenshot(t: Tables, row: CharacterScreenshotMetadata, fault: Option<string>): (r: Result<Tables, DbError>)
    ensures r.Ok? <==> fault.None? && row.id !in t.screenshots && row.videoId in t.videos
    ensures r.Ok? ==> r.value == t.(screenshots := t.screenshots[row.id := row])
    ensures r.Err? && fault.None? && row.id !in t.screenshots ==> r.error == ForeignKeyViolation(ScreenshotVideoColumn)
    ensures TablesValid(t) && r.Ok? ==> TablesValid(r.value)
  {
    if fault.Some? then Err(OperationalError(fault.value))
    else if row.id in t.screenshots then Err(UniqueViolation(ScreenshotIdColumn))
    else if row.videoId !in t.videos then Err(ForeignKeyViolation(ScreenshotVideoColumn))
    else Ok(t.(screenshots := t.screenshots[row.id := row]))
  }

  /** Add and commit one moment row; its video and its screenshot must exist. */
  function InsertMoment(t: Tables, row: CharacterMoment, fault: Option<string>): (r: Result<Tables, DbError>)
    ensures r.Ok? <==> fault.None? && row.id !in t.moments && row.videoId in t.videos && row.characterId in t.screenshots
    ensures r.Ok? ==> r.value == t.(moments := t.moments[row.id := row])
    ensures TablesValid(t) && r.Ok? ==> TablesValid(r.value)
  {
    if fault.Some? then Err(OperationalError(fault.value))
    else if row.id in t.moments then Err(UniqueViolation(MomentIdColumn))
    else if row.videoId !in t.videos then Err(ForeignKeyViolation(MomentVideoColumn))
    else if row.characterId !in t.screenshots then Err(ForeignKeyViolation(MomentScreenshotColumn))
    else Ok(t.(moments := t.moments[row.id := row]))
  }

  /**
   * The cascade deletes the video's screenshots, whose own moments relation does
   * not cascade: a moment of ANOTHER video that points at one of them would have
   * its required `character_id` cleared, and the commit fails.
   */
  predicate CascadeBlocked(t: Tables, id: Uuid) {
    exists m :: m in t.moments && t.moments[m].videoId != id &&
                t.moments[m].characterId in t.screenshots &&
                t.screenshots[t.moments[m].characterId].videoId == id
  }

  /** Delete a stored video and commit; its screenshots and moments go with it. */
  function DeleteVideo(t: Tables, id: Uuid, fault: Option<string>): (r: Result<Tables, DbError>)
    requires id in t.videos
    ensures r.Ok? <==> fault.None? && !CascadeBlocked(t, id)
    ensures r.Ok? ==> r.value.videos.Keys == t.videos.Keys - {id}
    ensures r.Ok? ==> forall k :: k in r.value.screenshots <==> k in t.screenshots && t.screenshots[k].videoId != id
    ensures r.Ok? ==> forall k :: k in r.value.moments <==> k in t.moments && t.moments[k].videoId != id
    ensures r.Ok? ==> && (forall k :: k in r.value.videos ==> r.value.videos[k] == t.videos[k])
                      && (forall k :: k in r.value.screenshots ==> r.value.screenshots[k] == t.screenshots[k])
                      && (forall k :: k in r.value.moments ==> r.value.moments[k] == t.moments[k])
    ensures TablesValid(t) && r.Ok? ==> TablesValid(r.value)
  {
    if fault.Some? then Err(OperationalError(fault.value))
    else if CascadeBlocked(t, id) then Err(NotNullViolation(MomentScreenshotColumn))
    else
      Ok(Tables(
        map k | k in t.videos && k != id :: t.videos[k],
        map k | k in t.screenshots && t.screenshots[k].videoId != id :: t.screenshots[k],
        map k | k in t.moments && t.moments[k].videoId != id :: t.moments[k]))
  }

  /** After a committed delete no row refers to the deleted video any more. */
  lemma DeleteLeavesNoOrphans(t: Tables, id: Uuid, fault: Option<string>)
    requires TablesValid(t) && id in t.videos
    requires DeleteVideo(t, id, fault).Ok?
    ensures var after := DeleteVideo(t, id, fault).value;
      && id !in after.videos
      && (forall k :: k in after.screenshots ==> after.screenshots[k].videoId != id)
      && (forall k :: k in after.moments ==> after.moments[k].videoId != id &&
                                              after.screenshots[after.moments[k].characterId].videoId != id)
  {
    var after := DeleteVideo(t, id, fault).value;
    assert TablesValid(after);
  }

  // ---------------------------------------------------------------------------
  // The database the services hold
  // ---------------------------------------------------------------------------

  class Database {
    var videos: map<Uuid, VideoMetadata>
    var screenshots: map<Uuid, CharacterScreenshotMetadata>
    var moments: map<Uuid, CharacterMoment>

    function Snapshot(): Tables
      reads this
    {
      Tables(videos, screenshots, moments)
    }

    ghost predicate Valid()
      reads this
    {
      TablesValid(Snapshot())
    }

    constructor ()
      ensures Valid() && Snapshot() == EmptyTables
    {
      videos, screenshots, moments := map[], map[], map[];
    }

    /** session.add(row); session.commit(), with session.rollback() on failure. */
    method AddVideo(row: VideoMetadata, fault: Option<string>) returns (err: Option<DbError>)
      requires Valid()
      modifies this
      ensures Valid()
      ensures match InsertVideo(old(Snapshot()), row, fault)
              case Ok(t) => err == None && Snapshot() == t
              case Err(e) => err == Some(e) && Snapshot() == old(Snapshot())
    {
      if fault.Some? {
        return Some(OperationalError(fault.value));
      }
      if row.id in videos {
        return Some(UniqueViolation(VideoIdColumn));
      }
      if StorageKeyTaken(videos, row.storageKey) {
        return Some(UniqueViolation(StorageKeyColumn));
      }
      videos := videos[row.id := row];
      return None;
    }

    method AddScreenshot(row: CharacterScreenshotMetadata, fault: Option<string>) returns (err: Option<DbError>)
      requires Valid()
      modifies this
      ensures Valid()
      ensures match InsertScreenshot(old(Snapshot()), row, fault)
              case Ok(t) => err == None && Snapshot() == t
              case Err(e) => err == Some(e) && Snapshot() == old(Snapshot())
    {
      if fault.Some? {
        return Some(OperationalError(fault.value));
      }
      if row.id in screenshots {
        return Some(UniqueViolation(ScreenshotIdColumn));
      }
      if row.videoId !in videos {
        return Some(ForeignKeyViolation(ScreenshotVideoColumn));
      }
      screenshots := screenshots[row.id := row];
      return None;
    }

    method AddMoment(row: CharacterMoment, fault: Option<string>) returns (err: Option<DbError>)
      requires Valid()
      modifies this
      ensures Valid()
      ensures match InsertMoment(old(Snapshot()), row, fault)
              case Ok(t) => err == None && Snapshot() == t
              case Err(e) => err == Some(e) && Snapshot() == old(Snapshot())
    {
      if fault.Some? {
        return Some(OperationalError(fault.value));
      }
      if row.id in moments {
        return Some(UniqueViolation(MomentIdColumn));
      }
      if row.videoId !in videos {
        return Some(ForeignKeyViolation(MomentVideoColumn));
      }
      if row.characterId !in screenshots {
        return Some(ForeignKeyViolation(MomentScreenshotColumn));
      }
      moments := moments[row.id := row];
      return None;
    }

    /** session.delete(video); session.commit(): the cascade runs inside the transaction. */
    method RemoveVideo(id: Uuid, fault: Option<string>) returns (err: Option<DbError>)
      requires Valid() && id in videos
      modifies this
      ensures Valid()
      ensures match DeleteVideo(old(Snapshot()), id, fault)
              case Ok(t) => err == None && Snapshot() == t
              case Err(e) => err == Some(e) && Snapshot() == old(Snapshot())
    {
      if fault.Some? {
        return Some(OperationalError(fault.value));
      }
      if CascadeBlocked(Snapshot(), id) {
        return Some(NotNullViolation(MomentScreenshotColumn));
      }
      videos := map k | k in videos && k != id :: videos[k];
      screenshots := map k | k in screenshots && screenshots[k].videoId != id :: screenshots[k];
      moments := map k | k in moments && moments[k].videoId != id :: moments[k];
      return None;
    }
  }
}
