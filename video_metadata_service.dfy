/**
 * The video metadata service (app/services/video_metadata_service.py): it
 * holds a database session and saves or lists video rows, returning plain
 * dictionaries. The new row's id and the clock are parameters.
 */
module VideoMetadataService {
  import opened Outcomes
  import opened AsciiText
  import opened Sorting
  import opened VideoMetadataModel
  import opened MetadataDb

  /** The dictionary both operations return for one row. */
  datatype VideoDict = VideoDict(
    id: Uuid, originalFilename: string, status: string,
    durationSeconds: Option<int>, storageKey: string, createdAt: Timestamp)

  /** The row as a dict; its status string converts back to the row's status. */
  function ToVideoDict(v: VideoMetadata): (d: VideoDict)
    ensures d.id == v.id && d.originalFilename == v.originalFilename && d.storageKey == v.storageKey
    ensures d.durationSeconds == v.durationSeconds && d.createdAt == v.createdAt
    ensures d.status in StatusValues && StatusFromValue(d.status) == Some(v.status)
  {
    StatusValueRoundTrip(v.status, v.status.Value());
    VideoDict(v.id, v.originalFilename, v.status.Value(), v.durationSeconds, v.storageKey, v.createdAt)
  }

  function CreatedAt(d: VideoDict): int {
    d.createdAt
  }

  class VideoMetadataStorageService {
    const db: Database

    constructor (db: Database)
      ensures this.db == db
    {
      this.db := db;
    }

    /**
     * save_video_metadata: inserts exactly one row, with the given filename and
     * storage key, status PENDING and the column defaults, and returns it as a
     * dictionary; on any failure the transaction is rolled back, the tables are
     * as before, and the error reads "Database error: " and the cause.
     */
    method SaveVideoMetadata(originalFilename: string, storageKey: string,
                             newId: Uuid, now: Timestamp, fault: Option<string>)
      returns (r: Result<VideoDict, string>)
      requires db.Valid()
      modifies db
      ensures db.Valid()
      ensures r.Ok? <==> fault.None? && newId !in old(db.videos) && !StorageKeyTaken(old(db.videos), storageKey)
      ensures r.Ok? ==>
                && db.videos.Keys == old(db.videos).Keys + {newId}
                && (forall k :: k in old(db.videos) ==> db.videos[k] == old(db.videos)[k])
                && db.videos[newId] == VideoMetadata(newId, originalFilename, storageKey, None, Pending, None, now, now)
                && db.screenshots == old(db.screenshots) && db.moments == old(db.moments)
      ensures r.Ok? ==> r.value == ToVideoDict(db.videos[newId]) && r.value.status == "PENDING"
      ensures r.Err? ==> db.Snapshot() == old(db.Snapshot()) && StartsWith(r.error, DatabaseErrorPrefix)
    {
      var row := NewVideoMetadata(newId, originalFilename, storageKey, Some(Pending), now);
      var err := db.AddVideo(row, fault);
      if err.Some? {
        r := Err(DatabaseErrorPrefix + err.value.Message());
        assert r.error[..|DatabaseErrorPrefix|] == DatabaseErrorPrefix;
        return;
      }
      return Ok(ToVideoDict(row));
    }

    /**
     * get_all_video_metadata: one dictionary per stored video, newest first by
     * `created_at`; the tables are only read. The query has no handler: a
     * failure of the database propagates with its own message, unprefixed.
     */
    method GetAllVideoMetadata(fault: Option<string>) returns (r: Result<seq<VideoDict>, string>)
      requires db.Valid()
      ensures r.Err? <==> fault.Some?
      ensures r.Err? ==> r.error == fault.value
      ensures r.Ok? ==> |r.value| == |db.videos|
      ensures r.Ok? ==> forall d :: d in r.value <==> exists k :: k in db.videos && d == ToVideoDict(db.videos[k])
      ensures r.Ok? ==> SortedDesc(r.value, CreatedAt)
    {
      if fault.Some? {
        return Err(fault.value);
      }
      var remaining := db.videos.Keys;
      var listed: seq<VideoDict> := [];
      while remaining != {}
        invariant remaining <= db.videos.Keys
        invariant |listed| + |remaining| == |db.videos.Keys|
        invariant forall d :: d in listed <==> exists k :: k in db.videos.Keys - remaining && d == ToVideoDict(db.videos[k])
        decreases |remaining|
      {
        var k :| k in remaining;
        listed := listed + [ToVideoDict(db.videos[k])];
        remaining := remaining - {k};
      }
      var rows := SortDesc(listed, CreatedAt);
      SortDescSorted(listed, CreatedAt);
      forall d
        ensures d in rows <==> exists k :: k in db.videos && d == ToVideoDict(db.videos[k])
      {
        assert d in rows <==> d in multiset(rows);
        assert d in listed <==> d in multiset(listed);
        assert forall k :: k in db.videos.Keys - remaining <==> k in db.videos;
      }
      r := Ok(rows);
    }
  }
}
