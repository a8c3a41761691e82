/**
 * The screenshot metadata service
 * (app/services/character_screenshot_metadata_service.py): it saves one
 * screenshot row in the session it holds. The new row's id and the clock are
 * parameters.
 */
module CharacterScreenshotMetadataService {
  import opened Outcomes
  import opened AsciiText
  import opened VideoMetadataModel
  import opened ScreenshotModel
  import opened MetadataDb

  /** The dictionary returned for a saved screenshot. */
  datatype ScreenshotDict = ScreenshotDict(
    id: Uuid, videoId: Uuid, characterName: string, screenshotUrl: string,
    timeStamp: real, createdAt: Timestamp)

  class ScreenshotMetadataService {
    const db: Database

    constructor (db: Database)
      ensures this.db == db
    {
      this.db := db;
    }

    /**
     * save_screenshot_metadata: inserts exactly one row whose `screenshot_url` is
     * the storage key, not yet processed and with no vector id, and echoes it;
     * a missing video or any other failure rolls back and raises a
     * "Database error: ..." exception.
     */
    method SaveScreenshotMetadata(videoId: Uuid, characterName: string, storageKey: string, timeStamp: real,
                                  newId: Uuid, now: Timestamp, fault: Option<string>)
      returns (r: Result<ScreenshotDict, string>)
      requires db.Valid()
      modifies db
      ensures db.Valid()
      ensures r.Ok? <==> fault.None? && newId !in old(db.screenshots) && videoId in old(db.videos)
      ensures r.Ok? ==>
                && db.screenshots.Keys == old(db.screenshots).Keys + {newId}
                && (forall k :: k in old(db.screenshots) ==> db.screenshots[k] == old(db.screenshots)[k])
                && db.screenshots[newId] ==
                     CharacterScreenshotMetadata(newId, videoId, characterName, storageKey, timeStamp, false, None, now)
                && db.videos == old(db.videos) && db.moments == old(db.moments)
      ensures r.Ok? ==> r.value == ScreenshotDict(newId, videoId, characterName, storageKey, timeStamp, now)
      ensures r.Err? ==> db.Snapshot() == old(db.Snapshot()) && StartsWith(r.error, DatabaseErrorPrefix)
    {
      var row := NewScreenshot(newId, videoId, characterName, storageKey, timeStamp, now);
      var err := db.AddScreenshot(row, fault);
      if err.Some? {
        r := Err(DatabaseErrorPrefix + err.value.Message());
        assert r.error[..|DatabaseErrorPrefix|] == DatabaseErrorPrefix;
        return;
      }
      return Ok(ScreenshotDict(row.id, row.videoId, row.characterName, row.screenshotUrl, row.timeStamp, row.createdAt));
    }
  }
}
