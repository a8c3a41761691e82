/**
 * The screenshot record (app/models/character_screenshot_metadata.py): a
 * reference crop of a character, owned by one video.
 */
module ScreenshotModel {
  import opened Outcomes
  import opened VideoMetadataModel

  /** One row of the `character_screenshot_metadata` table. */
  datatype CharacterScreenshotMetadata = CharacterScreenshotMetadata(
    id: Uuid,
    videoId: Uuid,              // required reference to a video
    characterName: string,      // required
    screenshotUrl: string,      // required: the object key of the crop
    timeStamp: real,            // required: the second of the video it was cut from
    isProcessed: bool,          // defaults to false
    vectorId: Option<string>,   // optional, absent by default
    createdAt: Timestamp)

  /** A new row from its required columns; `is_processed` and `vector_id` take their defaults. */
  function NewScreenshot(id: Uuid, videoId: Uuid, characterName: string, screenshotUrl: string,
                         timeStamp: real, now: Timestamp): (row: CharacterScreenshotMetadata)
    ensures row.id == id && row.videoId == videoId && row.characterName == characterName
    ensures row.screenshotUrl == screenshotUrl && row.timeStamp == timeStamp && row.createdAt == now
    ensures !row.isProcessed && row.vectorId.None?
  {
    CharacterScreenshotMetadata(id, videoId, characterName, screenshotUrl, timeStamp, false, None, now)
  }
}
