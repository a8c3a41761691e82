/**
 * The moment record (app/models/moment.py): one occurrence of a character found
 * in a video, tied to the video and to the screenshot it was searched with.
 */
module MomentModel {
  import opened Outcomes
  import opened VideoMetadataModel

  /** One row of the `character_moments` table; the float columns are opaque. */
  datatype CharacterMoment = CharacterMoment(
    id: Uuid,
    videoId: Uuid,               // required reference to a video
    characterId: Uuid,           // required reference to a screenshot
    action: string,              // required
    startTimestamp: real,        // required
    endTimestamp: real,          // required
    confidenceScore: real,       // required
    thumbnailUrl: Option<string>,// optional
    createdAt: Timestamp)
}
