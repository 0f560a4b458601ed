/**
 * The records of the backend's data model and of their copies on the
 * frontend: a tag (keyed by name), a picture (keyed by path) and the
 * picture/tag association row. Timestamps are abstract integers.
 */
module Models {

  /** The four tag types; the Go type `TagType` is a plain string. */
  const Person: string := "person"
  const Location: string := "location"
  const Event: string := "event"
  const Other: string := "other"

  const TagTypes: seq<string> := [Person, Location, Event, Other]

  datatype Tag = Tag(name: string, tagType: string, color: string)

  datatype Picture = Picture(
    path: string,
    filename: string,
    size: int,
    width: int,
    height: int,
    createdAt: int,
    modifiedAt: int,
    indexedAt: int)

  /** A row of the `picture_tags` table; the pair is its primary key. */
  datatype PictureTag = PictureTag(picturePath: string, tagName: string)
}
