/**
 * The remote records of an osu!collector collection, reduced to the fields
 * the modelled code reads. They arrive already parsed; the HTTP requests
 * that fetch them are not modelled.
 */
module Collector {
  import opened Decimal

  datatype Uploader = Uploader(username: string)

  /** The collection's metadata: its id, its title and who uploaded it. */
  datatype RemoteCollection = RemoteCollection(id: i32, name: string, uploader: Uploader)

  /** One beatmap (difficulty) of the collection and the set it belongs to. */
  datatype Beatmap = Beatmap(checksum: string, version: string, beatmapsetId: i32)

  /** One beatmap set of the collection. */
  datatype Beatmapset = Beatmapset(id: i32, artist: string, title: string)
}
