/**
 * Values shared by both versions of the challenge service: collections of
 * images on disk, the collage a challenge shows, the challenge itself and the
 * service's error kinds.
 */
module Domain {
  import opened Bits

  datatype Option<T> = None | Some(value: T)

  /** The error kinds this model can produce; the I/O errors of the service are not modelled. */
  datatype ServiceError =
    | InsufficientCollections
    | CollectionName(path: FilePath)

  datatype Result<T> = Ok(value: T) | Err(error: ServiceError)

  /**
   * A filesystem path split into the components of its parent directory and
   * its final component (the file name).
   */
  datatype FilePath = FilePath(parent: seq<string>, fileName: string)

  /** A directory of images; its name is the topic of the challenges built from it. */
  datatype Collection = Collection(name: string, images: seq<FilePath>)

  /** One thumbnail copied into the collage, with the top-left corner it was copied to. */
  datatype Tile = Tile(source: FilePath, x: nat, y: nat)

  /** The square collage image of a challenge: its side in pixels and its tiles in order. */
  datatype Collage = Collage(side: nat, tiles: seq<Tile>)

  /** A generated challenge. `answer` is the bit mask of the tiles that show the topic. */
  datatype Challenge = Challenge(id: string, image: Collage, topic: string, answer: u32)

  predicate Distinct(s: seq<nat>) {
    forall i, j :: 0 <= i < j < |s| ==> s[i] != s[j]
  }

  function Min(a: nat, b: nat): nat {
    if a <= b then a else b
  }
}
