/**
 * Values shared by the tag parser and the cover-art coordinator.
 *
 * Everything the core obtains from libraries it does not implement appears
 * in this model only as the OUTCOME of the foreign call. This module holds
 * the image decoders' outcomes (`Decoded`, `Decoders`). The audio-file
 * reading outcomes (`ReadOutcome`, `Lookup`, `ArtworkLookup`) are in
 * `Jaudiotagger`, and the MP4 box lookup outcomes (`IsoLookup`, `M4AFile`)
 * are in `LibraryCoverArt`.
 */
module Media {

  /** Java's nullable reference: `None` is `null`. */
  datatype Option<T> = None | Some(value: T)

  /** A payload byte. The range is unsigned on purpose: payloads are opaque here, so Java's signed `byte` makes no difference. */
  newtype byte = x: int | 0 <= x < 256

  type Bytes = seq<byte>

  /**
   * A fully decoded picture. Its pixels are opaque to this model; only its
   * identity matters (which decoder produced which picture).
   */
  datatype Image = Image(width: nat, height: nat, pixels: seq<int>)

  /**
   * A `java.io.File`, identified by its absolute path. `File.equals` is
   * modelled as equality of this value.
   */
  datatype FileRef = FileRef(absolutePath: string)

  /**
   * What one call of an image decoder on a byte array does:
   * it returns a picture or null (no reader claimed the data),
   * throws `IIOException` (unsupported or malformed image data),
   * or throws anything else.
   */
  datatype Decoded = Decoded(image: Option<Image>) | UnsupportedFormat | DecodeFailed

  /**
   * The two decoders the core calls: the strict `ImageIO.read` and the
   * tolerant `JPEGImageIO.read` used as a fallback.
   */
  datatype Decoders = Decoders(imageIO: Bytes -> Decoded, jpegImageIO: Bytes -> Decoded)

  /** The picture one decoder call yields once every exception is turned into null. */
  function DecodeDirect(decoder: Bytes -> Decoded, data: Bytes): (r: Option<Image>)
    ensures r.Some? ==> decoder(data) == Decoded(r)
    ensures decoder(data).Decoded? ==> r == decoder(data).image
    ensures !decoder(data).Decoded? ==> r.None?
  {
    match decoder(data)
    case Decoded(image) => image
    case UnsupportedFormat => None
    case DecodeFailed => None
  }
}
