/**
 * The jaudiotagger-backed tag parser: metadata fields and embedded artwork
 * of one audio file, read through a library whose every call may fail.
 * Each failure is absorbed here and becomes null.
 */
module Jaudiotagger {
  import opened Media

  /** The field identifiers the parser queries. */
  datatype FieldKey = Title | Artist | Album | Comment | Genre | Track | Year

  /** What `tag.getFirst(id)` does: returns a (possibly null) string, or throws. */
  datatype Lookup = Value(text: Option<string>) | LookupThrows

  /** What `tag.getFirstArtwork().getBinaryData()` yields. */
  datatype ArtworkLookup =
    | NoArtwork                          // getFirstArtwork() returned null
    | ArtworkThrows                      // the lookup threw
    | Artwork(binaryData: Option<Bytes>) // the artwork's bytes, possibly null

  /** A tag as the library presents it: one lookup outcome per key, and the first artwork. */
  datatype Tag = Tag(getFirst: FieldKey -> Lookup, firstArtwork: ArtworkLookup)

  datatype AudioHeader = AudioHeader(trackLength: int, bitRate: Option<string>)

  /** An opened audio file; either part may be null. */
  datatype AudioFile = AudioFile(header: Option<AudioHeader>, tag: Option<Tag>)

  /** What a reader's `read(file)` does: returns the audio file or throws. */
  datatype ReadOutcome = ReadFailed | AudioRead(audioFile: AudioFile)

  /** A caller-supplied `AudioFileReader`. */
  datatype AudioFileReader = AudioFileReader(read: FileRef -> ReadOutcome)

  /** The parser's two final fields. */
  datatype Parser = Parser(file: FileRef, fileReader: Option<AudioFileReader>)

  /** The nine values handed to `sanitize`, in its argument order. */
  datatype RawTags = RawTags(
    duration: int, bitrate: Option<string>,
    title: Option<string>, artist: Option<string>, album: Option<string>,
    comment: Option<string>, genre: Option<string>, track: Option<string>,
    year: Option<string>)

  /** What the inherited `sanitize` does: returns a record (possibly null) or throws. */
  datatype Sanitized<T> = Sanitized(data: Option<T>) | SanitizeThrows

  /** The one-argument constructor: no reader of its own. */
  function NewParser(file: FileRef): (p: Parser)
    ensures p.file == file && p.fileReader.None?
  {
    Parser(file, None)
  }

  /**
   * The reader selection both `parse` and `getArtwork` make: the supplied
   * reader when there is one, otherwise `AudioFileIO.read`.
   */
  function ReadAudio(p: Parser, audioFileIO: FileRef -> ReadOutcome): (r: ReadOutcome)
    ensures p.fileReader.Some? ==> r == p.fileReader.value.read(p.file)
    ensures p.fileReader.None? ==> r == audioFileIO(p.file)
  {
    match p.fileReader
    case Some(reader) => reader.read(p.file)
    case None => audioFileIO(p.file)
  }

  /**
   * `r` is what a fault-tolerant lookup of `id` in `tag` must give: the
   * lookup's value when it returns, null when it throws or there is no tag.
   * This determines `r` completely.
   */
  predicate LooksUp(tag: Option<Tag>, id: FieldKey, r: Option<string>)
  {
    && (tag.Some? && tag.value.getFirst(id).Value? ==> r == tag.value.getFirst(id).text)
    && (tag.None? || tag.value.getFirst(id).LookupThrows? ==> r.None?)
  }

  /**
   * `getValueSafe`: the lookup's value when the lookup returns; null when
   * it throws, and also when there is no tag to look in.
   */
  function GetValueSafe(tag: Option<Tag>, id: FieldKey): (r: Option<string>)
    ensures LooksUp(tag, id, r)
  {
    match tag
    case None => None
    case Some(t) =>
      match t.getFirst(id)
      case Value(text) => text
      case LookupThrows => None
  }

  // The seven getters; each is a fault-tolerant lookup of the key it is named after.

  function GetTitle(audioFile: AudioFile): (r: Option<string>)
    ensures LooksUp(audioFile.tag, Title, r)
  {
    GetValueSafe(audioFile.tag, Title)
  }

  function GetArtist(audioFile: AudioFile): (r: Option<string>)
    ensures LooksUp(audioFile.tag, Artist, r)
  {
    GetValueSafe(audioFile.tag, Artist)
  }

  function GetAlbum(audioFile: AudioFile): (r: Option<string>)
    ensures LooksUp(audioFile.tag, Album, r)
  {
    GetValueSafe(audioFile.tag, Album)
  }

  function GetComment(audioFile: AudioFile): (r: Option<string>)
    ensures LooksUp(audioFile.tag, Comment, r)
  {
    GetValueSafe(audioFile.tag, Comment)
  }

  function GetGenre(audioFile: AudioFile): (r: Option<string>)
    ensures LooksUp(audioFile.tag, Genre, r)
  {
    GetValueSafe(audioFile.tag, Genre)
  }

  function GetTrack(audioFile: AudioFile): (r: Option<string>)
    ensures LooksUp(audioFile.tag, Track, r)
  {
    GetValueSafe(audioFile.tag, Track)
  }

  function GetYear(audioFile: AudioFile): (r: Option<string>)
    ensures LooksUp(audioFile.tag, Year, r)
  {
    GetValueSafe(audioFile.tag, Year)
  }


  /** The getter for a key: the seven getters, indexed by the key each is named after. */
  function Getter(k: FieldKey, audioFile: AudioFile): Option<string>
  {
    match k
    case Title => GetTitle(audioFile)
    case Artist => GetArtist(audioFile)
    case Album => GetAlbum(audioFile)
    case Comment => GetComment(audioFile)
    case Genre => GetGenre(audioFile)
    case Track => GetTrack(audioFile)
    case Year => GetYear(audioFile)
  }

  /** The field of a raw record that holds key `k`. */
  function FieldOf(raw: RawTags, k: FieldKey): Option<string>
  {
    match k
    case Title => raw.title
    case Artist => raw.artist
    case Album => raw.album
    case Comment => raw.comment
    case Genre => raw.genre
    case Track => raw.track
    case Year => raw.year
  }

  /** The arguments `parse` passes to `sanitize` for an opened file and its header. */
  function RawTagsOf(header: AudioHeader, audioFile: AudioFile): (r: RawTags)
    ensures r.duration == header.trackLength && r.bitrate == header.bitRate
    ensures forall k :: LooksUp(audioFile.tag, k, FieldOf(r, k))
  {
    RawTags(header.trackLength, header.bitRate,
            GetTitle(audioFile), GetArtist(audioFile), GetAlbum(audioFile),
            GetComment(audioFile), GetGenre(audioFile), GetTrack(audioFile),
            GetYear(audioFile))
  }

  /**
   * `parse`: null when the file cannot be read, has no header, or `sanitize`
   * throws; otherwise whatever `sanitize` returns for the raw fields.
   */
  function Parse<T>(p: Parser, audioFileIO: FileRef -> ReadOutcome,
                    sanitize: RawTags -> Sanitized<T>): (r: Option<T>)
    ensures r.Some? ==>
      && ReadAudio(p, audioFileIO).AudioRead?
      && ReadAudio(p, audioFileIO).audioFile.header.Some?
      && sanitize(RawTagsOf(ReadAudio(p, audioFileIO).audioFile.header.value,
                            ReadAudio(p, audioFileIO).audioFile)) == Sanitized(r)
  {
    match ReadAudio(p, audioFileIO)
    case ReadFailed => None
    case AudioRead(audioFile) =>
      match audioFile.header
      case None => None
      case Some(header) =>
        match sanitize(RawTagsOf(header, audioFile))
        case Sanitized(data) => data
        case SanitizeThrows => None
  }

  /**
   * `imageFromData`: the strict decoder's result; on `IIOException` the
   * tolerant decoder's result; null on any other failure, on a failure of
   * the fallback, and on null data.
   */
  function ImageFromData(decoders: Decoders, data: Option<Bytes>): (r: Option<Image>)
    ensures r.Some? ==>
      && data.Some?
      && (|| decoders.imageIO(data.value) == Decoded(r)
          || (decoders.imageIO(data.value) == UnsupportedFormat &&
              decoders.jpegImageIO(data.value) == Decoded(r)))
  {
    match data
    case None => None
    case Some(bytes) =>
      match decoders.imageIO(bytes)
      case Decoded(image) => image
      case UnsupportedFormat => DecodeDirect(decoders.jpegImageIO, bytes)
      case DecodeFailed => None
  }

  /**
   * `getArtwork`: null when the file cannot be read, has no tag or no
   * artwork; otherwise `imageFromData` of the first artwork's bytes.
   */
  function GetArtwork(p: Parser, audioFileIO: FileRef -> ReadOutcome, decoders: Decoders): (r: Option<Image>)
    ensures r.Some? ==>
      && ReadAudio(p, audioFileIO).AudioRead?
      && ReadAudio(p, audioFileIO).audioFile.tag.Some?
      && ReadAudio(p, audioFileIO).audioFile.tag.value.firstArtwork.Artwork?
    ensures
      && ReadAudio(p, audioFileIO).AudioRead?
      && ReadAudio(p, audioFileIO).audioFile.tag.Some?
      && ReadAudio(p, audioFileIO).audioFile.tag.value.firstArtwork.Artwork?
      ==> r == ImageFromData(decoders, ReadAudio(p, audioFileIO).audioFile.tag.value.firstArtwork.binaryData)
  {
    match ReadAudio(p, audioFileIO)
    case ReadFailed => None
    case AudioRead(audioFile) =>
      match audioFile.tag
      case None => None
      case Some(tag) =>
        match tag.firstArtwork
        case Artwork(binaryData) => ImageFromData(decoders, binaryData)
        case NoArtwork => None
        case ArtworkThrows => None
  }

  // ---------------------------------------------------------------------
  // Properties

  /** The default-reader constructor reads through `AudioFileIO`. */
  lemma DefaultParserUsesAudioFileIO(file: FileRef, audioFileIO: FileRef -> ReadOutcome)
    ensures ReadAudio(NewParser(file), audioFileIO) == audioFileIO(file)
  {
  }

  /** Each getter looks up exactly the key it is named after. */
  lemma GetterQueriesOwnKey(k: FieldKey, audioFile: AudioFile)
    ensures Getter(k, audioFile) == GetValueSafe(audioFile.tag, k)
  {
  }

  /** A getter's result depends on its own key's lookup and nothing else in the tag. */
  lemma GetterReadsOnlyItsKey(k: FieldKey, a: AudioFile, b: AudioFile)
    requires a.tag.Some? && b.tag.Some?
    requires a.tag.value.getFirst(k) == b.tag.value.getFirst(k)
    ensures Getter(k, a) == Getter(k, b)
  {
    GetterQueriesOwnKey(k, a);
    GetterQueriesOwnKey(k, b);
  }

  /**
   * A field whose lookup throws does not abort `parse`: that field reaches
   * `sanitize` as null and every other field as its own lookup's value.
   */
  lemma FailingFieldIsIsolated(header: AudioHeader, audioFile: AudioFile, k: FieldKey)
    requires audioFile.tag.Some? && audioFile.tag.value.getFirst(k).LookupThrows?
    ensures FieldOf(RawTagsOf(header, audioFile), k).None?
    ensures forall j :: j != k ==> FieldOf(RawTagsOf(header, audioFile), j) == GetValueSafe(audioFile.tag, j)
    ensures RawTagsOf(header, audioFile).duration == header.trackLength
    ensures RawTagsOf(header, audioFile).bitrate == header.bitRate
  {
    forall j
      ensures FieldOf(RawTagsOf(header, audioFile), j) == GetValueSafe(audioFile.tag, j)
    {
      match j
      case Title => case Artist => case Album => case Comment =>
      case Genre => case Track => case Year =>
    }
  }

  /**
   * `parse` returns null exactly when reading, the header, or `sanitize`
   * fails (or `sanitize` itself returns null); otherwise it returns the
   * sanitized record of the file's raw fields.
   */
  lemma ParseOutcomes<T>(p: Parser, audioFileIO: FileRef -> ReadOutcome, sanitize: RawTags -> Sanitized<T>)
    ensures ReadAudio(p, audioFileIO).ReadFailed? ==> Parse(p, audioFileIO, sanitize).None?
    ensures ReadAudio(p, audioFileIO).AudioRead? && ReadAudio(p, audioFileIO).audioFile.header.None? ==>
              Parse(p, audioFileIO, sanitize).None?
    ensures ReadAudio(p, audioFileIO).AudioRead? && ReadAudio(p, audioFileIO).audioFile.header.Some? ==>
              var a := ReadAudio(p, audioFileIO).audioFile;
              match sanitize(RawTagsOf(a.header.value, a))
              case SanitizeThrows => Parse(p, audioFileIO, sanitize).None?
              case Sanitized(d) => Parse(p, audioFileIO, sanitize) == d
  {
  }

  /**
   * Decode-with-fallback: when the strict decoder rejects the data as
   * unsupported, the result is what the tolerant decoder alone gives.
   */
  lemma FallbackEqualsSecondDecoder(decoders: Decoders, bytes: Bytes)
    requires decoders.imageIO(bytes) == UnsupportedFormat
    ensures ImageFromData(decoders, Some(bytes)) == DecodeDirect(decoders.jpegImageIO, bytes)
  {
  }

  /** Without an exception, the strict decoder's result (null included) is returned unchanged. */
  lemma PrimaryResultKept(decoders: Decoders, bytes: Bytes)
    requires decoders.imageIO(bytes).Decoded?
    ensures ImageFromData(decoders, Some(bytes)) == decoders.imageIO(bytes).image
  {
  }

  /** A non-`IIOException` failure of the strict decoder gives null; the fallback is not tried. */
  lemma OtherFailureGivesNull(decoders: Decoders, bytes: Bytes)
    requires decoders.imageIO(bytes) == DecodeFailed
    ensures ImageFromData(decoders, Some(bytes)).None?
  {
  }

  /** When both decoders reject the data, the result is null. */
  lemma BothRejectGivesNull(decoders: Decoders, bytes: Bytes)
    requires !decoders.imageIO(bytes).Decoded?
    requires !decoders.jpegImageIO(bytes).Decoded?
    ensures ImageFromData(decoders, Some(bytes)).None?
  {
  }

  /** `getArtwork` is null whenever the file, its tag or its artwork is missing. */
  lemma ArtworkMissingGivesNull(p: Parser, audioFileIO: FileRef -> ReadOutcome, decoders: Decoders)
    requires || ReadAudio(p, audioFileIO).ReadFailed?
             || ReadAudio(p, audioFileIO).audioFile.tag.None?
             || !ReadAudio(p, audioFileIO).audioFile.tag.value.firstArtwork.Artwork?
    ensures GetArtwork(p, audioFileIO, decoders).None?
  {
  }
}
