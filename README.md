# Cover art and tag extraction of the FrostWire library view

This project models, in Dafny, the decision and state logic around the
library view's cover art and tag reading:

- **The cover-art panel** (`LibraryCoverArt`): it tracks one file and one
  stored picture. `setFile` ignores a repeated request for the tracked file;
  otherwise it tracks the new file and starts a background extraction. A
  finished extraction is shown only if its file is non-null and still the
  tracked one (last request wins). `setDefault` tracks no file and starts a
  job that shows the picture of whatever file is tracked when it runs.
  `setPrivateImage` stores the default picture in place of null, and
  `updateTheme` applies the stored picture again. Background threads are
  explicit pending jobs (`pending: seq<Job>`); a thread finishing is the
  event `RunJob(k, disk)`, which may happen in any order. The class
  `CoverArt` models the fields and methods. The pure step functions
  `SetFileStep`, `SetDefaultStep`, `RunStep` and `RunAll` specify them, and
  the lemmas are proved about those functions.
- **Picture retrieval** (`retrieveImage`, `retrieveImageFromM4A`): dispatch on
  the lower-cased path suffix (`.mp3`, `.m4a`, other). The data-box flags
  are then read: bit 0 selects JPEG even when bit 1 is also set, and
  otherwise bit 1 selects PNG. Decoding falls back to the tolerant JPEG
  decoder only in the JPEG branch. Every failure ends as null, including a
  failing `close` of the file stream.
- **The jaudiotagger tag parser** (`JaudiotaggerParser`) has four parts:
  - reader selection picks the supplied reader, or `AudioFileIO` when there is none;
  - the field lookup swallows exceptions (`getValueSafe`);
  - `parse` fails only when reading the file, its header or `sanitize` fails;
  - `imageFromData` falls back to the tolerant decoder, and `getArtwork` uses it.
- **The provisional Monova search result**: the details URL built once from
  the item id and file name, and the constant accessors. A null operand
  is written into the URL as the text "null", as Java string concatenation
  does.

Foreign calls are modelled only by their outcomes, each with its own type:
- `ImageIO.read` and `JPEGImageIO.read` give `Decoded`: a normal return of a
  picture or null (null as `Option.None`), `UnsupportedFormat` for
  `IIOException`, or `DecodeFailed` for any other throwable. Only the two
  image decoders have this three-way outcome. They are the function-typed
  fields of `Decoders`.
- `AudioFileIO.read` and a caller-supplied reader's `read` give a
  `ReadOutcome`: `AudioRead` of the opened file, or `ReadFailed` when the call
  throws. `parse` and `getArtwork` do not tell exceptions apart.
  `AudioFileIO.read` is the `audioFileIO` parameter of `Parse` and
  `GetArtwork`; a supplied reader is the `read` field of `AudioFileReader`.
- Inside an opened file, `getFirst` gives a `Lookup` and `getFirstArtwork` gives
  an `ArtworkLookup`. The header and the tag are each possibly null.
- `TagsReader.getArtwork` gives a plain `Option<Image>`, taken never to throw.
- The MP4 box lookup through `IsoFile` and `Path.getPath` gives an `IsoLookup`:
  `ParseFailed`, or `Parsed` with an optional data box. `M4AFile` wraps that
  lookup with `OpenFailed` for a stream that cannot be opened, and with
  `closeThrows` for a `close` that throws.
- The per-file outcomes of `retrieveImage` are the function-typed fields of
  `Disk`.
- The inherited `sanitize` is an abstract parameter that gives a `Sanitized`
  value. It returns a record or null, or `SanitizeThrows`.

Behaviour of the code worth noting, which the model keeps as written:
- The job of `setFile(null)` never shows the default picture. It does compute
  the default, since `retrieveImage(null)` returns it
  (gui/com/frostwire/gui/library/LibraryCoverArt.java:131-132). That result is
  then discarded by the `file != null` guard (gui/com/frostwire/gui/library/LibraryCoverArt.java:100).
  When only `setFile` jobs are pending, the previous picture therefore stays
  after `setFile(null)` however they finish (`NullRequestKeepsPreviousImage`).
  The default picture still appears in other ways:
  - a `setDefault` job applies it when it runs with no file tracked, and also
    when it runs while a file is tracked whose `retrieveImage` gives null;
  - the tracked file's own job applies it when `retrieveImage` gave null, for
    example for an unsupported suffix or a file without artwork;
  - `updateTheme` applies it when no picture is stored yet.
- A repeated `setFile(null)` is not skipped. Each call starts a new job
  (`RepeatedNullRequestLaunchesTwice`).
- The PNG branch has no fallback decoder (`PngBranchHasNoFallback`).

Files: `media.dfy` (shared values and decoder outcomes), `java_strings.dfy`
(`toLowerCase`, `endsWith`, null in concatenation),
`jaudiotagger_parser.dfy`, `library_cover_art.dfy`,
`monova_temp_search_result.dfy`.

## Model

| member | source | states |
|---|---|---|
| Media.DecodeDirect | gui/com/frostwire/gui/library/LibraryCoverArt.java:191 | one decoder call gives its picture when it returns and null when it throws anything |
| JavaStrings.ToLowerCase | gui/com/frostwire/gui/library/LibraryCoverArt.java:136 | the path is lower-cased character by character, keeping its length |
| Jaudiotagger.NewParser | gui/com/frostwire/gui/library/tags/JaudiotaggerParser.java:33-35 | the one-argument constructor keeps the file and passes a null reader |
| Jaudiotagger.ReadAudio | gui/com/frostwire/gui/library/tags/JaudiotaggerParser.java:42 | the supplied reader reads the file when there is one, otherwise `AudioFileIO.read` does |
| Jaudiotagger.DefaultParserUsesAudioFileIO | gui/com/frostwire/gui/library/tags/JaudiotaggerParser.java:28-35 | a parser built without a reader reads through `AudioFileIO` |
| Jaudiotagger.GetValueSafe | gui/com/frostwire/gui/library/tags/JaudiotaggerParser.java:129-139 | the lookup's value when it returns; null when it throws or there is no tag |
| Jaudiotagger.GetTitle | gui/com/frostwire/gui/library/tags/JaudiotaggerParser.java:86-88 | a fault-tolerant lookup of the TITLE key |
| Jaudiotagger.GetArtist | gui/com/frostwire/gui/library/tags/JaudiotaggerParser.java:90-92 | a fault-tolerant lookup of the ARTIST key |
| Jaudiotagger.GetAlbum | gui/com/frostwire/gui/library/tags/JaudiotaggerParser.java:94-96 | a fault-tolerant lookup of the ALBUM key |
| Jaudiotagger.GetComment | gui/com/frostwire/gui/library/tags/JaudiotaggerParser.java:98-100 | a fault-tolerant lookup of the COMMENT key |
| Jaudiotagger.GetGenre | gui/com/frostwire/gui/library/tags/JaudiotaggerParser.java:102-104 | a fault-tolerant lookup of the GENRE key |
| Jaudiotagger.GetTrack | gui/com/frostwire/gui/library/tags/JaudiotaggerParser.java:106-108 | a fault-tolerant lookup of the TRACK key |
| Jaudiotagger.GetYear | gui/com/frostwire/gui/library/tags/JaudiotaggerParser.java:110-112 | a fault-tolerant lookup of the YEAR key |
| Jaudiotagger.RawTagsOf | gui/com/frostwire/gui/library/tags/JaudiotaggerParser.java:44-57 | `sanitize` receives the header's track length and bitrate, then each field as the lookup of its own key |
| Jaudiotagger.GetterQueriesOwnKey | gui/com/frostwire/gui/library/tags/JaudiotaggerParser.java:86-112 | each of the seven getters is `getValueSafe` on its own key: TITLE, ARTIST, ALBUM, COMMENT, GENRE, TRACK, YEAR |
| Jaudiotagger.GetterReadsOnlyItsKey | gui/com/frostwire/gui/library/tags/JaudiotaggerParser.java:86-112 | two tags agreeing on a key give the same value for that key's getter, whatever their other fields hold |
| Jaudiotagger.FailingFieldIsIsolated | gui/com/frostwire/gui/library/tags/JaudiotaggerParser.java:44-57 | a field whose lookup throws reaches `sanitize` as null; the other six fields are still their own lookups; duration and bitrate come from the header |
| Jaudiotagger.Parse | gui/com/frostwire/gui/library/tags/JaudiotaggerParser.java:38-64 | a non-null result means the file was read, had a header, and `sanitize` returned exactly that result for the raw fields |
| Jaudiotagger.ParseOutcomes | gui/com/frostwire/gui/library/tags/JaudiotaggerParser.java:38-64 | null when reading fails, when the header is missing, or when `sanitize` throws; otherwise `sanitize`'s return value |
| Jaudiotagger.ImageFromData | gui/com/frostwire/gui/library/tags/JaudiotaggerParser.java:114-127 | a picture returned comes from the strict decoder, or from the tolerant one after the strict one threw `IIOException`; null data gives null |
| Jaudiotagger.FallbackEqualsSecondDecoder | gui/com/frostwire/gui/library/tags/JaudiotaggerParser.java:117-121 | after an `IIOException` the result equals decoding with the tolerant decoder alone |
| Jaudiotagger.PrimaryResultKept | gui/com/frostwire/gui/library/tags/JaudiotaggerParser.java:118 | when the strict decoder returns, its result, null included, is the result |
| Jaudiotagger.OtherFailureGivesNull | gui/com/frostwire/gui/library/tags/JaudiotaggerParser.java:122-124 | a non-`IIOException` failure of the strict decoder gives null without a fallback |
| Jaudiotagger.BothRejectGivesNull | gui/com/frostwire/gui/library/tags/JaudiotaggerParser.java:116-126 | when both decoders fail the result is null, never an exception |
| Jaudiotagger.GetArtwork | gui/com/frostwire/gui/library/tags/JaudiotaggerParser.java:66-84 | a read file with a tag and a first artwork gives `imageFromData` of that artwork's bytes; a non-null result implies all three are present |
| Jaudiotagger.ArtworkMissingGivesNull | gui/com/frostwire/gui/library/tags/JaudiotaggerParser.java:70-83 | an unreadable file, a missing tag or a missing artwork gives null |
| LibraryCoverArt.FormatOf | gui/com/frostwire/gui/library/LibraryCoverArt.java:136-140 | MP3 exactly when the lower-cased path ends in `.mp3`; M4A exactly when it ends in `.m4a` |
| LibraryCoverArt.FormatOfExtension | gui/com/frostwire/gui/library/LibraryCoverArt.java:136-140 | a path ending in `.mp3` or `.m4a`, in any letter case, selects that kind |
| LibraryCoverArt.FormatIgnoresCase | gui/com/frostwire/gui/library/LibraryCoverArt.java:136-138 | paths equal after lower-casing select the same kind |
| LibraryCoverArt.UnsupportedGivesNull | gui/com/frostwire/gui/library/LibraryCoverArt.java:134-142 | a path with neither suffix is unsupported and gives null, not an error |
| LibraryCoverArt.RetrieveImage | gui/com/frostwire/gui/library/LibraryCoverArt.java:130-133 | no file gives the default picture |
| LibraryCoverArt.RetrieveImageByFormat | gui/com/frostwire/gui/library/LibraryCoverArt.java:136-140 | MP3 files give the tags reader's artwork; M4A files give the M4A cover |
| LibraryCoverArt.BranchOf | gui/com/frostwire/gui/library/LibraryCoverArt.java:186-200 | JPEG exactly when bit 0 is set; PNG exactly when bit 0 is clear and bit 1 set; neither exactly when both are clear |
| LibraryCoverArt.BranchSelection | gui/com/frostwire/gui/library/LibraryCoverArt.java:186-193 | with both low bits set JPEG wins; bit 1 alone selects PNG; bit 0 alone selects JPEG |
| LibraryCoverArt.BranchDependsOnLowBits | gui/com/frostwire/gui/library/LibraryCoverArt.java:186-193 | flags that agree on their two low bits select the same branch |
| LibraryCoverArt.DecodeBranch | gui/com/frostwire/gui/library/LibraryCoverArt.java:186-200 | PNG gives the strict decoder's result, with every exception as null; JPEG gives the strict decoder's result, or the tolerant decoder's after an `IIOException`; a picture needs present bytes and a JPEG or PNG branch |
| LibraryCoverArt.JpegBranchIsImageFromData | gui/com/frostwire/gui/library/LibraryCoverArt.java:186-192 | the JPEG branch decodes exactly as the tag parser's `imageFromData` does |
| LibraryCoverArt.PngBranchHasNoFallback | gui/com/frostwire/gui/library/LibraryCoverArt.java:193-199 | in the PNG branch an `IIOException` gives null, whatever the tolerant decoder would return |
| LibraryCoverArt.ImageFromM4A | gui/com/frostwire/gui/library/LibraryCoverArt.java:165-210 | a file that opened, closed cleanly and has a cover data box gives that box's branch decoding; a picture is returned only in that case |
| LibraryCoverArt.M4AImageProvenance | gui/com/frostwire/gui/library/LibraryCoverArt.java:184-200 | an M4A picture comes from the strict decoder, or from the tolerant one only for a JPEG-flagged box the strict one rejected |
| LibraryCoverArt.M4ANullCases | gui/com/frostwire/gui/library/LibraryCoverArt.java:166-209 | null on open failure, close failure, parse failure, a missing data box, or flags naming neither format |
| LibraryCoverArt.Displayed | gui/com/frostwire/gui/library/LibraryCoverArt.java:145-150 | the stored picture is the image if non-null, else the default, so it is never null when the default exists |
| LibraryCoverArt.CoverArt.constructor | gui/com/frostwire/gui/library/LibraryCoverArt.java:75-78 | the panel starts with no file and no picture, and with one pending `setFile(null)` job |
| LibraryCoverArt.CoverArt.SetFile | gui/com/frostwire/gui/library/LibraryCoverArt.java:92-107 | a repeat of the tracked non-null file changes nothing; otherwise it tracks `f` and appends one job for `f` |
| LibraryCoverArt.CoverArt.SetDefault | gui/com/frostwire/gui/library/LibraryCoverArt.java:109-117 | it tracks no file and appends one default job |
| LibraryCoverArt.CoverArt.SetPrivateImage | gui/com/frostwire/gui/library/LibraryCoverArt.java:145-150 | it stores the image, or the default in place of null |
| LibraryCoverArt.CoverArt.UpdateTheme | gui/com/frostwire/gui/library/LibraryCoverArt.java:212-215 | it applies the stored picture again; a non-null stored picture is unchanged |
| LibraryCoverArt.CoverArt.RunJob | gui/com/frostwire/gui/library/LibraryCoverArt.java:97-116 | running a pending job removes it and applies its picture by the last-request-wins rule (see `RunStep`) |
| LibraryCoverArt.RepeatedRequestIsIdempotent | gui/com/frostwire/gui/library/LibraryCoverArt.java:93-95 | `setFile(f)` twice with a non-null `f` equals once, and launches at most one job |
| LibraryCoverArt.RepeatedNullRequestLaunchesTwice | gui/com/frostwire/gui/library/LibraryCoverArt.java:93-106 | `setFile(null)` twice launches two jobs |
| LibraryCoverArt.NewRequestLaunchesOneJob | gui/com/frostwire/gui/library/LibraryCoverArt.java:96-106 | a non-repeat request tracks `f`, keeps the picture, and appends exactly one job for `f` |
| LibraryCoverArt.StaleResultDiscarded | gui/com/frostwire/gui/library/LibraryCoverArt.java:99-102 | a finished job for a file that is no longer tracked leaves the picture and the tracked file alone |
| LibraryCoverArt.NullRequestNeverApplied | gui/com/frostwire/gui/library/LibraryCoverArt.java:100 | the job of `setFile(null)` never changes the picture |
| LibraryCoverArt.CurrentResultApplied | gui/com/frostwire/gui/library/LibraryCoverArt.java:99-102 | a finished job for the tracked non-null file stores that file's picture, or the default for null |
| LibraryCoverArt.DefaultJobUsesFileAtRunTime | gui/com/frostwire/gui/library/LibraryCoverArt.java:111-116 | a default job stores the picture of the file tracked when it runs, unconditionally; with no file tracked that is the default |
| LibraryCoverArt.ImageStaysPresent | gui/com/frostwire/gui/library/LibraryCoverArt.java:145-150 | once a picture is stored and a default exists, no event leaves null; `updateTheme` keeps a stored picture |
| LibraryCoverArt.RunStepShowsTrackedFile | gui/com/frostwire/gui/library/LibraryCoverArt.java:97-116 | one finished job keeps the tracked file and either keeps the picture or stores the tracked file's picture |
| LibraryCoverArt.LastRequestWins | gui/com/frostwire/gui/library/LibraryCoverArt.java:92-117 | in any finishing order, with no new request, the tracked file is unchanged and the picture is the old one or the tracked file's own |
| LibraryCoverArt.RequestThenCompletions | gui/com/frostwire/gui/library/LibraryCoverArt.java:92-107 | after `setFile(f)` and any finishing jobs, the picture is the previous one or `f`'s own, never an earlier request's |
| LibraryCoverArt.NullRequestKeepsPreviousImage | gui/com/frostwire/gui/library/LibraryCoverArt.java:92-103 | with no file tracked and only `setFile` jobs pending, the picture never changes |
| MonovaSearch.NewMonovaTempSearchResult | common/components/core/com/frostwire/search/monova/MonovaTempSearchResult.java:35-38 | keeps the item id; the URL is the prefix, the item id, then "/", the file name and ".html", with null written as "null" |
| MonovaSearch.GetItemId | common/components/core/com/frostwire/search/monova/MonovaTempSearchResult.java:40-42 | returns the stored item id |
| MonovaSearch.GetDetailsUrl | common/components/core/com/frostwire/search/monova/MonovaTempSearchResult.java:49-52 | returns the stored details URL |
| MonovaSearch.ItemIdKept | common/components/core/com/frostwire/search/monova/MonovaTempSearchResult.java:35-42 | `getItemId` returns the constructor's item id unchanged |
| MonovaSearch.GetDisplayName | common/components/core/com/frostwire/search/monova/MonovaTempSearchResult.java:45-47 | always null |
| MonovaSearch.GetSource | common/components/core/com/frostwire/search/monova/MonovaTempSearchResult.java:55-57 | always "Monova" |
| MonovaSearch.IsComplete | common/components/core/com/frostwire/search/monova/MonovaTempSearchResult.java:60-62 | always false |
| MonovaSearch.DetailsUrlRoundTrip | common/components/core/com/frostwire/search/monova/MonovaTempSearchResult.java:37 | for an item id whose text has no '/', the item id's text and the file name's text can both be read back from the details URL; a null operand reads back as "null" |
| MonovaSearch.DetailsUrlInjective | common/components/core/com/frostwire/search/monova/MonovaTempSearchResult.java:37 | for item ids whose text has no '/', equal details URLs mean equal item-id texts and equal file-name texts |
| MonovaSearch.NullItemIdCollides | common/components/core/com/frostwire/search/monova/MonovaTempSearchResult.java:36-37 | a null item id and the item id "null" give the same details URL, while `getItemId` still tells them apart |

## Left out

- MP4 box parsing is not modelled. This covers `IsoFile`, `PropertyBoxParserImpl` and `Path.getPath(..., "/moov/udta/meta/ilst/covr/data")`, which are library code. Their effect is an abstract `IsoLookup`: the lookup threw, or it gave an optional data box with a flags word and a payload.
- Image decoding is not modelled. `ImageIO.read` and `JPEGImageIO.read` are foreign; each call is an abstract `Decoded` outcome.
- jaudiotagger is not modelled. `AudioFileIO.read`, `getAudioHeader`, `getTag`, `getFirst` and `getFirstArtwork` are foreign; their results are abstract outcomes.
- `TagsReader` is not part of this model. Its `getArtwork` is an abstract per-file picture and is taken never to throw.
- `sanitize` (in `AbstractTagParser`, not part of this model) is an abstract parameter that returns a record, returns null, or throws.
- The Java memory model and thread scheduling are not modelled. A job runs atomically: it retrieves the picture, checks the tracked file and stores the result in one step. In Java the check (gui/com/frostwire/gui/library/LibraryCoverArt.java:100) and the store (:101) are separate steps, as are the read of `file` (:113) and the store (:114) in a `setDefault` job. Under real threads a request can therefore arrive between them, and a stale picture can overwrite a newer one. `LastRequestWins` and `RequestThenCompletions` hold only for the one-event-per-job model. The unsynchronised `file` field is not captured either.
- Swing and AWT are left out: drawing into `background`, rendering hints, `paint`, `repaint`, `getToolkit().sync()`, the component listener, theme-observer registration and theme image loading. The default picture is a constructor parameter.
- File handles are not modelled. Only whether `close` throws is kept, because a throwing `close` turns any M4A result into null.
- Logging is left out.
- The base class `AbstractSearchResult` is not part of this model.
- Java `Error`s, which `catch (Exception)` in `parse`, `getArtwork` and `getValueSafe` would not catch, are not distinguished from exceptions: every foreign failure is treated as caught.
- JavaStrings.ToLowerCase: lower-cases ASCII letters only, because locale-dependent Unicode case mapping is outside the model.
- File equality is equality of the absolute path. Java's `File.equals` compares the pathname as given. A relative and an absolute `File` for the same file are therefore unequal in the checks at gui/com/frostwire/gui/library/LibraryCoverArt.java:93 and :100, but equal in the model. Platform rules such as case-insensitive paths on Windows are not modelled either.
- LibraryCoverArt.RunAll: a completion naming no pending job does nothing, since each job finishes once.
- A general MP4 box-container reader and the trimming done by `sanitize` are not modelled. Neither is in the source files modelled here.
