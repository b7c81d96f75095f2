/**
 * The cover-art panel of the library view: which picture it shows for the
 * file the user selected, how that picture is extracted from MP3 and M4A
 * files, and the rule that only the latest request's result is shown.
 *
 * The panel starts one background thread per request. Here a thread is an
 * explicit pending job, and its finishing is a separate event (`RunJob`);
 * the order in which events happen is left free.
 */
module LibraryCoverArt {
  import opened Media
  import opened JavaStrings
  import Jaudiotagger

  // ---------------------------------------------------------------------
  // Extension dispatch

  /** The file kinds `retrieveImage` tells apart. */
  datatype Format = Mp3 | M4a | Unsupported

  /** The kind of a file, from the lower-cased suffix of its path. */
  function FormatOf(absolutePath: string): (r: Format)
    ensures r == Mp3 <==> EndsWith(ToLowerCase(absolutePath), ".mp3")
    ensures r == M4a <==> EndsWith(ToLowerCase(absolutePath), ".m4a")
  {
    var path := ToLowerCase(absolutePath);
    if EndsWith(path, ".mp3") then Mp3
    else if EndsWith(path, ".m4a") then
      assert path[|path| - 4..][2] == '4';
      M4a
    else Unsupported
  }

  // ---------------------------------------------------------------------
  // M4A cover art

  /** The cover data box: its flags word and its payload (possibly null). */
  datatype DataBox = DataBox(flags: bv32, data: Option<Bytes>)

  /**
   * What parsing the MP4 box tree and resolving
   * `/moov/udta/meta/ilst/covr/data` does: it throws, or yields the data box
   * or null.
   */
  datatype IsoLookup = ParseFailed | Parsed(coverData: Option<DataBox>)

  /**
   * An M4A file as `retrieveImageFromM4A` meets it: opening it may fail;
   * once open, the box lookup runs and the stream is closed, which may
   * itself throw.
   */
  datatype M4AFile = OpenFailed | Opened(iso: IsoLookup, closeThrows: bool)

  /** The payload branches of the data box. */
  datatype Branch = JpegBranch | PngBranch | NoBranch

  /** Bit 0 of the flags selects JPEG, even when bit 1 is set; otherwise bit 1 selects PNG. */
  function BranchOf(flags: bv32): (r: Branch)
    ensures r == JpegBranch <==> flags & 1 == 1
    ensures r == PngBranch <==> flags & 1 == 0 && flags & 2 == 2
    ensures r == NoBranch <==> flags & 3 == 0
  {
    if flags & 1 == 1 then JpegBranch
    else if flags & 2 == 2 then PngBranch
    else NoBranch
  }

  /**
   * Decoding the payload of the selected branch. Only the JPEG branch falls
   * back to the tolerant decoder; a failure of the fallback, and every other
   * failure, ends as null.
   */
  function DecodeBranch(branch: Branch, decoders: Decoders, data: Option<Bytes>): (r: Option<Image>)
    ensures r.Some? ==> data.Some? && branch != NoBranch
    ensures branch == PngBranch && data.Some? ==> r == DecodeDirect(decoders.imageIO, data.value)
    ensures branch == JpegBranch && data.Some? && !decoders.imageIO(data.value).UnsupportedFormat? ==>
              r == DecodeDirect(decoders.imageIO, data.value)
    ensures branch == JpegBranch && data.Some? && decoders.imageIO(data.value).UnsupportedFormat? ==>
              r == DecodeDirect(decoders.jpegImageIO, data.value)
  {
    match data
    case None => None
    case Some(bytes) =>
      match branch
      case JpegBranch =>
        (match decoders.imageIO(bytes)
         case Decoded(image) => image
         case UnsupportedFormat => DecodeDirect(decoders.jpegImageIO, bytes)
         case DecodeFailed => None)
      case PngBranch =>
        (match decoders.imageIO(bytes)
         case Decoded(image) => image
         case UnsupportedFormat => None
         case DecodeFailed => None)
      case NoBranch => None
  }

  /**
   * `retrieveImageFromM4A`: the decoded cover of an M4A file, or null when
   * anything along the way fails, the cover box is missing or its flags name
   * neither JPEG nor PNG. A failing close replaces any result by null.
   */
  function ImageFromM4A(m: M4AFile, decoders: Decoders): (r: Option<Image>)
    ensures r.Some? ==>
      && m.Opened? && !m.closeThrows
      && m.iso.Parsed? && m.iso.coverData.Some?
    ensures m.Opened? && !m.closeThrows && m.iso.Parsed? && m.iso.coverData.Some? ==>
      r == DecodeBranch(BranchOf(m.iso.coverData.value.flags), decoders, m.iso.coverData.value.data)
  {
    match m
    case OpenFailed => None
    case Opened(iso, closeThrows) =>
      if closeThrows then None
      else
        match iso
        case ParseFailed => None
        case Parsed(None) => None
        case Parsed(Some(box)) => DecodeBranch(BranchOf(box.flags), decoders, box.data)
  }

  // ---------------------------------------------------------------------
  // retrieveImage and setPrivateImage

  /**
   * The outcomes of the foreign calls `retrieveImage` makes, per file:
   * the MP3 tags reader's artwork, the M4A file's contents, and the decoders.
   */
  datatype Disk = Disk(tagsArtwork: FileRef -> Option<Image>, m4a: FileRef -> M4AFile, decoders: Decoders)

  /**
   * `retrieveImage`: the default picture for no file, the tags reader's
   * artwork for `.mp3`, the M4A cover for `.m4a`, and null for any other
   * suffix.
   */
  function RetrieveImage(defaultArt: Option<Image>, file: Option<FileRef>, disk: Disk): (r: Option<Image>)
    ensures file.None? ==> r == defaultArt
  {
    match file
    case None => defaultArt
    case Some(f) =>
      match FormatOf(f.absolutePath)
      case Mp3 => disk.tagsArtwork(f)
      case M4a => ImageFromM4A(disk.m4a(f), disk.decoders)
      case Unsupported => None
  }

  /** The picture `setPrivateImage(image)` stores: the image itself, or the default for null. */
  function Displayed(image: Option<Image>, defaultArt: Option<Image>): (r: Option<Image>)
    ensures image.Some? ==> r == image
    ensures image.None? ==> r == defaultArt
    ensures defaultArt.Some? ==> r.Some?
  {
    if image.None? then defaultArt else image
  }

  // ---------------------------------------------------------------------
  // The coordinator as a state machine

  /**
   * A launched background job: `setFile`'s captures the requested file,
   * `setDefault`'s reads the tracked file only when it runs.
   */
  datatype Job = FileJob(target: Option<FileRef>) | DefaultJob

  /** The panel's state: the tracked file, the stored picture, and the jobs still running. */
  datatype Coord = Coord(file: Option<FileRef>, image: Option<Image>, pending: seq<Job>)

  /** `setFile(f)` ignores a request for the (non-null) file already tracked. */
  predicate IsRepeat(s: Coord, f: Option<FileRef>)
  {
    s.file.Some? && f.Some? && s.file == f
  }

  /** The state after `setFile(f)`. */
  function SetFileStep(s: Coord, f: Option<FileRef>): Coord
  {
    if IsRepeat(s, f) then s else Coord(f, s.image, s.pending + [FileJob(f)])
  }

  /** The state after `setDefault()`. */
  function SetDefaultStep(s: Coord): Coord
  {
    Coord(None, s.image, s.pending + [DefaultJob])
  }

  /** The state after `updateTheme()`: the stored picture is applied again. */
  function UpdateThemeStep(s: Coord, defaultArt: Option<Image>): Coord
  {
    s.(image := Displayed(s.image, defaultArt))
  }

  /** `pending` without its `k`-th job. */
  function RemoveAt(jobs: seq<Job>, k: nat): (r: seq<Job>)
    requires k < |jobs|
    ensures |r| == |jobs| - 1
    ensures forall i :: 0 <= i < k ==> r[i] == jobs[i]
    ensures forall i :: k <= i < |r| ==> r[i] == jobs[i + 1]
  {
    jobs[..k] + jobs[k + 1..]
  }

  /**
   * The state after pending job `k` runs to completion against `disk`.
   * A `setFile` job applies its picture only if its file is non-null and
   * still the tracked one; a `setDefault` job always applies the picture of
   * whatever file is tracked when it runs.
   */
  function RunStep(s: Coord, k: nat, defaultArt: Option<Image>, disk: Disk): Coord
    requires k < |s.pending|
  {
    var rest := RemoveAt(s.pending, k);
    match s.pending[k]
    case FileJob(target) =>
      if target.Some? && target == s.file
      then Coord(s.file, Displayed(RetrieveImage(defaultArt, target, disk), defaultArt), rest)
      else Coord(s.file, s.image, rest)
    case DefaultJob =>
      Coord(s.file, Displayed(RetrieveImage(defaultArt, s.file, disk), defaultArt), rest)
  }

  /** One thread finishing: the job it ran and what the file system held then. */
  datatype Completion = Completion(job: nat, disk: Disk)

  /**
   * Threads finishing in the given order with no request in between.
   * A completion that names no pending job does nothing: each job finishes once.
   */
  function RunAll(s: Coord, defaultArt: Option<Image>, cs: seq<Completion>): Coord
    decreases |cs|
  {
    if cs == [] then s
    else
      var next := if cs[0].job < |s.pending| then RunStep(s, cs[0].job, defaultArt, cs[0].disk) else s;
      RunAll(next, defaultArt, cs[1..])
  }

  // ---------------------------------------------------------------------
  // The panel itself

  class CoverArt {
    const defaultCoverArt: Option<Image>
    var coverArtImage: Option<Image>
    var file: Option<FileRef>
    /** The background jobs launched and not yet finished. */
    var pending: seq<Job>

    function State(): Coord
      reads this
    {
      Coord(file, coverArtImage, pending)
    }

    /** The panel starts tracking no file, with no picture, after a `setFile(null)`. */
    constructor (defaultCoverArt: Option<Image>)
      ensures this.defaultCoverArt == defaultCoverArt
      ensures State() == SetFileStep(Coord(None, None, []), None)
      ensures file.None? && coverArtImage.None? && pending == [FileJob(None)]
    {
      this.defaultCoverArt := defaultCoverArt;
      coverArtImage := None;
      file := None;
      pending := [];
      new;
      SetFile(None);
    }

    /** `setFile`: ignore a repeat, else track `f` and launch one extraction for it. */
    method SetFile(f: Option<FileRef>)
      modifies this
      ensures State() == SetFileStep(old(State()), f)
      ensures IsRepeat(old(State()), f) ==> unchanged(this)
      ensures !IsRepeat(old(State()), f) ==>
        file == f && coverArtImage == old(coverArtImage) && pending == old(pending) + [FileJob(f)]
    {
      if file.Some? && f.Some? && file.value == f.value {
        return;
      }
      file := f;
      pending := pending + [FileJob(f)];
    }

    /** `setDefault`: track no file and launch a job that reads the tracked file when it runs. */
    method SetDefault()
      modifies this
      ensures State() == SetDefaultStep(old(State()))
      ensures file.None? && coverArtImage == old(coverArtImage) && pending == old(pending) + [DefaultJob]
    {
      file := None;
      pending := pending + [DefaultJob];
    }

    /** `setPrivateImage`: store the picture, the default in place of null. */
    method SetPrivateImage(image: Option<Image>)
      modifies this`coverArtImage
      ensures coverArtImage == Displayed(image, defaultCoverArt)
    {
      coverArtImage := image;
      if coverArtImage.None? {
        coverArtImage := defaultCoverArt;
      }
    }

    /** `updateTheme`: apply the stored picture again. */
    method UpdateTheme()
      modifies this`coverArtImage
      ensures State() == UpdateThemeStep(old(State()), defaultCoverArt)
      ensures old(coverArtImage).Some? ==> coverArtImage == old(coverArtImage)
    {
      SetPrivateImage(coverArtImage);
    }

    /** The background thread of pending job `k` runs to its end. */
    method RunJob(k: nat, disk: Disk)
      requires k < |pending|
      modifies this
      ensures State() == RunStep(old(State()), k, defaultCoverArt, disk)
    {
      var job := pending[k];
      pending := pending[..k] + pending[k + 1..];
      match job
      case FileJob(target) =>
        var image := RetrieveImage(defaultCoverArt, target, disk);
        if target.Some? && target == file {
          SetPrivateImage(image);
        }
      case DefaultJob =>
        var image := RetrieveImage(defaultCoverArt, file, disk);
        SetPrivateImage(image);
    }
  }

  // ---------------------------------------------------------------------
  // Properties of extension dispatch and M4A decoding

  /** A path ending in `ext` (any letter case) selects the kind `ext` names. */
  lemma FormatOfExtension(stem: string, ext: string)
    requires ToLowerCase(ext) == ".mp3" || ToLowerCase(ext) == ".m4a"
    ensures ToLowerCase(ext) == ".mp3" ==> FormatOf(stem + ext) == Mp3
    ensures ToLowerCase(ext) == ".m4a" ==> FormatOf(stem + ext) == M4a
  {
    LowerAppend(stem, ext);
    EndsWithAppend(ToLowerCase(stem), ToLowerCase(ext));
    var path := ToLowerCase(stem + ext);
    assert path[|path| - 4..] == ToLowerCase(ext);
  }

  /** The kind depends only on the lower-cased path. */
  lemma FormatIgnoresCase(p: string, q: string)
    requires ToLowerCase(p) == ToLowerCase(q)
    ensures FormatOf(p) == FormatOf(q)
  {
  }

  /** A path whose lower-cased form ends in neither suffix is unsupported, which yields null, not an error. */
  lemma UnsupportedGivesNull(defaultArt: Option<Image>, f: FileRef, disk: Disk)
    requires !EndsWith(ToLowerCase(f.absolutePath), ".mp3")
    requires !EndsWith(ToLowerCase(f.absolutePath), ".m4a")
    ensures FormatOf(f.absolutePath) == Unsupported
    ensures RetrieveImage(defaultArt, Some(f), disk).None?
  {
  }

  /** `retrieveImage` by kind: MP3 files give the tags reader's artwork, M4A files the M4A cover. */
  lemma RetrieveImageByFormat(defaultArt: Option<Image>, f: FileRef, disk: Disk)
    ensures FormatOf(f.absolutePath) == Mp3 ==> RetrieveImage(defaultArt, Some(f), disk) == disk.tagsArtwork(f)
    ensures FormatOf(f.absolutePath) == M4a ==>
              RetrieveImage(defaultArt, Some(f), disk) == ImageFromM4A(disk.m4a(f), disk.decoders)
  {
  }

  /** With both low bits set, JPEG wins; bit 1 alone selects PNG. */
  lemma BranchSelection(flags: bv32)
    ensures flags & 3 == 3 ==> BranchOf(flags) == JpegBranch
    ensures flags & 3 == 2 ==> BranchOf(flags) == PngBranch
    ensures flags & 3 == 1 ==> BranchOf(flags) == JpegBranch
  {
  }

  /** Only the two low bits of the flags affect the branch. */
  lemma BranchDependsOnLowBits(f: bv32, g: bv32)
    requires f & 3 == g & 3
    ensures BranchOf(f) == BranchOf(g)
  {
    assert f & 1 == (f & 3) & 1 && f & 2 == (f & 3) & 2;
    assert g & 1 == (g & 3) & 1 && g & 2 == (g & 3) & 2;
  }

  /** The JPEG branch decodes exactly as the tag parser's `imageFromData` does. */
  lemma JpegBranchIsImageFromData(decoders: Decoders, data: Option<Bytes>)
    ensures DecodeBranch(JpegBranch, decoders, data) == Jaudiotagger.ImageFromData(decoders, data)
  {
  }

  /** The PNG branch never falls back: an `IIOException` gives null whatever the tolerant decoder would do. */
  lemma PngBranchHasNoFallback(decoders: Decoders, bytes: Bytes)
    requires decoders.imageIO(bytes) == UnsupportedFormat
    ensures DecodeBranch(PngBranch, decoders, Some(bytes)).None?
  {
  }

  /**
   * A cover picture from an M4A file came from a decoder: the strict one,
   * or — only for a JPEG-flagged box rejected as unsupported — the tolerant one.
   */
  lemma M4AImageProvenance(m: M4AFile, decoders: Decoders, image: Image)
    requires ImageFromM4A(m, decoders) == Some(image)
    ensures m.Opened? && m.iso.Parsed? && m.iso.coverData.Some? && m.iso.coverData.value.data.Some?
    ensures var box := m.iso.coverData.value;
            || decoders.imageIO(box.data.value) == Decoded(Some(image))
            || (BranchOf(box.flags) == JpegBranch &&
                decoders.imageIO(box.data.value) == UnsupportedFormat &&
                decoders.jpegImageIO(box.data.value) == Decoded(Some(image)))
  {
    var box := m.iso.coverData.value;
    assert DecodeBranch(BranchOf(box.flags), decoders, box.data) == Some(image);
  }

  /** The M4A cases that give null regardless of the decoders. */
  lemma M4ANullCases(m: M4AFile, decoders: Decoders)
    ensures m.OpenFailed? ==> ImageFromM4A(m, decoders).None?
    ensures m.Opened? && m.closeThrows ==> ImageFromM4A(m, decoders).None?
    ensures m.Opened? && m.iso.ParseFailed? ==> ImageFromM4A(m, decoders).None?
    ensures m.Opened? && m.iso == Parsed(None) ==> ImageFromM4A(m, decoders).None?
    ensures m.Opened? && m.iso.Parsed? && m.iso.coverData.Some? && BranchOf(m.iso.coverData.value.flags) == NoBranch ==>
              ImageFromM4A(m, decoders).None?
  {
  }

  // ---------------------------------------------------------------------
  // Properties of the coordinator

  /** A repeated `setFile(f)` for a non-null `f` launches nothing more: at most one extraction in all. */
  lemma RepeatedRequestIsIdempotent(s: Coord, f: Option<FileRef>)
    requires f.Some?
    ensures SetFileStep(SetFileStep(s, f), f) == SetFileStep(s, f)
    ensures |SetFileStep(SetFileStep(s, f), f).pending| <= |s.pending| + 1
  {
  }

  /** A repeated `setFile(null)` is not skipped: each call launches its own extraction. */
  lemma RepeatedNullRequestLaunchesTwice(s: Coord)
    ensures SetFileStep(SetFileStep(s, None), None).pending == s.pending + [FileJob(None), FileJob(None)]
  {
  }

  /** Any request that is not a repeat tracks the new file and launches exactly one job for it. */
  lemma NewRequestLaunchesOneJob(s: Coord, f: Option<FileRef>)
    requires !IsRepeat(s, f)
    ensures SetFileStep(s, f).file == f
    ensures SetFileStep(s, f).pending == s.pending + [FileJob(f)]
    ensures SetFileStep(s, f).image == s.image
  {
  }

  /** A finished `setFile` job whose file is no longer tracked changes nothing but the job list. */
  lemma StaleResultDiscarded(s: Coord, k: nat, defaultArt: Option<Image>, disk: Disk)
    requires k < |s.pending| && s.pending[k].FileJob? && s.pending[k].target != s.file
    ensures RunStep(s, k, defaultArt, disk).file == s.file
    ensures RunStep(s, k, defaultArt, disk).image == s.image
  {
  }

  /** The job of `setFile(null)` is never applied, even while no file is tracked. */
  lemma NullRequestNeverApplied(s: Coord, k: nat, defaultArt: Option<Image>, disk: Disk)
    requires k < |s.pending| && s.pending[k] == FileJob(None)
    ensures RunStep(s, k, defaultArt, disk).image == s.image
  {
  }

  /** A finished `setFile` job for the tracked file stores that file's picture (the default for null). */
  lemma CurrentResultApplied(s: Coord, k: nat, defaultArt: Option<Image>, disk: Disk)
    requires k < |s.pending| && s.file.Some? && s.pending[k] == FileJob(s.file)
    ensures RunStep(s, k, defaultArt, disk).image == Displayed(RetrieveImage(defaultArt, s.file, disk), defaultArt)
  {
  }

  /** A `setDefault` job applies the picture of the file tracked when it runs, unconditionally. */
  lemma DefaultJobUsesFileAtRunTime(s: Coord, k: nat, defaultArt: Option<Image>, disk: Disk)
    requires k < |s.pending| && s.pending[k] == DefaultJob
    ensures RunStep(s, k, defaultArt, disk).image == Displayed(RetrieveImage(defaultArt, s.file, disk), defaultArt)
    ensures s.file.None? ==> RunStep(s, k, defaultArt, disk).image == defaultArt
  {
  }

  /** Once a picture is stored and the default exists, no step stores null. */
  lemma ImageStaysPresent(s: Coord, k: nat, defaultArt: Option<Image>, disk: Disk, f: Option<FileRef>)
    requires defaultArt.Some? && s.image.Some?
    ensures k < |s.pending| ==> RunStep(s, k, defaultArt, disk).image.Some?
    ensures SetFileStep(s, f).image.Some? && SetDefaultStep(s).image.Some?
    ensures UpdateThemeStep(s, defaultArt).image == s.image
  {
  }

  /** One finished job either leaves the picture alone or stores the tracked file's picture. */
  lemma RunStepShowsTrackedFile(s: Coord, k: nat, defaultArt: Option<Image>, disk: Disk)
    requires k < |s.pending|
    ensures RunStep(s, k, defaultArt, disk).file == s.file
    ensures |RunStep(s, k, defaultArt, disk).pending| == |s.pending| - 1
    ensures || RunStep(s, k, defaultArt, disk).image == s.image
            || RunStep(s, k, defaultArt, disk).image == Displayed(RetrieveImage(defaultArt, s.file, disk), defaultArt)
  {
  }

  /**
   * Last request wins: however the running jobs finish, as long as no new
   * request arrives the tracked file stays put and the stored picture is
   * either the one from before or the tracked file's own picture as some
   * finishing job retrieved it — never the picture of an earlier request.
   */
  lemma {:induction false} LastRequestWins(s: Coord, defaultArt: Option<Image>, cs: seq<Completion>)
    ensures RunAll(s, defaultArt, cs).file == s.file
    ensures var r := RunAll(s, defaultArt, cs).image;
            || r == s.image
            || exists j :: 0 <= j < |cs| && r == Displayed(RetrieveImage(defaultArt, s.file, cs[j].disk), defaultArt)
    decreases |cs|
  {
    if cs != [] {
      var next := if cs[0].job < |s.pending| then RunStep(s, cs[0].job, defaultArt, cs[0].disk) else s;
      if cs[0].job < |s.pending| {
        RunStepShowsTrackedFile(s, cs[0].job, defaultArt, cs[0].disk);
      }
      LastRequestWins(next, defaultArt, cs[1..]);
      var r := RunAll(s, defaultArt, cs).image;
      assert r == RunAll(next, defaultArt, cs[1..]).image;
      if r != next.image {
        var j :| 0 <= j < |cs[1..]| && r == Displayed(RetrieveImage(defaultArt, s.file, cs[1..][j].disk), defaultArt);
        assert cs[1..][j] == cs[j + 1];
      }
    }
  }

  /**
   * After `setFile(f)`, with no later request, the picture shown is either
   * the previous one or `f`'s own picture, whatever stale jobs finish.
   */
  lemma RequestThenCompletions(s: Coord, f: Option<FileRef>, defaultArt: Option<Image>, cs: seq<Completion>)
    ensures var t := RunAll(SetFileStep(s, f), defaultArt, cs);
            && t.file == f
            && (|| t.image == s.image
                || exists j :: 0 <= j < |cs| && t.image == Displayed(RetrieveImage(defaultArt, f, cs[j].disk), defaultArt))
  {
    LastRequestWins(SetFileStep(s, f), defaultArt, cs);
  }

  /**
   * `setFile(null)` does not bring back the default picture: when only
   * `setFile` jobs are pending, the previous picture stays, however they finish.
   */
  lemma {:induction false} NullRequestKeepsPreviousImage(s: Coord, defaultArt: Option<Image>, cs: seq<Completion>)
    requires s.file.None?
    requires forall i :: 0 <= i < |s.pending| ==> s.pending[i].FileJob?
    ensures RunAll(s, defaultArt, cs).image == s.image
    decreases |cs|
  {
    if cs != [] {
      var next := if cs[0].job < |s.pending| then RunStep(s, cs[0].job, defaultArt, cs[0].disk) else s;
      if cs[0].job < |s.pending| {
        var rest := RemoveAt(s.pending, cs[0].job);
        assert next.pending == rest;
        assert forall i :: 0 <= i < |rest| ==> rest[i].FileJob? by {
          forall i | 0 <= i < |rest| ensures rest[i].FileJob? {
            if i < cs[0].job { assert rest[i] == s.pending[i]; } else { assert rest[i] == s.pending[i + 1]; }
          }
        }
      }
      NullRequestKeepsPreviousImage(next, defaultArt, cs[1..]);
    }
  }
}
