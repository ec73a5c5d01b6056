/**
 * Validation and error classification around an extraction
 * (meme_search/image_to_text_generator/app/image_to_text_generator.py).
 * The file system and the model are oracle inputs: what the file probes
 * report, whether selecting and downloading the model raised, and what the
 * model's `extract` returned or raised.
 */
module ImageToTextGenerator {
  import opened Wrappers
  import opened Errors

  /** What `os.path.getsize` gives: a size, or an OSError. */
  datatype SizeProbe = Bytes(n: nat) | StatFailed(reason: string)

  /** What opening and verifying the file as an image gives. */
  datatype ImageProbe = Verifies | Unidentified | Unreadable(reason: string)

  datatype FileInfo = FileInfo(present: bool, size: SizeProbe, image: ImageProbe)

  /** Whether `model_selector(name)` and `.download()` returned or raised. */
  datatype DownloadOutcome = Downloaded | DownloadRaised(reason: string)

  /** What the model's `extract(path)` returned or raised. */
  datatype InferOutcome =
    | Text(text: string)
    | RaisedPermanent(pmessage: string)
    | RaisedTransient(tmessage: string)
    | RaisedMemory(mreason: string)
    | RaisedOther(oreason: string)

  /** The outcome of `image_to_text`, and the seconds it paused on the way. */
  datatype Call = Call(outcome: Result<string, Raised>, pauses: seq<nat>)

  const TestModel := "test"
  const TestPause: nat := 5

  /**
   * `validate_image`: existence, then size, then readability, each failing
   * with a PermanentError. An OSError from the size probe is not caught and
   * escapes as itself.
   */
  function ValidateImage(path: string, f: FileInfo): (r: Option<Raised>)
    ensures !f.present ==> r == Some(Permanent("Image file not found: " + path))
    ensures r.Some? && !r.value.Permanent? ==> f.present && f.size.StatFailed?
    ensures r.None? <==> f.present && f.size.Bytes? && f.size.n <= MaxImageSizeBytes && f.image.Verifies?
    ensures f.present && f.size.StatFailed? ==> r == Some(Other(f.size.reason))
    ensures f.present && f.size.Bytes? && f.size.n > MaxImageSizeBytes ==> r == Some(Permanent(TooLargeMessage))
    ensures f.present && f.size.Bytes? && f.size.n <= MaxImageSizeBytes && f.image.Unidentified? ==>
              r == Some(Permanent("Invalid or corrupt image file: " + path))
    ensures f.present && f.size.Bytes? && f.size.n <= MaxImageSizeBytes && f.image.Unreadable? ==>
              r == Some(Permanent("Cannot read image file: " + path + " - " + f.image.reason))
  {
    if !f.present then Some(Permanent("Image file not found: " + path))
    else match f.size
      case StatFailed(e) => Some(Other(e))
      case Bytes(n) =>
        if n > MaxImageSizeBytes then Some(Permanent(TooLargeMessage))
        else match f.image
          case Verifies => None
          case Unidentified => Some(Permanent("Invalid or corrupt image file: " + path))
          case Unreadable(e) => Some(Permanent("Cannot read image file: " + path + " - " + e))
  }

  /** The too-large message; the MB figures it carries are float formatting and are not modelled. */
  const TooLargeMessage := "Image file too large"

  /** `download_model`: every failure to select or download becomes a TransientError. */
  function DownloadModel(model: string, d: DownloadOutcome): (r: Result<string, Raised>)
    ensures r.Success? <==> d.Downloaded?
    ensures r.Success? ==> r.value == model
    ensures r.Failure? ==> r.error == Transient("Model download failed: " + d.reason)
  {
    match d
    case Downloaded => Success(model)
    case DownloadRaised(e) => Failure(Transient("Model download failed: " + e))
  }

  /** The handlers around `extract`: custom errors pass through, the rest become TransientError. */
  function Classify(i: InferOutcome): (r: Result<string, Raised>)
    ensures r.Success? <==> i.Text?
    ensures r.Success? ==> r.value == i.text
    ensures i.RaisedPermanent? ==> r == Failure(Permanent(i.pmessage))
    ensures i.RaisedTransient? ==> r == Failure(Transient(i.tmessage))
    ensures i.RaisedMemory? ==> r == Failure(Transient("Out of memory processing image: " + i.mreason))
    ensures i.RaisedOther? ==> r == Failure(Transient("Image processing failed: " + i.oreason))
    ensures r.Failure? ==> (r.error.Permanent? <==> i.RaisedPermanent?) && !r.error.Other?
  {
    match i
    case Text(t) => Success(t)
    case RaisedPermanent(m) => Failure(Permanent(m))
    case RaisedTransient(m) => Failure(Transient(m))
    case RaisedMemory(e) => Failure(Transient("Out of memory processing image: " + e))
    case RaisedOther(e) => Failure(Transient("Image processing failed: " + e))
  }

  /**
   * `image_to_text`: validation outside the try block, so its error escapes
   * unchanged; then download, the 5-second pause for the "test" model, and
   * extraction, with their errors classified.
   */
  function ImageToText(path: string, model: string, f: FileInfo, d: DownloadOutcome, i: InferOutcome): (c: Call)
    ensures ValidateImage(path, f).Some? ==> c == Call(Failure(ValidateImage(path, f).value), [])
    ensures c.outcome.Success? <==> ValidateImage(path, f).None? && d.Downloaded? && i.Text?
    ensures c.outcome.Success? ==> c.outcome.value == i.text
    ensures c.pauses == (if ValidateImage(path, f).None? && d.Downloaded? && model == TestModel then [TestPause] else [])
  {
    match ValidateImage(path, f)
    case Some(e) => Call(Failure(e), [])
    case None =>
      match DownloadModel(model, d)
      case Failure(e) => Call(Failure(e), [])
      case Success(_) =>
        Call(Classify(i), if model == TestModel then [TestPause] else [])
  }

  /**
   * The classification an extraction ends in: permanent exactly when
   * validation rejected the file or the model itself raised a PermanentError;
   * an escaping non-custom exception only from the size probe; everything
   * else that fails is transient.
   */
  lemma Classification(path: string, model: string, f: FileInfo, d: DownloadOutcome, i: InferOutcome)
    ensures var o := ImageToText(path, model, f, d, i).outcome;
      (o.Failure? && o.error.Permanent?) <==>
        (ValidateImage(path, f).Some? && ValidateImage(path, f).value.Permanent?)
        || (ValidateImage(path, f).None? && d.Downloaded? && i.RaisedPermanent?)
    ensures var o := ImageToText(path, model, f, d, i).outcome;
      (o.Failure? && o.error.Other?) <==> f.present && f.size.StatFailed?
    ensures var o := ImageToText(path, model, f, d, i).outcome;
      ValidateImage(path, f).None? && !d.Downloaded? ==> o == Failure(Transient("Model download failed: " + d.reason))
    ensures var o := ImageToText(path, model, f, d, i).outcome;
      (ValidateImage(path, f).None? && d.Downloaded? && (i.RaisedMemory? || i.RaisedOther? || i.RaisedTransient?))
      ==> o.Failure? && o.error.Transient?
    ensures var o := ImageToText(path, model, f, d, i).outcome;
      ValidateImage(path, f).None? && d.Downloaded? && i.RaisedPermanent? ==> o == Failure(Permanent(i.pmessage))
    ensures var o := ImageToText(path, model, f, d, i).outcome;
      ValidateImage(path, f).None? && d.Downloaded? && i.RaisedTransient? ==> o == Failure(Transient(i.tmessage))
  {
  }

  /** A missing file is reported before any size or format check, whatever the other probes say. */
  lemma MissingFileFirst(path: string, model: string, size: SizeProbe, image: ImageProbe, d: DownloadOutcome, i: InferOutcome)
    ensures ImageToText(path, model, FileInfo(false, size, image), d, i).outcome
            == Failure(Permanent("Image file not found: " + path))
  {
  }

  /** The size limit is inclusive: exactly MAX_IMAGE_SIZE_BYTES passes, one byte more is permanent. */
  lemma SizeBoundary(path: string)
    ensures ValidateImage(path, FileInfo(true, Bytes(MaxImageSizeBytes), Verifies)).None?
    ensures ValidateImage(path, FileInfo(true, Bytes(MaxImageSizeBytes + 1), Verifies)) == Some(Permanent(TooLargeMessage))
  {
  }

  /** An empty or whitespace-padded description is a success, returned unchanged. */
  lemma TextUnchanged(path: string, model: string, f: FileInfo)
    requires ValidateImage(path, f).None?
    ensures ImageToText(path, model, f, Downloaded, Text("")).outcome == Success("")
    ensures ImageToText(path, model, f, Downloaded, Text("  Description with spaces  ")).outcome
            == Success("  Description with spaces  ")
  {
  }
}
