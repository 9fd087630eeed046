/**
 * The staged attachment list of `handleFileUpload` and `removeFile`:
 * new files are appended with no content, each file's extractor is chosen
 * by its kind, and the extractor's completion writes or removes that one
 * file by id. Extractions run concurrently, so completions may arrive in any
 * order; `ApplyReadCommutes` shows the order does not matter.
 */
module Attachments {
  import opened Wrappers
  import opened JsStrings
  import ById

  /**
   * A staged file. `content` is `None` until its extractor completes (and stays
   * `None` for unsupported kinds, or when an image data URL has no comma).
   * The browser `File` handle is not modelled: only its extracted text is.
   */
  datatype FileObj = FileObj(id: int, name: string, size: nat, mimeType: string, content: Option<string>)

  /** A file as the file picker hands it over, before it is staged. */
  datatype PickedFile = PickedFile(id: int, name: string, size: nat, mimeType: string)

  function FileKey(f: FileObj): int {
    f.id
  }

  /** JavaScript truthiness of `file.content`: present and not the empty string. */
  predicate HasContent(f: FileObj) {
    f.content.Some? && |f.content.value| > 0
  }

  predicate IsImageType(mimeType: string) {
    StartsWith(mimeType, "image/")
  }

  predicate IsPdf(name: string, mimeType: string) {
    mimeType == "application/pdf" || EndsWith(name, ".pdf")
  }

  predicate IsTextLike(name: string, mimeType: string) {
    || StartsWith(mimeType, "text/")
    || EndsWith(name, ".md") || EndsWith(name, ".txt")
    || EndsWith(name, ".json") || EndsWith(name, ".csv")
  }

  /** Which extractor `handleFileUpload` runs for a file. */
  datatype FileKind = Pdf | Image | Text | Unsupported

  /**
   * The extractor dispatch: the PDF test wins over the image test, which wins
   * over the text test; anything else is not extracted.
   */
  function Classify(name: string, mimeType: string): (k: FileKind)
    ensures k == Pdf <==> IsPdf(name, mimeType)
    ensures k == Image <==> !IsPdf(name, mimeType) && IsImageType(mimeType)
    ensures k == Text <==> !IsPdf(name, mimeType) && !IsImageType(mimeType) && IsTextLike(name, mimeType)
    ensures k == Unsupported <==> !IsPdf(name, mimeType) && !IsImageType(mimeType) && !IsTextLike(name, mimeType)
  {
    if IsPdf(name, mimeType) then Pdf
    else if IsImageType(mimeType) then Image
    else if IsTextLike(name, mimeType) then Text
    else Unsupported
  }

  /** The name decides for PDFs whatever type the browser reports, an image type included. */
  lemma PdfNameWins(name: string, mimeType: string)
    requires |name| >= 4 && name[|name| - 4..] == ".pdf"
    ensures Classify(name, mimeType) == Pdf
  {
  }

  /** Stages picked files behind the ones already attached, each with no content yet. */
  function Stage(prev: seq<FileObj>, picked: seq<PickedFile>): (r: seq<FileObj>)
    ensures |r| == |prev| + |picked| && r[..|prev|] == prev
    ensures forall k :: 0 <= k < |picked| ==>
      r[|prev| + k] == FileObj(picked[k].id, picked[k].name, picked[k].size, picked[k].mimeType, None)
  {
    prev + seq(|picked|, k requires 0 <= k < |picked| =>
      FileObj(picked[k].id, picked[k].name, picked[k].size, picked[k].mimeType, None))
  }

  /** Writes extracted content into the file with id `id`; every other file is untouched. */
  function SetContent(files: seq<FileObj>, id: int, content: Option<string>): (r: seq<FileObj>)
    ensures |r| == |files|
    ensures forall i :: 0 <= i < |files| && files[i].id == id ==> r[i] == files[i].(content := content)
    ensures forall i :: 0 <= i < |files| && files[i].id != id ==> r[i] == files[i]
  {
    ById.Update(files, FileKey, id, (f: FileObj) => f.(content := content))
  }

  /** `removeFile`, and the cleanup after a failed extraction: drops the file with id `id`. */
  function RemoveFile(files: seq<FileObj>, id: int): (r: seq<FileObj>)
    ensures |r| <= |files|
    ensures forall i :: 0 <= i < |r| ==> r[i] in files && r[i].id != id
    ensures forall i :: 0 <= i < |files| && files[i].id != id ==> files[i] in r
  {
    ById.Remove(files, FileKey, id)
  }

  /** With distinct ids, `removeFile` deletes exactly one entry and keeps the others in order. */
  lemma RemoveFileOne(files: seq<FileObj>, k: nat)
    requires k < |files| && ById.UniqueKeys(files, FileKey)
    ensures RemoveFile(files, files[k].id) == files[..k] + files[k + 1..]
  {
    ById.RemoveOne(files, FileKey, files[k].id, k);
  }

  /** How an extractor finished: with its text (possibly `undefined`), or by rejecting. */
  datatype ReadOutcome = ReadOk(text: Option<string>) | ReadFailed

  /**
   * Applies the completion of `f`'s extractor to the current list. PDF and image
   * readers reject into the surrounding `catch`, which removes the file; the text
   * reader's errors are not caught (no `onerror` handler), so its failure leaves the
   * list as it is; unsupported files never start a reader.
   */
  function ApplyRead(files: seq<FileObj>, f: FileObj, outcome: ReadOutcome): (r: seq<FileObj>)
    ensures |r| <= |files|
    ensures forall i :: 0 <= i < |files| && files[i].id != f.id ==> files[i] in r
    ensures forall i :: 0 <= i < |r| && r[i].id != f.id ==> r[i] in files
    ensures outcome.ReadOk? && Classify(f.name, f.mimeType) != Unsupported ==>
      r == SetContent(files, f.id, outcome.text)
    ensures outcome.ReadFailed? && Classify(f.name, f.mimeType) in {Pdf, Image} ==>
      r == RemoveFile(files, f.id)
    ensures Classify(f.name, f.mimeType) == Unsupported ==> r == files
    ensures outcome.ReadFailed? && Classify(f.name, f.mimeType) == Text ==> r == files
  {
    match Classify(f.name, f.mimeType)
    case Unsupported => files
    case Text => if outcome.ReadOk? then SetContent(files, f.id, outcome.text) else files
    case _ => if outcome.ReadOk? then SetContent(files, f.id, outcome.text) else RemoveFile(files, f.id)
  }

  /**
   * An extractor that finishes after its file left the list, by `removeFile` or by a
   * submission that emptied the staged files, changes nothing.
   */
  lemma LateCompletion(files: seq<FileObj>, f: FileObj, outcome: ReadOutcome)
    requires forall i :: 0 <= i < |files| ==> files[i].id != f.id
    ensures ApplyRead(files, f, outcome) == files
  {
    if outcome.ReadOk? {
      ById.UpdateAbsent(files, FileKey, f.id, (x: FileObj) => x.(content := outcome.text));
    } else {
      ById.RemoveAbsent(files, FileKey, f.id);
    }
  }

  /** Completions of two different files' extractors give the same list in either order. */
  lemma ApplyReadCommutes(files: seq<FileObj>, f: FileObj, o1: ReadOutcome, g: FileObj, o2: ReadOutcome)
    requires f.id != g.id
    ensures ApplyRead(ApplyRead(files, f, o1), g, o2) == ApplyRead(ApplyRead(files, g, o2), f, o1)
  {
    match (Classify(f.name, f.mimeType), o1, Classify(g.name, g.mimeType), o2) {
      case (Unsupported, _, _, _) =>
      case (_, _, Unsupported, _) =>
      case (Text, ReadFailed, _, _) =>
      case (_, _, Text, ReadFailed) =>
      case (_, ReadOk(t1), _, ReadOk(t2)) =>
        ById.UpdateCommutes(files, FileKey, f.id, (x: FileObj) => x.(content := t1),
                            g.id, (x: FileObj) => x.(content := t2));
      case (_, ReadOk(t1), _, ReadFailed) =>
        ById.UpdateRemoveCommute(files, FileKey, f.id, (x: FileObj) => x.(content := t1), g.id);
      case (_, ReadFailed, _, ReadOk(t2)) =>
        ById.UpdateRemoveCommute(files, FileKey, g.id, (x: FileObj) => x.(content := t2), f.id);
      case (_, ReadFailed, _, ReadFailed) =>
        ById.RemoveCommutes(files, FileKey, f.id, g.id);
    }
  }
}
