/**
 * `parsers.py`: the format-level entry points over the extractors, and
 * `process_student_document`, which picks the extractor from the file's
 * suffix and tags every turn with the student id.
 */
module Parsers {
  import opened Wrappers
  import opened Text
  import opened Dialogue
  import LabelledParser
  import UnlabelledParser
  import Discovery

  /** What `parse_word_document_with_labels(text, format_type)` returns or raises. */
  function WordTurns(text: string, formatType: string): Result<seq<Turn>, Exception> {
    if formatType == "week1_week2" then Ok(LabelledParser.LabelledTurns(text, LabelledParser.English))
    else if formatType == "week3" then Ok(LabelledParser.LabelledTurns(text, LabelledParser.Portuguese))
    else Err(ValueError)
  }

  method ParseWordDocumentWithLabels(text: string, formatType: string) returns (r: Result<seq<Turn>, Exception>)
    ensures r == WordTurns(text, formatType)
  {
    if formatType == "week1_week2" {
      var turns := LabelledParser.ParseWeek1Week2(text);
      r := Ok(turns);
    } else if formatType == "week3" {
      var turns := LabelledParser.ParseWeek3(text);
      r := Ok(turns);
    } else {
      r := Err(ValueError);
    }
  }

  /** Exactly the two labelled formats parse, numbered 1..n; anything else raises `ValueError`. */
  lemma WordTurnsSpec(text: string, formatType: string)
    ensures WordTurns(text, formatType).Ok? <==> formatType in {"week1_week2", "week3"}
    ensures WordTurns(text, formatType).Err? ==> WordTurns(text, formatType).error == ValueError
    ensures WordTurns(text, formatType).Ok? ==> NumberedFromOne(WordTurns(text, formatType).value)
  {
    if formatType == "week1_week2" {
      LabelledParser.LabelledTurnsShape(text, LabelledParser.English);
    } else if formatType == "week3" {
      LabelledParser.LabelledTurnsShape(text, LabelledParser.Portuguese);
    }
  }

  /** `parse_pdf_without_labels`: the alternating-block extractor. */
  method ParsePdfWithoutLabels(text: string) returns (turns: seq<Turn>)
    ensures turns == UnlabelledParser.UnlabelledTurns(text)
    ensures NumberedFromOne(turns)
  {
    turns := UnlabelledParser.ParseWeek4Pdf(text);
    UnlabelledParser.UnlabelledTurnsShape(text);
  }

  /** Why `process_student_document` gave no turns: an exception it raised, or the extraction failing. */
  datatype Failure = Raised(e: Exception) | ExtractionFailed

  /** The format after auto-detection from the lower-cased suffix of the file name. */
  function DetectedFormat(fileName: string, formatType: string): Result<string, Exception> {
    if formatType == "auto" then
      var suffix := Lower(Discovery.Suffix(fileName));
      if suffix == ".docx" then Ok("word_labeled")
      else if suffix == ".pdf" then Ok("pdf_unlabeled")
      else Err(ValueError)
    else Ok(formatType)
  }

  /**
   * The turns `process_student_document` returns, before tagging. Detection
   * fails before the text is extracted. `extract_text` then reports a
   * missing file, refuses a suffix other than `.docx` and `.pdf` with
   * `ValueError`, and runs the reader; an unknown explicit format is only
   * refused after extraction. `found` says whether the file exists and
   * `text` is the reader's result, `None` when it failed.
   */
  function DocumentTurns(fileName: string, found: bool, text: Option<string>, formatType: string): Result<seq<Turn>, Failure> {
    match DetectedFormat(fileName, formatType)
    case Err(e) => Err(Raised(e))
    case Ok(format) =>
      if !found then Err(ExtractionFailed)
      else if Lower(Discovery.Suffix(fileName)) !in {".docx", ".pdf"} then Err(Raised(ValueError))
      else if text.None? then Err(ExtractionFailed)
      else if format == "word_labeled" then Ok(LabelledParser.LabelledTurns(text.value, LabelledParser.English))
      else if format == "pdf_unlabeled" then Ok(UnlabelledParser.UnlabelledTurns(text.value))
      else Err(Raised(ValueError))
  }

  /**
   * A `.docx` file (any letter case) is read with the English labels, never
   * the Portuguese ones, and a `.pdf` with the alternating extractor; what
   * comes back is numbered 1..n. `ValueError` comes from exactly the names
   * auto-detection cannot place, an existing file whose suffix the
   * extractor does not support, or an unknown explicit format once the
   * text is extracted.
   */
  lemma DocumentTurnsSpec(fileName: string, found: bool, text: Option<string>, formatType: string)
    ensures formatType == "auto" && Lower(Discovery.Suffix(fileName)) == ".docx" && found && text.Some? ==>
      DocumentTurns(fileName, found, text, formatType) == Ok(LabelledParser.LabelledTurns(text.value, LabelledParser.English))
    ensures formatType == "auto" && Lower(Discovery.Suffix(fileName)) == ".pdf" && found && text.Some? ==>
      DocumentTurns(fileName, found, text, formatType) == Ok(UnlabelledParser.UnlabelledTurns(text.value))
    ensures DocumentTurns(fileName, found, text, formatType) == Err(Raised(ValueError)) <==>
      if formatType == "auto" then Lower(Discovery.Suffix(fileName)) !in {".docx", ".pdf"}
      else found && (Lower(Discovery.Suffix(fileName)) !in {".docx", ".pdf"} ||
                      (text.Some? && formatType !in {"word_labeled", "pdf_unlabeled"}))
    ensures DocumentTurns(fileName, found, text, formatType) == Err(ExtractionFailed) <==>
      DetectedFormat(fileName, formatType).Ok? &&
      (!found || (Lower(Discovery.Suffix(fileName)) in {".docx", ".pdf"} && text.None?))
    ensures DocumentTurns(fileName, found, text, formatType).Ok? ==> NumberedFromOne(DocumentTurns(fileName, found, text, formatType).value)
  {
    if text.Some? {
      LabelledParser.LabelledTurnsShape(text.value, LabelledParser.English);
      UnlabelledParser.UnlabelledTurnsShape(text.value);
    }
  }

  /** `for turn in turns: turn['student_id'] = student_id`. */
  method TagStudent(turns: seq<TurnObj>, studentId: int)
    modifies Objs(turns)
    ensures Values(turns) == old(Values(turns))
    ensures forall k :: 0 <= k < |turns| ==> turns[k].studentId == Some(studentId)
  {
    for i := 0 to |turns|
      invariant forall k :: 0 <= k < |turns| ==> turns[k].Value() == old(turns[k].Value())
      invariant forall k :: 0 <= k < i ==> turns[k].studentId == Some(studentId)
    {
      turns[i].studentId := Some(studentId);
    }
  }

  method ProcessStudentDocument(fileName: string, found: bool, text: Option<string>, studentId: int, formatType: string)
    returns (r: Result<seq<TurnObj>, Failure>)
    ensures r.Err? <==> DocumentTurns(fileName, found, text, formatType).Err?
    ensures r.Err? ==> r.error == DocumentTurns(fileName, found, text, formatType).error
    ensures r.Ok? ==> fresh(Objs(r.value)) && Distinct(r.value) && Values(r.value) == DocumentTurns(fileName, found, text, formatType).value
    ensures r.Ok? ==> forall k :: 0 <= k < |r.value| ==> r.value[k].studentId == Some(studentId)
  {
    var format := formatType;
    if format == "auto" {
      var suffix := Lower(Discovery.Suffix(fileName));
      if suffix == ".docx" {
        format := "word_labeled";
      } else if suffix == ".pdf" {
        format := "pdf_unlabeled";
      } else {
        return Err(Raised(ValueError));
      }
    }
    if !found {
      return Err(ExtractionFailed);
    }
    var suffix := Lower(Discovery.Suffix(fileName));
    if suffix != ".docx" && suffix != ".pdf" {
      return Err(Raised(ValueError));
    }
    if text.None? {
      return Err(ExtractionFailed);
    }
    var turns: seq<Turn>;
    if format == "word_labeled" {
      var w := ParseWordDocumentWithLabels(text.value, "week1_week2");
      turns := w.value;
    } else if format == "pdf_unlabeled" {
      turns := ParsePdfWithoutLabels(text.value);
    } else {
      return Err(Raised(ValueError));
    }
    var objs := ToObjects(turns);
    TagStudent(objs, studentId);
    r := Ok(objs);
  }
}
