/** `dialogue_parser.parse_dialogue`: choosing the extractor from the week format. */
module DialogueDispatch {
  import opened Wrappers
  import opened Dialogue
  import LabelledParser
  import UnlabelledParser

  /** The turns `parse_dialogue(text, fmt)` returns, or the `ValueError` it raises. */
  function DialogueFor(text: string, fmt: string): Result<seq<Turn>, Exception> {
    if fmt == "week1" || fmt == "week2" then Ok(LabelledParser.LabelledTurns(text, LabelledParser.English))
    else if fmt == "week3" then Ok(LabelledParser.LabelledTurns(text, LabelledParser.Portuguese))
    else if fmt == "week4" then Ok(UnlabelledParser.UnlabelledTurns(text))
    else Err(ValueError)
  }

  method ParseDialogue(text: string, fmt: string) returns (r: Result<seq<Turn>, Exception>)
    ensures r == DialogueFor(text, fmt)
  {
    if fmt == "week1" || fmt == "week2" {
      var turns := LabelledParser.ParseWeek1Week2(text);
      r := Ok(turns);
    } else if fmt == "week3" {
      var turns := LabelledParser.ParseWeek3(text);
      r := Ok(turns);
    } else if fmt == "week4" {
      var turns := UnlabelledParser.ParseWeek4Pdf(text);
      r := Ok(turns);
    } else {
      r := Err(ValueError);
    }
  }

  /**
   * Exactly the four known formats parse, and whatever they return is
   * numbered 1..n; any other format raises `ValueError`.
   */
  lemma DialogueForSpec(text: string, fmt: string)
    ensures DialogueFor(text, fmt).Ok? <==> fmt in {"week1", "week2", "week3", "week4"}
    ensures DialogueFor(text, fmt).Err? ==> DialogueFor(text, fmt).error == ValueError
    ensures DialogueFor(text, fmt).Ok? ==> NumberedFromOne(DialogueFor(text, fmt).value)
  {
    if fmt == "week1" || fmt == "week2" {
      LabelledParser.LabelledTurnsShape(text, LabelledParser.English);
    } else if fmt == "week3" {
      LabelledParser.LabelledTurnsShape(text, LabelledParser.Portuguese);
    } else if fmt == "week4" {
      UnlabelledParser.UnlabelledTurnsShape(text);
    }
  }
}
