/**
 * The search box: a controlled input whose value and the owner's
 * suggestions-open flag change on keystrokes, and a submit that hands the
 * trimmed query to the owner unless it is blank.
 */
module Searchbar {
  import opened Types
  import opened Text

  /** The input's value and the owner's flag that the box opens and closes. */
  class SearchBox {
    var value: string
    var suggestionsOpen: bool

    constructor (value: string, suggestionsOpen: bool)
      ensures this.value == value && this.suggestionsOpen == suggestionsOpen
    {
      this.value := value;
      this.suggestionsOpen := suggestionsOpen;
    }

    /** A change event replaces the value with the input's text. */
    method OnChange(text: string)
      modifies this`value
      ensures value == text
    {
      value := text;
    }

    /**
     * The keydown handler. "/" in an empty box becomes the value "/", opens the
     * suggestions and suppresses the keystroke; "Escape" closes the suggestions;
     * every other key, and "/" in a non-empty box, is left to the input.
     */
    method OnKeyDown(key: string) returns (prevented: bool)
      modifies this
      ensures prevented <==> key == "/" && old(value) == ""
      ensures prevented ==> value == "/" && suggestionsOpen
      ensures !prevented ==> value == old(value)
      ensures !prevented && key == "Escape" ==> !suggestionsOpen
      ensures !prevented && key != "Escape" ==> suggestionsOpen == old(suggestionsOpen)
    {
      if key == "/" && value == "" {
        value := "/";
        suggestionsOpen := true;
        return true;
      }
      if key == "Escape" {
        suggestionsOpen := false;
      }
      return false;
    }

    /**
     * The form's submit handler: the query handed to the owner, if any. It changes
     * no state; a blank value submits nothing, any other value submits its trimmed
     * form, which is non-empty and neither starts nor ends with whitespace.
     */
    method Submit() returns (submitted: Option<string>)
      ensures submitted.None? <==> IsBlank(value)
      ensures submitted.Some? ==> submitted.value == Trim(value)
      ensures submitted.Some? ==> && submitted.value != ""
                                  && !IsWhitespace(submitted.value[0])
                                  && !IsWhitespace(submitted.value[|submitted.value| - 1])
    {
      if TrimsToEmpty(value) {
        return None;
      }
      BlankIffTrimsToEmpty(value);
      TrimHasNoSurroundingWhitespace(value);
      return Some(Trim(value));
    }
  }

  /** A submitted query is never blank, so the chat handler it is passed to always accepts it. */
  lemma SubmittedQueryIsNotBlank(value: string)
    requires !IsBlank(value)
    ensures !IsBlank(Trim(value)) && Trim(Trim(value)) == Trim(value)
  {
    BlankIffTrimsToEmpty(value);
    TrimIdempotent(value);
    BlankIffTrimsToEmpty(Trim(value));
  }
}
