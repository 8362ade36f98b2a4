/**
 * The two numbered menus of the prompt: the model choice, which falls back
 * to "medium" on any other answer, and the output-format choice, which asks
 * again until it gets "1", "2" or "3". The answers typed at the console are
 * an input sequence; the prompts themselves are not modelled.
 */
module Choices {
  import opened Wrappers
  import opened Text

  /** `model_options`. */
  const ModelOptions: map<string, string> :=
    map["1" := "tiny", "2" := "base", "3" := "small", "4" := "medium", "5" := "large"]

  /** `model_options.get(model_choice, "medium")` with the answer stripped
      first: always one of the five model names, the menu entry of an
      answer that strips to a menu number, and "medium" for every other
      answer. */
  function ModelName(answer: string): (name: string)
    ensures name in {"tiny", "base", "small", "medium", "large"}
    ensures Strip(answer) in ModelOptions ==> name == ModelOptions[Strip(answer)]
    ensures Strip(answer) !in ModelOptions ==> name == "medium"
  {
    var choice := Strip(answer);
    ModelValues();
    if choice in ModelOptions then ModelOptions[choice] else "medium"
  }

  lemma ModelValues()
    ensures forall k :: k in ModelOptions ==> ModelOptions[k] in {"tiny", "base", "small", "medium", "large"}
  {
  }

  /** Each menu number picks its own model. */
  lemma ModelMenu(key: string)
    requires key in ModelOptions
    ensures ModelName(key) == ModelOptions[key]
  {
    assert key == "1" || key == "2" || key == "3" || key == "4" || key == "5";
    StripTrimmed(key);
  }

  /** A menu number typed with a space on either side, such as " 3 ",
      still picks its model. */
  lemma ModelMenuPadded(key: string)
    requires key in ModelOptions
    ensures ModelName([' '] + key + [' ']) == ModelOptions[key]
  {
    assert key == "1" || key == "2" || key == "3" || key == "4" || key == "5";
    StripSpaced(key);
  }

  /** The menu numbers are exactly "1" to "5", so any other answer, such as
      "6", "" or "tiny", gets the default model. */
  lemma ModelDefault(answer: string)
    requires Strip(answer) != "1" && Strip(answer) != "2" && Strip(answer) != "3"
    requires Strip(answer) != "4" && Strip(answer) != "5"
    ensures ModelName(answer) == "medium"
  {
  }

  /** `output_format_options`. */
  const FormatOptions: map<string, string> := map["1" := "srt", "2" := "vtt", "3" := "txt"]

  predicate IsFormatChoice(answer: string) {
    Strip(answer) in FormatOptions
  }

  /** The format of the first answer that is a menu number; `None` when no
      answer is one. */
  function FirstFormat(answers: seq<string>): Option<string>
    decreases |answers|
  {
    if answers == [] then None
    else if IsFormatChoice(answers[0]) then Some(FormatOptions[Strip(answers[0])])
    else FirstFormat(answers[1..])
  }

  /** The loop `while output_format_choice not in output_format_options`:
      reads answers until one is a menu number. When the answers run out,
      `input()` raises `EOFError` and the script stops; the model returns
      `None`. */
  method ChooseFormat(answers: seq<string>) returns (format: Option<string>)
    ensures format == FirstFormat(answers)
  {
    var i := 0;
    while i < |answers|
      invariant 0 <= i <= |answers|
      invariant FirstFormat(answers) == FirstFormat(answers[i..])
    {
      var choice := Strip(answers[i]);
      if choice in FormatOptions {
        return Some(FormatOptions[choice]);
      }
      assert answers[i..][1..] == answers[i + 1..];
      i := i + 1;
    }
    return None;
  }

  /** The chosen format is the one of answer `i`, where `i` is the first
      answer that is a menu number; and there is no choice exactly when no
      answer is a menu number. */
  lemma {:induction false} FirstFormatSpec(answers: seq<string>)
    ensures FirstFormat(answers).None? <==> forall i :: 0 <= i < |answers| ==> !IsFormatChoice(answers[i])
    ensures FirstFormat(answers).Some? ==>
      exists i :: 0 <= i < |answers| && IsFormatChoice(answers[i])
        && (forall j :: 0 <= j < i ==> !IsFormatChoice(answers[j]))
        && FirstFormat(answers).value == FormatOptions[Strip(answers[i])]
    decreases |answers|
  {
    if answers == [] {
    } else if IsFormatChoice(answers[0]) {
      assert FirstFormat(answers).value == FormatOptions[Strip(answers[0])];
    } else {
      var rest := answers[1..];
      assert FirstFormat(answers) == FirstFormat(rest);
      FirstFormatSpec(rest);
      if FirstFormat(rest).Some? {
        var i :| 0 <= i < |rest| && IsFormatChoice(rest[i])
          && (forall j :: 0 <= j < i ==> !IsFormatChoice(rest[j]))
          && FirstFormat(rest).value == FormatOptions[Strip(rest[i])];
        assert answers[i + 1] == rest[i];
        NoChoiceBefore(answers, i + 1);
      } else {
        NoChoiceBefore(answers, |answers|);
      }
    }
  }

  /** When answer 0 is not a menu number, neither is any of the first `n`
      answers when none of the `n - 1` after it is. */
  lemma NoChoiceBefore(answers: seq<string>, n: nat)
    requires 0 < n <= |answers| && !IsFormatChoice(answers[0])
    requires forall j :: 0 <= j < n - 1 ==> !IsFormatChoice(answers[1..][j])
    ensures forall j :: 0 <= j < n ==> !IsFormatChoice(answers[j])
  {
    forall j | 0 < j < n ensures !IsFormatChoice(answers[j]) {
      assert answers[j] == answers[1..][j - 1];
    }
  }

  /** The loop leaves only with "srt", "vtt" or "txt", so the branch for any
      other format is never taken. */
  lemma ChosenFormatIsKnown(answers: seq<string>)
    ensures FirstFormat(answers).Some? ==>
      FirstFormat(answers).value in {"srt", "vtt", "txt"}
  {
    FirstFormatSpec(answers);
    FormatValues();
  }

  lemma FormatValues()
    ensures forall k :: k in FormatOptions ==> FormatOptions[k] in {"srt", "vtt", "txt"}
  {
  }
}
