/**
 * The editor's terminal (src/components/editor/Terminal.tsx): an input
 * line and the history of submitted commands. Submitting forwards the
 * trimmed command to the page through `onCommand`; here `Submit`
 * returns it.
 */
module Terminal {
  import opened Wrappers
  import opened Text

  /** The prompt each history line starts with. */
  const Prompt := "ProgramBharat-> "

  /** The history line recorded for a command. */
  function PromptLine(command: string): (line: string)
    ensures |line| == |Prompt| + |command|
    ensures line[..|Prompt|] == Prompt && line[|Prompt|..] == command
  {
    Prompt + command
  }

  /** A history line holds a command that is not empty and neither starts nor ends with whitespace, as trimmed input does. */
  predicate IsHistoryLine(line: string) {
    |line| > |Prompt| && line[..|Prompt|] == Prompt
    && !IsSpace(line[|Prompt|]) && !IsSpace(line[|line| - 1])
  }

  /** The line of a trimmed, non-blank command is a history line, and the command can be read back from it. */
  lemma PromptLineIsHistoryLine(input: string)
    requires !IsBlank(input)
    ensures IsHistoryLine(PromptLine(Trim(input)))
    ensures PromptLine(Trim(input))[|Prompt|..] == Trim(input)
  {
    var line := PromptLine(Trim(input));
    assert line[|Prompt|] == Trim(input)[0];
  }

  /** Appending a history line keeps every line a history line. */
  lemma HistoryAppend(history: seq<string>, line: string)
    requires forall i :: 0 <= i < |history| ==> IsHistoryLine(history[i])
    requires IsHistoryLine(line)
    ensures forall i :: 0 <= i < |history + [line]| ==> IsHistoryLine((history + [line])[i])
  {
    forall i | 0 <= i < |history + [line]|
      ensures IsHistoryLine((history + [line])[i])
    {
      if i < |history| {
        assert (history + [line])[i] == history[i];
      }
    }
  }

  class TerminalView {
    var input: string
    var history: seq<string>

    /** Every history line was produced by a submit. */
    predicate Valid()
      reads this
    {
      forall i :: 0 <= i < |history| ==> IsHistoryLine(history[i])
    }

    constructor ()
      ensures input == "" && history == []
      ensures Valid()
    {
      input := "";
      history := [];
    }

    /** Typing in the input line (disabled while a run is in progress). */
    method SetInput(text: string)
      requires Valid()
      modifies this
      ensures input == text && history == old(history)
      ensures Valid()
    {
      input := text;
    }

    /**
     * `handleSubmit`. A blank input, or a submit while the program runs,
     * changes nothing and issues no command; otherwise the trimmed
     * command is recorded, the input cleared, and the command issued.
     */
    method Submit(isRunning: bool) returns (command: Option<string>)
      requires Valid()
      modifies this
      ensures IsBlank(old(input)) || isRunning ==> command == None && input == old(input) && history == old(history)
      ensures !IsBlank(old(input)) && !isRunning ==>
        command == Some(Trim(old(input))) && input == "" && history == old(history) + [PromptLine(Trim(old(input)))]
      ensures Valid()
    {
      if IsBlank(input) || isRunning {
        return None;
      }
      var cmd := Trim(input);
      var line := PromptLine(cmd);
      PromptLineIsHistoryLine(input);
      HistoryAppend(history, line);
      history := history + [line];
      input := "";
      command := Some(cmd);
    }
  }
}
