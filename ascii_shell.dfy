/**
 * The ascii_art command shell (ascii_art/Shell.java): the set of characters
 * available for the picture, the number of characters per row, and the
 * commands that change them. Input lines arrive already split into words;
 * printing, showing the characters, rendering and the Scanner loop of run
 * are not modelled (one loop iteration is HandleInput).
 */
module AsciiShell {
  import opened Util

  const CMD_EXIT := "exit"
  const CMD_SHOW_CHARS := "chars"
  const CMD_ADD := "add"
  const CMD_REMOVE := "remove"
  const CMD_CHANGE_RESOLUTION := "res"
  const CMD_CONSOLE := "console"
  const CMD_RENDER := "render"

  const PARAM_ALL := "all"
  const PARAM_SPACE := "space"
  const PARAM_UP := "up"
  const PARAM_DOWN := "down"

  /** The first and last character a picture may use. */
  const START_CHAR_RANGE: char := ' '
  const END_CHAR_RANGE: char := '~'

  const INITIAL_CHARS_IN_ROW := 64
  const MIN_PIXELS_PER_CHAR := 2
  const CHANGE_RESOLUTION_COEFFICIENT := 2
  const INITIAL_CHARS_RANGE := "0-9"

  const MAX_USER_INPUT_LENGTH := 2
  const RANGE_SEPARATOR: char := '-'

  /** getParam: the second word, or "" for a one-word line. */
  function GetParam(words: seq<string>): (param: string)
    ensures |words| > 1 ==> param == words[1]
    ensures |words| <= 1 ==> param == ""
  {
    if |words| > 1 then words[1] else ""
  }

  /** checkParameterlessWrongParameter: exit, chars, console and render take no parameter. */
  predicate ParameterlessWithParam(command: string, param: string)
  {
    (command == CMD_EXIT || command == CMD_SHOW_CHARS || command == CMD_CONSOLE || command == CMD_RENDER) &&
    |param| != 0
  }

  /**
   * checkWrongInputLength: a line is rejected with more than two words, or
   * with a parameter after a command that takes none. The words of a
   * trimmed line split at white space are never empty.
   */
  predicate WrongInputLength(words: seq<string>)
    requires |words| >= 1
  {
    |words| > MAX_USER_INPUT_LENGTH || ParameterlessWithParam(words[0], GetParam(words))
  }

  /** The lines that are rejected are exactly the long ones and the parameterless commands given a parameter. */
  lemma WrongInputLengthSpec(words: seq<string>)
    requires |words| >= 1
    ensures WrongInputLength(words) <==>
      |words| > 2 ||
      (|words| == 2 && words[1] != "" && words[0] in {"exit", "chars", "console", "render"})
  {
  }

  /** checkRangeBorders. */
  predicate RangeBorders(start: char, end: char)
  {
    start >= START_CHAR_RANGE && end <= END_CHAR_RANGE
  }

  function MinChar(a: char, b: char): char
  {
    if a <= b then a else b
  }

  function MaxChar(a: char, b: char): char
  {
    if a >= b then a else b
  }

  /** checkRangeCorrectness: one character, or "a-b" with the smaller end and the larger end in the borders. */
  predicate RangeCorrect(param: string)
  {
    if |param| == 1 then RangeBorders(param[0], param[0])
    else if |param| == 3 then
      RangeBorders(MinChar(param[0], param[2]), MaxChar(param[0], param[2])) && param[1] == RANGE_SEPARATOR
    else false
  }

  /** c lies between lo and hi, both included. */
  predicate Within(lo: char, hi: char, c: char)
  {
    lo <= c <= hi
  }

  /** The characters from lo to hi. */
  function Span(lo: char, hi: char): (cs: set<char>)
    ensures forall c :: c in cs <==> Within(lo, hi, c)
  {
    set c: char | lo <= c <= hi && Within(lo, hi, c)
  }

  /** A printable character: from ' ' to '~'. */
  predicate Printable(c: char)
  {
    ' ' <= c <= '~'
  }

  /** A custom range is correct exactly when it is one printable character, or two printable ones around '-'. */
  lemma RangeCorrectSpec(param: string)
    ensures RangeCorrect(param) <==>
      (|param| == 1 && Printable(param[0])) ||
      (|param| == 3 && Printable(param[0]) && param[1] == '-' && Printable(param[2]))
  {
  }

  /** parseCustomCharRange: the two ends as written (the one character twice), None when incorrect. */
  function ParseCustomCharRange(param: string): (range: Option<(char, char)>)
    ensures range.Some? <==> RangeCorrect(param)
  {
    if !RangeCorrect(param) then None
    else if |param| == 1 then Some((param[0], param[0]))
    else Some((param[0], param[2]))
  }

  /** parseCharRange: "all" and "space" are named ranges, anything else a custom range. */
  function ParseCharRange(param: string): Option<(char, char)>
  {
    if param == PARAM_ALL then Some((START_CHAR_RANGE, END_CHAR_RANGE))
    else if param == PARAM_SPACE then Some((START_CHAR_RANGE, START_CHAR_RANGE))
    else ParseCustomCharRange(param)
  }

  /** The characters an add or remove parameter stands for: all between its two ends, none for a bad one. */
  function RangeChars(param: string): (cs: set<char>)
    ensures forall c :: c in cs ==> Printable(c)
  {
    match ParseCharRange(param)
    case None => {}
    case Some((a, b)) => Span(MinChar(a, b), MaxChar(a, b))
  }

  /**
   * The parameters: "all" stands for every printable character, "space"
   * for ' ' alone, a correct one-character parameter for that character and
   * "x-y" for every character between x and y in either order.
   */
  lemma RangeCharsSpec(param: string)
    ensures param == "all" ==> RangeChars(param) == Span(' ', '~')
    ensures param == "space" ==> RangeChars(param) == {' '}
    ensures param != "all" && param != "space" && |param| == 1 && Printable(param[0]) ==>
      RangeChars(param) == {param[0]}
    ensures param != "all" && param != "space" && |param| == 3 && RangeCorrect(param) ==>
      RangeChars(param) == Span(MinChar(param[0], param[2]), MaxChar(param[0], param[2]))
    ensures param != "all" && param != "space" && !RangeCorrect(param) ==> RangeChars(param) == {}
  {
  }

  /** "x-y" and "y-x" stand for the same characters. */
  lemma RangeSymmetric(x: char, y: char)
    ensures RangeChars([x, '-', y]) == RangeChars([y, '-', x])
  {
  }

  /** makeResolutionInBorders: below the minimum goes to the minimum, above the maximum to the maximum. */
  function InBorders(chars: int, min: int, max: int): (r: int)
    ensures min <= max ==> min <= r <= max
    ensures min <= chars <= max ==> r == chars
  {
    if chars < min then min else if chars > max then max else chars
  }

  /** What resChange computes before the borders: "up" doubles, "down" halves (rounding down). */
  function Rescaled(chars: nat, param: string): Option<nat>
  {
    if param == PARAM_UP then Some(chars * CHANGE_RESOLUTION_COEFFICIENT)
    else if param == PARAM_DOWN then Some(chars / CHANGE_RESOLUTION_COEFFICIENT)
    else None
  }

  /** Going up and then down comes back to the same width when the borders did not interfere. */
  lemma UpThenDown(chars: nat, min: int, max: int)
    requires min <= chars && chars * 2 <= max
    ensures InBorders(Rescaled(InBorders(Rescaled(chars, "up").value, min, max), "down").value, min, max) == chars
  {
  }

  class Shell {
    var charSet: set<char>
    const minCharsInRow: nat
    const maxCharsInRow: nat
    var charsInRow: nat
    var ifConsoleOutput: bool

    /** The characters-per-row setting stays within the borders whenever the borders are ordered. */
    predicate Valid()
      reads this
    {
      minCharsInRow >= 1 && (minCharsInRow <= maxCharsInRow ==> minCharsInRow <= charsInRow <= maxCharsInRow)
    }

    /**
     * Shell(img): at least one character per row, at least w / h of them, at
     * most one per two pixels, 64 when that fits; the digits '0' to '9';
     * output to an html file. The image is given by its width and height.
     */
    constructor (width: nat, height: nat)
      requires height > 0
      ensures Valid()
      ensures minCharsInRow == Max(1, width / height) && maxCharsInRow == width / MIN_PIXELS_PER_CHAR
      ensures charsInRow == Max(Min(INITIAL_CHARS_IN_ROW, maxCharsInRow), minCharsInRow)
      ensures charSet == Span('0', '9')
      ensures !ifConsoleOutput
    {
      charSet := {};
      minCharsInRow := Max(1, width / height);
      maxCharsInRow := width / MIN_PIXELS_PER_CHAR;
      charsInRow := Max(Min(INITIAL_CHARS_IN_ROW, width / MIN_PIXELS_PER_CHAR), Max(1, width / height));
      ifConsoleOutput := false;
      new;
      AddChars(INITIAL_CHARS_RANGE);
      assert RangeChars(INITIAL_CHARS_RANGE) == Span('0', '9');
    }

    /** addChars: every character of the range joins the set, one at a time. */
    method AddChars(s: string)
      modifies this
      ensures charSet == old(charSet) + RangeChars(s)
      ensures charsInRow == old(charsInRow) && ifConsoleOutput == old(ifConsoleOutput)
    {
      var range := ParseCharRange(s);
      if range.Some? {
        var lo, hi := MinChar(range.value.0, range.value.1), MaxChar(range.value.0, range.value.1);
        var c := lo;
        while c <= hi
          invariant lo <= c <= hi || c as int == hi as int + 1
          invariant charSet == old(charSet) + (Span(lo, c) - {c})
          invariant charsInRow == old(charsInRow) && ifConsoleOutput == old(ifConsoleOutput)
          decreases hi as int - c as int
        {
          charSet := charSet + {c};
          c := (c as int + 1) as char;
        }
        assert Span(lo, c) - {c} == Span(lo, hi);
      }
    }

    /** removeChars: every character of the range leaves the set; the others stay. */
    method RemoveChars(s: string)
      modifies this
      ensures charSet == old(charSet) - RangeChars(s)
      ensures charsInRow == old(charsInRow) && ifConsoleOutput == old(ifConsoleOutput)
    {
      var range := ParseCharRange(s);
      if range.Some? {
        var lo, hi := MinChar(range.value.0, range.value.1), MaxChar(range.value.0, range.value.1);
        var c := lo;
        while c <= hi
          invariant lo <= c <= hi || c as int == hi as int + 1
          invariant charSet == old(charSet) - (Span(lo, c) - {c})
          invariant charsInRow == old(charsInRow) && ifConsoleOutput == old(ifConsoleOutput)
          decreases hi as int - c as int
        {
          charSet := charSet - {c};
          c := (c as int + 1) as char;
        }
        assert Span(lo, c) - {c} == Span(lo, hi);
      }
    }

    /** makeResolutionInBorders. */
    method MakeResolutionInBorders()
      requires minCharsInRow >= 1
      modifies this
      ensures Valid()
      ensures charsInRow == InBorders(old(charsInRow), minCharsInRow, maxCharsInRow)
      ensures charSet == old(charSet) && ifConsoleOutput == old(ifConsoleOutput)
    {
      if charsInRow < minCharsInRow {
        charsInRow := minCharsInRow;
      } else if charsInRow > maxCharsInRow {
        charsInRow := maxCharsInRow;
      }
    }

    /** resChange: "up" and "down" rescale and then bring the width into the borders; any other parameter changes nothing. */
    method ResChange(s: string)
      requires Valid()
      modifies this
      ensures Valid()
      ensures Rescaled(old(charsInRow), s).Some? ==>
        charsInRow == InBorders(Rescaled(old(charsInRow), s).value, minCharsInRow, maxCharsInRow)
      ensures Rescaled(old(charsInRow), s).None? ==> charsInRow == old(charsInRow)
      ensures charSet == old(charSet) && ifConsoleOutput == old(ifConsoleOutput)
    {
      if s == PARAM_UP {
        charsInRow := charsInRow * CHANGE_RESOLUTION_COEFFICIENT;
      } else if s == PARAM_DOWN {
        charsInRow := charsInRow / CHANGE_RESOLUTION_COEFFICIENT;
      } else {
        return;
      }
      MakeResolutionInBorders();
    }

    /** changeOutputToConsole: from now on the picture goes to the console. */
    method ChangeOutputToConsole()
      modifies this
      ensures ifConsoleOutput
      ensures charSet == old(charSet) && charsInRow == old(charsInRow)
    {
      if ifConsoleOutput {
        return;
      }
      ifConsoleOutput := true;
    }

    /**
     * callFunctionByInput: add, remove, res and console change the state;
     * chars and render only show it, and every other command is ignored.
     */
    method CallFunctionByInput(command: string, param: string)
      requires Valid()
      modifies this
      ensures Valid()
      ensures command == CMD_ADD ==> charSet == old(charSet) + RangeChars(param)
      ensures command == CMD_REMOVE ==> charSet == old(charSet) - RangeChars(param)
      ensures command != CMD_ADD && command != CMD_REMOVE ==> charSet == old(charSet)
      ensures command == CMD_CHANGE_RESOLUTION && Rescaled(old(charsInRow), param).Some? ==>
        charsInRow == InBorders(Rescaled(old(charsInRow), param).value, minCharsInRow, maxCharsInRow)
      ensures command != CMD_CHANGE_RESOLUTION || Rescaled(old(charsInRow), param).None? ==>
        charsInRow == old(charsInRow)
      ensures ifConsoleOutput == (old(ifConsoleOutput) || command == CMD_CONSOLE)
    {
      if command == CMD_ADD {
        AddChars(param);
      } else if command == CMD_REMOVE {
        RemoveChars(param);
      } else if command == CMD_CHANGE_RESOLUTION {
        ResChange(param);
      } else if command == CMD_CONSOLE {
        ChangeOutputToConsole();
      }
    }

    /**
     * One pass of run's loop over a line split into words: a rejected line
     * changes nothing; the loop ends after the line "exit" alone.
     */
    method HandleInput(words: seq<string>) returns (done: bool)
      requires Valid() && |words| >= 1
      modifies this
      ensures Valid()
      ensures done <==> words == [CMD_EXIT]
      ensures WrongInputLength(words) ==>
        charSet == old(charSet) && charsInRow == old(charsInRow) && ifConsoleOutput == old(ifConsoleOutput)
      ensures !WrongInputLength(words) && words[0] == CMD_ADD ==> charSet == old(charSet) + RangeChars(GetParam(words))
      ensures !WrongInputLength(words) && words[0] == CMD_REMOVE ==> charSet == old(charSet) - RangeChars(GetParam(words))
      ensures words[0] != CMD_ADD && words[0] != CMD_REMOVE ==> charSet == old(charSet)
      ensures !WrongInputLength(words) && words[0] == CMD_CHANGE_RESOLUTION && Rescaled(old(charsInRow), GetParam(words)).Some? ==>
        charsInRow == InBorders(Rescaled(old(charsInRow), GetParam(words)).value, minCharsInRow, maxCharsInRow)
      ensures WrongInputLength(words) || words[0] != CMD_CHANGE_RESOLUTION || Rescaled(old(charsInRow), GetParam(words)).None? ==>
        charsInRow == old(charsInRow)
      ensures !WrongInputLength(words) ==> ifConsoleOutput == (old(ifConsoleOutput) || words[0] == CMD_CONSOLE)
    {
      if !WrongInputLength(words) {
        CallFunctionByInput(words[0], GetParam(words));
      }
      done := words[0] == CMD_EXIT && |words| == 1;
    }
  }
}
