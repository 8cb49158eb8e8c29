/**
 * ChatterBot: a bot with a name and two lists of reply patterns. A
 * statement that starts with "say " is a legal request, answered with a
 * legal-reply pattern whose "<phrase>" placeholders become the statement
 * without its prefix; any other statement is answered with an
 * illegal-reply pattern whose "<request>" placeholders become the whole
 * statement. The pattern is chosen by a draw of java.util.Random.
 */
module ChatBot {
  import opened Util
  import opened Oracle

  const REQUEST_PREFIX: string := "say "
  const REQUESTED_PHRASE_PLACEHOLDER: string := "<phrase>"
  const ILLEGAL_REQUEST_PLACEHOLDER: string := "<request>"

  // -------------------------------------------------------- string search

  /** startsWith. */
  predicate StartsWith(s: string, prefix: string)
  {
    |prefix| <= |s| && s[..|prefix|] == prefix
  }

  /** The pattern occurs in s at index i. */
  predicate MatchAt(s: string, pattern: string, i: nat)
  {
    i + |pattern| <= |s| && s[i..i + |pattern|] == pattern
  }

  /** The pattern occurs somewhere in s. */
  predicate Contains(s: string, pattern: string)
  {
    exists i: nat :: i <= |s| && MatchAt(s, pattern, i)
  }

  /**
   * replaceFirst: the leftmost occurrence of the pattern becomes the
   * replacement; without one, s is returned as it is.
   */
  function ReplaceFirst(s: string, pattern: string, replacement: string): string
    requires |pattern| > 0
  {
    if |s| < |pattern| then s
    else if s[..|pattern|] == pattern then replacement + s[|pattern|..]
    else [s[0]] + ReplaceFirst(s[1..], pattern, replacement)
  }

  /**
   * replaceAll: scanning from the left, each occurrence that does not
   * overlap an earlier replaced one becomes the replacement.
   */
  function ReplaceAll(s: string, pattern: string, replacement: string): string
    requires |pattern| > 0
  {
    if |s| < |pattern| then s
    else if s[..|pattern|] == pattern then replacement + ReplaceAll(s[|pattern|..], pattern, replacement)
    else [s[0]] + ReplaceAll(s[1..], pattern, replacement)
  }

  /** The number of occurrences replaceAll replaces. */
  function Occurrences(s: string, pattern: string): nat
    requires |pattern| > 0
  {
    if |s| < |pattern| then 0
    else if s[..|pattern|] == pattern then 1 + Occurrences(s[|pattern|..], pattern)
    else Occurrences(s[1..], pattern)
  }

  /** An occurrence in the tail is an occurrence in s, one index on. */
  lemma MatchInTail(s: string, pattern: string, i: nat)
    requires |s| > 0 && MatchAt(s[1..], pattern, i)
    ensures MatchAt(s, pattern, i + 1)
  {
    assert s[1..][i..i + |pattern|] == s[i + 1..i + 1 + |pattern|];
  }

  /** replaceAll finds something to replace exactly when the pattern occurs. */
  lemma {:induction false} OccursIffContains(s: string, pattern: string)
    requires |pattern| > 0
    ensures Occurrences(s, pattern) > 0 <==> Contains(s, pattern)
    decreases |s|
  {
    if |s| < |pattern| {
      assert !Contains(s, pattern);
    } else if s[..|pattern|] == pattern {
      assert MatchAt(s, pattern, 0);
    } else {
      OccursIffContains(s[1..], pattern);
      if Contains(s[1..], pattern) {
        var i: nat :| MatchAt(s[1..], pattern, i);
        MatchInTail(s, pattern, i);
      }
      if Contains(s, pattern) {
        var i: nat :| MatchAt(s, pattern, i);
        assert MatchAt(s, pattern, i);
        assert i + |pattern| <= |s|;
        assert i != 0;
        assert s[1..][i - 1..i - 1 + |pattern|] == s[i..i + |pattern|];
        assert MatchAt(s[1..], pattern, i - 1);
      }
    }
  }

  /** Each replacement changes the length by the difference between replacement and pattern. */
  lemma {:induction false} ReplaceAllLength(s: string, pattern: string, replacement: string)
    requires |pattern| > 0
    ensures |ReplaceAll(s, pattern, replacement)|
            == |s| + Occurrences(s, pattern) * (|replacement| - |pattern|)
    decreases |s|
  {
    if |s| >= |pattern| {
      if s[..|pattern|] == pattern {
        var rest := s[|pattern|..];
        ReplaceAllLength(rest, pattern, replacement);
        assert ReplaceAll(s, pattern, replacement) == replacement + ReplaceAll(rest, pattern, replacement);
        assert Occurrences(s, pattern) == 1 + Occurrences(rest, pattern);
        OneMore(Occurrences(rest, pattern), |replacement| - |pattern|);
      } else {
        ReplaceAllLength(s[1..], pattern, replacement);
        assert ReplaceAll(s, pattern, replacement) == [s[0]] + ReplaceAll(s[1..], pattern, replacement);
      }
    }
  }

  lemma OneMore(n: int, d: int)
    ensures (1 + n) * d == d + n * d
  {
  }

  /** A text without the pattern is returned unchanged. */
  lemma {:induction false} ReplaceAllAbsent(s: string, pattern: string, replacement: string)
    requires |pattern| > 0 && !Contains(s, pattern)
    ensures ReplaceAll(s, pattern, replacement) == s
    decreases |s|
  {
    if |s| >= |pattern| {
      assert !MatchAt(s, pattern, 0);
      if Contains(s[1..], pattern) {
        var i: nat :| MatchAt(s[1..], pattern, i);
        MatchInTail(s, pattern, i);
      }
      ReplaceAllAbsent(s[1..], pattern, replacement);
      assert s == [s[0]] + s[1..];
    }
  }

  /** Replacing the pattern by itself changes nothing. */
  lemma {:induction false} ReplaceAllBySelf(s: string, pattern: string)
    requires |pattern| > 0
    ensures ReplaceAll(s, pattern, pattern) == s
    decreases |s|
  {
    if |s| >= |pattern| {
      if s[..|pattern|] == pattern {
        ReplaceAllBySelf(s[|pattern|..], pattern);
        assert s == s[..|pattern|] + s[|pattern|..];
      } else {
        ReplaceAllBySelf(s[1..], pattern);
        assert s == [s[0]] + s[1..];
      }
    }
  }

  /** A statement that starts with the pattern loses exactly that prefix to replaceFirst with "". */
  lemma ReplaceFirstPrefix(s: string, pattern: string)
    requires |pattern| > 0 && StartsWith(s, pattern)
    ensures ReplaceFirst(s, pattern, "") == s[|pattern|..]
  {
    assert "" + s[|pattern|..] == s[|pattern|..];
  }

  // ---------------------------------------------------------------- replies

  /**
   * replacePlaceholderInARandomPattern: a pattern is drawn and every
   * placeholder in it becomes the substitute. With no pattern to draw from,
   * Random.nextInt throws, and there is no reply.
   */
  function ReplacePlaceholderInARandomPattern(possibleReplies: seq<string>, placeholder: string,
                                              substitute: string, raw: nat): (r: Option<string>)
    requires |placeholder| > 0
    ensures r.None? <==> |possibleReplies| == 0
    ensures r.Some? ==> exists i :: 0 <= i < |possibleReplies|
                          && r.value == ReplaceAll(possibleReplies[i], placeholder, substitute)
  {
    if |possibleReplies| == 0 then None
    else
      var randomIndex := NextInt(raw, |possibleReplies|);
      Some(ReplaceAll(possibleReplies[randomIndex], placeholder, substitute))
  }

  /** respondToLegalRequest: the statement without its prefix goes into a legal-reply pattern. */
  function RespondToLegalRequest(statement: string, repliesToLegalRequest: seq<string>, raw: nat): Option<string>
  {
    var phrase := ReplaceFirst(statement, REQUEST_PREFIX, "");
    ReplacePlaceholderInARandomPattern(repliesToLegalRequest, REQUESTED_PHRASE_PLACEHOLDER, phrase, raw)
  }

  /** respondToIllegalRequest: the whole statement goes into an illegal-reply pattern. */
  function RespondToIllegalRequest(statement: string, repliesToIllegalRequest: seq<string>, raw: nat): Option<string>
  {
    ReplacePlaceholderInARandomPattern(repliesToIllegalRequest, ILLEGAL_REQUEST_PLACEHOLDER, statement, raw)
  }

  /** The pattern a draw picks out of a non-empty list. */
  function Chosen(patterns: seq<string>, raw: nat): (i: nat)
    requires |patterns| > 0
    ensures i < |patterns|
    ensures raw < |patterns| ==> i == raw
  {
    NextInt(raw, |patterns|)
  }

  /**
   * replyTo: a statement starting with "say " is answered with the drawn
   * legal pattern, each "<phrase>" replaced by the rest of the statement;
   * any other statement with the drawn illegal pattern, each "<request>"
   * replaced by the whole statement.
   */
  function ReplyTo(statement: string, repliesToLegalRequest: seq<string>, repliesToIllegalRequest: seq<string>,
                   raw: nat): (r: Option<string>)
    ensures StartsWith(statement, REQUEST_PREFIX) ==>
              (r.None? <==> |repliesToLegalRequest| == 0)
              && (r.Some? ==> r.value == ReplaceAll(repliesToLegalRequest[Chosen(repliesToLegalRequest, raw)],
                                                    REQUESTED_PHRASE_PLACEHOLDER, statement[|REQUEST_PREFIX|..]))
    ensures !StartsWith(statement, REQUEST_PREFIX) ==>
              (r.None? <==> |repliesToIllegalRequest| == 0)
              && (r.Some? ==> r.value == ReplaceAll(repliesToIllegalRequest[Chosen(repliesToIllegalRequest, raw)],
                                                    ILLEGAL_REQUEST_PLACEHOLDER, statement))
  {
    if StartsWith(statement, REQUEST_PREFIX) then
      ReplaceFirstPrefix(statement, REQUEST_PREFIX);
      RespondToLegalRequest(statement, repliesToLegalRequest, raw)
    else
      RespondToIllegalRequest(statement, repliesToIllegalRequest, raw)
  }

  /** A drawn pattern without its placeholder comes back word for word. */
  lemma PatternWithoutPlaceholder(statement: string, repliesToLegalRequest: seq<string>,
                                  repliesToIllegalRequest: seq<string>, raw: nat)
    requires StartsWith(statement, REQUEST_PREFIX) && |repliesToLegalRequest| > 0
    requires !Contains(repliesToLegalRequest[Chosen(repliesToLegalRequest, raw)], REQUESTED_PHRASE_PLACEHOLDER)
    ensures ReplyTo(statement, repliesToLegalRequest, repliesToIllegalRequest, raw)
            == Some(repliesToLegalRequest[Chosen(repliesToLegalRequest, raw)])
  {
    ReplaceAllAbsent(repliesToLegalRequest[Chosen(repliesToLegalRequest, raw)], REQUESTED_PHRASE_PLACEHOLDER,
                     statement[|REQUEST_PREFIX|..]);
  }

  /** The bot: its name and its own copies of the two pattern lists. */
  class ChatterBot {
    const name: string
    const repliesToLegalRequest: array<string>
    const repliesToIllegalRequest: array<string>

    /**
     * The constructor copies both lists element by element into new arrays,
     * so the caller's arrays are not shared with the bot.
     */
    constructor (name: string, repliesToLegalRequest: array<string>, repliesToIllegalRequest: array<string>)
      ensures this.name == name
      ensures this.repliesToLegalRequest[..] == repliesToLegalRequest[..]
      ensures this.repliesToIllegalRequest[..] == repliesToIllegalRequest[..]
      ensures fresh(this.repliesToLegalRequest) && fresh(this.repliesToIllegalRequest)
    {
      this.name := name;
      var legal := new string[repliesToLegalRequest.Length];
      var i := 0;
      while i < repliesToLegalRequest.Length
        invariant 0 <= i <= repliesToLegalRequest.Length
        invariant legal[..i] == repliesToLegalRequest[..i]
      {
        legal[i] := repliesToLegalRequest[i];
        i := i + 1;
      }
      var illegal := new string[repliesToIllegalRequest.Length];
      i := 0;
      while i < repliesToIllegalRequest.Length
        invariant 0 <= i <= repliesToIllegalRequest.Length
        invariant illegal[..i] == repliesToIllegalRequest[..i]
        invariant legal[..] == repliesToLegalRequest[..]
      {
        illegal[i] := repliesToIllegalRequest[i];
        i := i + 1;
      }
      this.repliesToLegalRequest := legal;
      this.repliesToIllegalRequest := illegal;
    }

    /** getName. */
    function GetName(): (r: string)
      ensures r == name
    {
      name
    }

    /** replyTo on the bot's own pattern lists. */
    function Reply(statement: string, raw: nat): (r: Option<string>)
      reads repliesToLegalRequest, repliesToIllegalRequest
      ensures r == ReplyTo(statement, repliesToLegalRequest[..], repliesToIllegalRequest[..], raw)
    {
      ReplyTo(statement, repliesToLegalRequest[..], repliesToIllegalRequest[..], raw)
    }
  }

  /** A caller that changes its array after building the bot does not change the bot's patterns. */
  method CallerEditAfterConstruction(name: string, legal: array<string>, illegal: array<string>, i: nat, text: string)
    returns (bot: ChatterBot)
    requires i < legal.Length
    modifies legal
    ensures bot.repliesToLegalRequest[..] == old(legal[..])
    ensures bot.repliesToIllegalRequest[..] == old(illegal[..])
    ensures legal[i] == text
  {
    bot := new ChatterBot(name, legal, illegal);
    legal[i] := text;
  }
}
