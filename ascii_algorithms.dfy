/**
 * The algorithm exercises of ascii_art (ascii_art/Algorithms.java): Floyd's
 * cycle detection finding the repeated number of an array, and counting the
 * distinct Morse codes of a list of lowercase words.
 */
module AsciiAlgorithms {

  /** The code of 'a'. */
  const A_CODE: int := 97

  /** The Morse codes of 'a' to 'z'. */
  const MORSE_ALPHABET: seq<string> := [".-", "-...", "-.-.", "-..", ".", "..-.",
    "--.", "....", "..", ".---", "-.-", ".-..", "--", "-.", "---", ".--.", "--.-", ".-.", "...", "-",
    "..-", "...-", ".--", "-..-", "-.--", "--.."]

  // ---------------------------------------------------------------------
  // findDuplicate

  /** findDuplicate's input: n + 1 numbers, each in [1, n]; every number is then an index. */
  predicate InRange(a: seq<int>)
  {
    |a| >= 2 && forall i :: 0 <= i < |a| ==> 1 <= a[i] < |a|
  }

  /** v sits at two different positions of a. */
  predicate Repeated(a: seq<int>, v: int)
  {
    exists i, j :: 0 <= i < j < |a| && a[i] == v && a[j] == v
  }

  /**
   * The walk i -> a[i] started at a[0]: Step(a, k) is the value after k
   * steps, so Step(a, 0) == a[0] and Step(a, k + 1) == a[Step(a, k)].
   */
  function Step(a: seq<int>, k: nat): (v: int)
    requires InRange(a)
    ensures 1 <= v < |a|
  {
    if k == 0 then a[0] else a[Step(a, k - 1)]
  }

  /** Two walks that meet stay together. */
  lemma {:induction false} StepShift(a: seq<int>, i: nat, j: nat, m: nat)
    requires InRange(a) && Step(a, i) == Step(a, j)
    ensures Step(a, i + m) == Step(a, j + m)
    decreases m
  {
    if m > 0 {
      StepShift(a, i, j, m - 1);
    }
  }

  /** c times p, by repeated addition. */
  function Times(c: nat, p: nat): (r: nat)
    ensures p >= 1 ==> r >= c
  {
    if c == 0 then 0 else Times(c - 1, p) + p
  }

  /** Past position i, a walk that repeats after p steps repeats after any multiple of p. */
  lemma {:induction false} StepPeriod(a: seq<int>, i: nat, p: nat, m: nat, c: nat)
    requires InRange(a) && Step(a, i) == Step(a, i + p) && m >= i
    ensures Step(a, m) == Step(a, m + Times(c, p))
    decreases c
  {
    if c > 0 {
      StepPeriod(a, i, p, m, c - 1);
      StepShift(a, i, i + p, m + Times(c - 1, p) - i);
    }
  }

  /** n + 1 numbers in [1, n] hold a number twice. */
  lemma {:induction false} Pigeonhole(s: seq<int>, n: int)
    requires n >= 1 && |s| == n + 1 && forall i :: 0 <= i < |s| ==> 1 <= s[i] <= n
    ensures exists i, j :: 0 <= i < j < |s| && s[i] == s[j]
    decreases n
  {
    if n == 1 {
      assert s[0] == s[1];
    } else if !(exists i, j :: 0 <= i < j < |s| && s[i] == n && s[j] == n) {
      // Drop the one position holding n (or the last one): n numbers in [1, n - 1] remain.
      var p := if exists q :: 0 <= q < |s| && s[q] == n then (var q :| 0 <= q < |s| && s[q] == n; q) else n;
      var t := s[..p] + s[p + 1..];
      assert forall k :: 0 <= k < |t| ==> t[k] == if k < p then s[k] else s[k + 1];
      Pigeonhole(t, n - 1);
      var i', j' :| 0 <= i' < j' < |t| && t[i'] == t[j'];
      var i := if i' < p then i' else i' + 1;
      var j := if j' < p then j' else j' + 1;
      assert s[i] == s[j];
    }
  }

  /** The walk comes back: some s >= 1 has Step(a, s) == Step(a, 2 * s). */
  lemma MeetingExists(a: seq<int>) returns (s: nat)
    requires InRange(a)
    ensures s >= 1 && Step(a, s) == Step(a, 2 * s)
  {
    var n := |a| - 1;
    var walk := seq(n + 1, k requires 0 <= k => Step(a, k));
    Pigeonhole(walk, n);
    var i, j :| 0 <= i < j < |walk| && walk[i] == walk[j];
    var p := j - i;
    s := Times(i + 1, p);
    StepPeriod(a, i, p, s, i + 1);
  }

  /** The value where the second phase stops is repeated in a. */
  lemma MeetingIsRepeated(a: seq<int>, s: nat, k: nat)
    requires InRange(a) && s >= 1 && Step(a, k) == Step(a, s + k)
    requires k > 0 ==> Step(a, k - 1) != Step(a, s + k - 1)
    ensures Repeated(a, Step(a, k))
  {
    var i, j := if k == 0 then 0 else Step(a, k - 1), Step(a, s + k - 1);
    assert a[i] == Step(a, k) && a[j] == Step(a, k);
    if i < j {
      assert Repeated(a, Step(a, k));
    } else {
      assert j < i;
      assert Repeated(a, Step(a, k));
    }
  }

  /**
   * findDuplicate: the tortoise and the hare walk i -> numList[i] from
   * numList[0], one and two steps at a time, until they meet; then the
   * tortoise starts over and both walk one step at a time until they meet
   * again, at the entrance of the cycle. That value is at two different
   * positions of the array, so when exactly one number repeats it is that
   * number. The array is only read.
   */
  method FindDuplicate(numList: array<int>) returns (r: int)
    requires InRange(numList[..])
    ensures Repeated(numList[..], r)
  {
    ghost var a := numList[..];
    ghost var bound := MeetingExists(a);
    var tortoise := numList[0];
    var hare := numList[0];
    ghost var s: nat := 0;
    tortoise := numList[tortoise];
    hare := numList[numList[hare]];
    s := 1;
    while tortoise != hare
      invariant 1 <= s <= bound
      invariant tortoise == Step(a, s) && hare == Step(a, 2 * s)
      decreases bound - s
    {
      tortoise := numList[tortoise];
      hare := numList[numList[hare]];
      s := s + 1;
    }
    tortoise := numList[0];
    ghost var k: nat := 0;
    StepShift(a, s, 2 * s, s);
    while tortoise != hare
      invariant k <= s
      invariant tortoise == Step(a, k) && hare == Step(a, s + k)
      invariant k > 0 ==> Step(a, k - 1) != Step(a, s + k - 1)
      decreases s - k
    {
      tortoise := numList[tortoise];
      hare := numList[hare];
      k := k + 1;
    }
    MeetingIsRepeated(a, s, k);
    return hare;
  }

  // ---------------------------------------------------------------------
  // Morse codes

  predicate Lowercase(word: string)
  {
    forall i :: 0 <= i < |word| ==> 'a' <= word[i] <= 'z'
  }

  /** A code for each of the 26 letters, as MORSE_ALPHABET is. */
  predicate IsTable(table: seq<string>)
  {
    |table| == 26
  }

  /** The code of one letter: its entry in the table. */
  function Letter(table: seq<string>, c: char): string
    requires IsTable(table) && 'a' <= c <= 'z'
  {
    table[c as int - A_CODE]
  }

  /** The code of a lowercase word: its letters' codes, in order, with no separator. */
  function Code(table: seq<string>, word: string): string
    requires IsTable(table) && Lowercase(word)
  {
    if word == [] then "" else Code(table, word[..|word| - 1]) + Letter(table, word[|word| - 1])
  }

  /** The code of two words written one after the other is the two codes one after the other. */
  lemma {:induction false} CodeConcat(table: seq<string>, u: string, v: string)
    requires IsTable(table) && Lowercase(u) && Lowercase(v)
    ensures Lowercase(u + v) && Code(table, u + v) == Code(table, u) + Code(table, v)
    decreases |v|
  {
    if v == [] {
      assert u + v == u;
    } else {
      var init, c := v[..|v| - 1], v[|v| - 1];
      assert v == init + [c] && u + v == (u + init) + [c];
      CodeConcat(table, u, init);
      CodeSnoc(table, u + init, c);
      CodeSnoc(table, init, c);
    }
  }

  /** One more letter appends its code. */
  lemma CodeSnoc(table: seq<string>, w: string, c: char)
    requires IsTable(table) && Lowercase(w) && 'a' <= c <= 'z'
    ensures Lowercase(w + [c]) && Code(table, w + [c]) == Code(table, w) + Letter(table, c)
  {
    assert (w + [c])[..|w|] == w;
  }

  /** With every letter's code non-empty, a word's code is at least as long as the word. */
  lemma {:induction false} CodeLength(table: seq<string>, word: string)
    requires IsTable(table) && Lowercase(word)
    requires forall i :: 0 <= i < 26 ==> |table[i]| >= 1
    ensures |Code(table, word)| >= |word|
    decreases |word|
  {
    if word != [] {
      CodeLength(table, word[..|word| - 1]);
    }
  }

  /** Every Morse letter has a code of one to four symbols. */
  lemma MorseLetters()
    ensures IsTable(MORSE_ALPHABET)
    ensures forall i :: 0 <= i < 26 ==> 1 <= |MORSE_ALPHABET[i]| <= 4
  {
  }

  /** "gin" and "zen" share a code, so the two words count once. */
  lemma GinZen()
    ensures Lowercase("gin") && Lowercase("zen") && IsTable(MORSE_ALPHABET)
    ensures Code(MORSE_ALPHABET, "gin") == Code(MORSE_ALPHABET, "zen") == "--...-."
  {
    assert "gin"[..2] == "gi" && "gi"[..1] == "g" && "g"[..0] == "";
    assert "zen"[..2] == "ze" && "ze"[..1] == "z" && "z"[..0] == "";
  }

  /** translateToMorse: the letters' codes appended in order. */
  method TranslateToMorse(word: string) returns (translated: string)
    requires Lowercase(word)
    ensures IsTable(MORSE_ALPHABET) && translated == Code(MORSE_ALPHABET, word)
  {
    translated := "";
    var i := 0;
    while i < |word|
      invariant 0 <= i <= |word|
      invariant translated == Code(MORSE_ALPHABET, word[..i])
    {
      assert word[..i + 1][..i] == word[..i];
      translated := translated + MORSE_ALPHABET[word[i] as int - A_CODE];
      i := i + 1;
    }
    assert word[..i] == word;
  }

  /** The distinct Morse codes of the words. */
  function Codes(words: seq<string>): set<string>
    requires forall i :: 0 <= i < |words| ==> Lowercase(words[i])
  {
    set i | 0 <= i < |words| :: Code(MORSE_ALPHABET, words[i])
  }

  /**
   * uniqueMorseRepresentations: the number of distinct codes, no more than
   * the number of words (none for no words).
   */
  method UniqueMorseRepresentations(words: seq<string>) returns (count: nat)
    requires forall i :: 0 <= i < |words| ==> Lowercase(words[i])
    ensures count == |Codes(words)|
    ensures count <= |words|
  {
    var translatedWords: set<string> := {};
    var i := 0;
    while i < |words|
      invariant 0 <= i <= |words|
      invariant translatedWords == Codes(words[..i])
      invariant |translatedWords| <= i
    {
      var code := TranslateToMorse(words[i]);
      assert Codes(words[..i + 1]) == Codes(words[..i]) + {code} by {
        assert forall j :: 0 <= j < i ==> words[..i + 1][j] == words[..i][j];
      }
      translatedWords := translatedWords + {code};
      i := i + 1;
    }
    assert words[..i] == words;
    count := |translatedWords|;
  }
}
