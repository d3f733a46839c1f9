/**
 * The string helpers the scripts rely on: Python's `str.split()` with no
 * argument, `' '.join(...)`, `str.endswith` and `file.readlines()`.
 */
module Text {

  /** `str.isspace()` for one character: the characters Python's `split()` breaks on. */
  predicate IsWhitespace(c: char)
  {
    || '\U{9}' <= c <= '\U{D}'
    || '\U{1C}' <= c <= '\U{20}'
    || c == '\U{85}' || c == '\U{A0}' || c == '\U{1680}'
    || '\U{2000}' <= c <= '\U{200A}'
    || c == '\U{2028}' || c == '\U{2029}' || c == '\U{202F}' || c == '\U{205F}'
    || c == '\U{3000}'
  }

  /** A field of an annotation line: non-empty and free of whitespace. */
  predicate IsToken(w: string)
  {
    |w| > 0 && forall i :: 0 <= i < |w| ==> !IsWhitespace(w[i])
  }

  /** `s.endswith(suffix)`. */
  predicate EndsWith(s: string, suffix: string)
  {
    |suffix| <= |s| && s[|s| - |suffix|..] == suffix
  }

  /** Length of the run of non-whitespace characters that starts `s`. */
  function WordLength(s: string): (n: nat)
    ensures n <= |s|
    ensures forall i :: 0 <= i < n ==> !IsWhitespace(s[i])
    ensures n < |s| ==> IsWhitespace(s[n])
  {
    if s == [] || IsWhitespace(s[0]) then 0 else 1 + WordLength(s[1..])
  }

  /** `s.split()`: the maximal runs of non-whitespace characters, in order. */
  function SplitWhitespace(s: string): (words: seq<string>)
    ensures forall k :: 0 <= k < |words| ==> IsToken(words[k])
    decreases |s|
  {
    if s == [] then []
    else if IsWhitespace(s[0]) then SplitWhitespace(s[1..])
    else
      var n := WordLength(s);
      [s[..n]] + SplitWhitespace(s[n..])
  }

  /** `' '.join(fields)`. */
  function JoinWithSpaces(fields: seq<string>): string
  {
    if |fields| == 0 then ""
    else if |fields| == 1 then fields[0]
    else fields[0] + " " + JoinWithSpaces(fields[1..])
  }

  /**
   * Length of the first line of `s` as `readlines()` cuts it: up to and
   * including the first newline, or all of `s` when it has none.
   */
  function LineLength(s: string): (n: nat)
    requires s != []
    ensures 0 < n <= |s|
    ensures forall i :: 0 <= i < n - 1 ==> s[i] != '\n'
    ensures n < |s| ==> s[n - 1] == '\n'
  {
    if s[0] == '\n' || |s| == 1 then 1 else 1 + LineLength(s[1..])
  }

  /** `readlines()` on a text: every line keeps its terminating newline. */
  function ReadLines(text: string): (lines: seq<string>)
    ensures forall k :: 0 <= k < |lines| ==> lines[k] != []
    decreases |text|
  {
    if text == [] then []
    else
      var n := LineLength(text);
      [text[..n]] + ReadLines(text[n..])
  }

  /** A word followed by nothing or by whitespace is split off as one field. */
  lemma {:induction false} SplitWord(w: string, rest: string)
    requires IsToken(w)
    requires rest == [] || IsWhitespace(rest[0])
    ensures SplitWhitespace(w + rest) == [w] + SplitWhitespace(rest)
  {
    WordLengthOfToken(w, rest);
    assert (w + rest)[..|w|] == w;
    assert (w + rest)[|w|..] == rest;
  }

  lemma {:induction false} WordLengthOfToken(w: string, rest: string)
    requires forall i :: 0 <= i < |w| ==> !IsWhitespace(w[i])
    requires rest == [] || IsWhitespace(rest[0])
    ensures WordLength(w + rest) == |w|
  {
    if w != [] {
      assert (w + rest)[1..] == w[1..] + rest;
      WordLengthOfToken(w[1..], rest);
    }
  }

  /**
   * Splitting a space-joined line of tokens, terminated by a newline, gives
   * the tokens back.
   */
  lemma {:induction false} SplitJoinedLine(fields: seq<string>)
    requires forall k :: 0 <= k < |fields| ==> IsToken(fields[k])
    ensures SplitWhitespace(JoinWithSpaces(fields) + "\n") == fields
  {
    if |fields| == 0 {
      assert SplitWhitespace("\n") == SplitWhitespace("");
    } else if |fields| == 1 {
      SplitWord(fields[0], "\n");
      assert SplitWhitespace("\n") == SplitWhitespace("");
    } else {
      var rest := JoinWithSpaces(fields[1..]) + "\n";
      assert JoinWithSpaces(fields) + "\n" == fields[0] + (" " + rest);
      SplitWord(fields[0], " " + rest);
      assert (" " + rest)[1..] == rest;
      SplitJoinedLine(fields[1..]);
      assert fields == [fields[0]] + fields[1..];
    }
  }

  /** A joined line of tokens holds no newline. */
  lemma {:induction false} JoinedHasNoNewline(fields: seq<string>)
    requires forall k :: 0 <= k < |fields| ==> IsToken(fields[k])
    ensures forall i :: 0 <= i < |JoinWithSpaces(fields)| ==> JoinWithSpaces(fields)[i] != '\n'
  {
    if |fields| >= 2 {
      JoinedHasNoNewline(fields[1..]);
      var tail := JoinWithSpaces(fields[1..]);
      assert JoinWithSpaces(fields) == fields[0] + " " + tail;
      forall i | 0 <= i < |JoinWithSpaces(fields)|
        ensures JoinWithSpaces(fields)[i] != '\n'
      {
        if i < |fields[0]| {
          assert JoinWithSpaces(fields)[i] == fields[0][i];
        } else if i > |fields[0]| {
          assert JoinWithSpaces(fields)[i] == tail[i - |fields[0]| - 1];
        }
      }
    } else if |fields| == 1 {
      assert IsToken(fields[0]);
    }
  }

  /** `readlines()` cuts a newline-free line plus its newline off the front of a text. */
  lemma {:induction false} ReadLinesCons(line: string, rest: string)
    requires forall i :: 0 <= i < |line| ==> line[i] != '\n'
    ensures ReadLines(line + "\n" + rest) == [line + "\n"] + ReadLines(rest)
  {
    var text := line + "\n" + rest;
    LineLengthOf(line, rest);
    assert text[..|line| + 1] == line + "\n";
    assert text[|line| + 1..] == rest;
  }

  lemma {:induction false} LineLengthOf(line: string, rest: string)
    requires forall i :: 0 <= i < |line| ==> line[i] != '\n'
    ensures LineLength(line + "\n" + rest) == |line| + 1
  {
    if line != [] {
      assert (line + "\n" + rest)[1..] == line[1..] + "\n" + rest;
      LineLengthOf(line[1..], rest);
    }
  }
}
