/** Whitespace tokenisation, as done by Python's `str.split()` with no argument:
    the line is cut at runs of whitespace and empty pieces are dropped. */
module Tokens {

  /** The whitespace characters of the ASCII range that `str.split()` cuts at:
      tab, line feed, vertical tab, form feed, carriage return, the four
      information separators (0x1C-0x1F) and the space. */
  predicate IsSpace(c: char) {
    c == ' ' || (9 <= c as int <= 13) || (28 <= c as int <= 31)
  }

  predicate NoSpace(w: string) {
    forall i :: 0 <= i < |w| ==> !IsSpace(w[i])
  }

  /** A token: what `str.split()` can return. */
  predicate IsWord(w: string) {
    |w| > 0 && NoSpace(w)
  }

  /** Length of the longest prefix of `s` that holds no whitespace. */
  function WordLength(s: string): (n: nat)
    ensures n <= |s|
    ensures NoSpace(s[..n])
    ensures n < |s| ==> IsSpace(s[n])
  {
    if s == [] || IsSpace(s[0]) then 0 else 1 + WordLength(s[1..])
  }

  /** `s.split()`: the maximal whitespace-free runs of `s`, left to right. */
  function Split(s: string): (words: seq<string>)
    ensures forall i :: 0 <= i < |words| ==> IsWord(words[i])
    ensures |words| <= |s|
    decreases |s|
  {
    if s == [] then []
    else if IsSpace(s[0]) then Split(s[1..])
    else
      var n := WordLength(s);
      [s[..n]] + Split(s[n..])
  }

  /** `" ".join(words)`: the words separated by single spaces. */
  function Join(words: seq<string>): string {
    if words == [] then ""
    else if |words| == 1 then words[0]
    else words[0] + " " + Join(words[1..])
  }

  /** A word followed by nothing or by whitespace is read back as the first token. */
  lemma {:induction false} SplitLeadingWord(w: string, rest: string)
    requires IsWord(w)
    requires rest == [] || IsSpace(rest[0])
    ensures Split(w + rest) == [w] + Split(rest)
  {
    var s := w + rest;
    LeadingWordLength(w, rest);
    assert s[..|w|] == w;
    assert s[|w|..] == rest;
  }

  lemma {:induction false} LeadingWordLength(w: string, rest: string)
    requires NoSpace(w)
    requires rest == [] || IsSpace(rest[0])
    ensures WordLength(w + rest) == |w|
    decreases |w|
  {
    if w == [] {
      assert w + rest == rest;
    } else {
      assert (w + rest)[1..] == w[1..] + rest;
      LeadingWordLength(w[1..], rest);
    }
  }

  /** Leading whitespace does not change the tokens. */
  lemma {:induction false} SplitSkipsSpace(c: char, s: string)
    requires IsSpace(c)
    ensures Split([c] + s) == Split(s)
  {
    assert ([c] + s)[1..] == s;
  }

  /** Splitting undoes joining: a list of tokens survives `" ".join` then `split()`. */
  lemma {:induction false} SplitJoin(words: seq<string>)
    requires forall i :: 0 <= i < |words| ==> IsWord(words[i])
    ensures Split(Join(words)) == words
  {
    if words == [] {
    } else if |words| == 1 {
      SplitLeadingWord(words[0], "");
      assert words[0] + "" == words[0];
    } else {
      var tail := Join(words[1..]);
      SplitJoin(words[1..]);
      SplitSkipsSpace(' ', tail);
      SplitLeadingWord(words[0], " " + tail);
      assert words[0] + " " + tail == words[0] + (" " + tail);
    }
  }
}
