/** The `#PYDREAM_IT` directives: comment lines in the model file that set a
    parameter's prior shape (`prior <name> <shape>`) or keep a parameter out of
    sampling (`no-sample <name>`). */
module Directives {
  import opened Tokens
  import opened Faults

  const Marker := "#PYDREAM_IT"

  /** The line filter of the directive pass: more than one token, the first
      being exactly the marker. */
  predicate IsDirective(line: string) {
    var w := Split(line);
    |w| > 1 && w[0] == Marker
  }

  /** The tokens of a directive whose sub-command reads a token that is missing:
      `prior` reads two arguments, `no-sample` one. */
  predicate Malformed(w: seq<string>)
    requires |w| > 1
  {
    (w[1] == "prior" && |w| < 4) || (w[1] == "no-sample" && |w| < 3)
  }

  predicate IsMalformed(line: string) {
    IsDirective(line) && Malformed(Split(line))
  }

  /** No line of the model file makes the directive pass fail. */
  predicate WellFormed(source: seq<string>) {
    forall i :: 0 <= i < |source| ==> !IsMalformed(source[i])
  }

  /** The prior map after one line has been read. */
  function PriorStep(priors: map<string, string>, line: string): map<string, string> {
    var w := Split(line);
    if IsDirective(line) && w[1] == "prior" && |w| >= 4 then priors[w[2] := w[3]] else priors
  }

  /** The names one line adds to the exclusion list. */
  function ExcludedBy(line: string): seq<string> {
    var w := Split(line);
    if IsDirective(line) && w[1] == "no-sample" && |w| >= 3 then [w[2]] else []
  }

  /** The prior map after the lines, read in order, starting from `priors`. */
  function PriorsAfter(lines: seq<string>, priors: map<string, string>): map<string, string> {
    if lines == [] then priors
    else PriorStep(PriorsAfter(lines[..|lines| - 1], priors), lines[|lines| - 1])
  }

  /** The names the lines exclude, in the order of the lines. */
  function Excluded(lines: seq<string>): seq<string> {
    if lines == [] then []
    else Excluded(lines[..|lines| - 1]) + ExcludedBy(lines[|lines| - 1])
  }

  /** The shape given to `x` by the last `prior x <shape>` line, if any. */
  function LastPrior(lines: seq<string>, x: string): Option<string> {
    if lines == [] then None
    else
      var line := lines[|lines| - 1];
      var w := Split(line);
      if IsDirective(line) && w[1] == "prior" && |w| >= 4 && w[2] == x then Some(w[3])
      else LastPrior(lines[..|lines| - 1], x)
  }

  /** Later `prior` directives overwrite earlier ones: after the pass, `x` maps to
      the shape of its last `prior` line, and keeps its earlier value if it has none. */
  lemma {:induction false} PriorsAfterLastWins(lines: seq<string>, priors: map<string, string>, x: string)
    ensures x in PriorsAfter(lines, priors) <==> x in priors || LastPrior(lines, x).Some?
    ensures x in PriorsAfter(lines, priors) ==>
      PriorsAfter(lines, priors)[x] ==
        if LastPrior(lines, x).Some? then LastPrior(lines, x).value else priors[x]
  {
    if lines != [] {
      PriorsAfterLastWins(lines[..|lines| - 1], priors, x);
    }
  }

  /** A name is excluded exactly when some line is a `no-sample` directive for it. */
  lemma {:induction false} ExcludedNames(lines: seq<string>, x: string)
    ensures x in Excluded(lines) <==> exists i :: 0 <= i < |lines| && ExcludedBy(lines[i]) == [x]
  {
    if lines != [] {
      var init := lines[..|lines| - 1];
      ExcludedNames(init, x);
      if x in Excluded(lines) && x !in Excluded(init) {
        assert ExcludedBy(lines[|lines| - 1]) == [x];
      }
      if exists i :: 0 <= i < |lines| && ExcludedBy(lines[i]) == [x] {
        var i :| 0 <= i < |lines| && ExcludedBy(lines[i]) == [x];
        if i < |lines| - 1 {
          assert ExcludedBy(init[i]) == [x];
        }
      }
    }
  }

  /** A file with a line inserted between two pieces is well formed iff the
      pieces are and the line is not malformed. */
  lemma WellFormedInsert(a: seq<string>, b: seq<string>, line: string)
    ensures WellFormed(a + [line] + b) <==> WellFormed(a + b) && !IsMalformed(line)
  {
    var longer, source := a + [line] + b, a + b;
    assert forall i :: 0 <= i < |a| ==> longer[i] == source[i];
    assert longer[|a|] == line;
    assert forall i :: |a| <= i < |source| ==> longer[i + 1] == source[i];
    if WellFormed(source) && !IsMalformed(line) {
      forall i | 0 <= i < |longer| ensures !IsMalformed(longer[i]) {
        if i > |a| {
          assert longer[i] == source[i - 1];
        }
      }
    }
  }

  /** The exclusions of two pieces of a file are those of the first, then the second. */
  lemma {:induction false} ExcludedConcat(a: seq<string>, b: seq<string>)
    ensures Excluded(a + b) == Excluded(a) + Excluded(b)
    decreases |b|
  {
    if b == [] {
      assert a + b == a;
    } else {
      var init := b[..|b| - 1];
      assert (a + b)[..|a + b| - 1] == a + init;
      assert (a + b)[|a + b| - 1] == b[|b| - 1];
      ExcludedConcat(a, init);
    }
  }

  /** The exclusions of a file with one more last line. */
  lemma ExcludedSnoc(a: seq<string>, line: string)
    ensures Excluded(a + [line]) == Excluded(a) + ExcludedBy(line)
  {
    assert (a + [line])[..|a + [line]| - 1] == a;
    assert (a + [line])[|a + [line]| - 1] == line;
  }

  /** Inserting a line that excludes nothing between two pieces of a file leaves
      the exclusion list unchanged. */
  lemma ExcludedInsert(a: seq<string>, b: seq<string>, line: string)
    requires ExcludedBy(line) == []
    ensures Excluded(a + [line] + b) == Excluded(a + b)
  {
    ExcludedSnoc(a, line);
    assert Excluded(a + [line]) == Excluded(a);
    ExcludedConcat(a + [line], b);
    ExcludedConcat(a, b);
  }

  /** Inserting a line that is not a `prior` directive for `x` anywhere in the
      file leaves the last prior of `x` unchanged. */
  lemma {:induction false} LastPriorInsert(a: seq<string>, b: seq<string>, line: string, x: string)
    requires !(IsDirective(line) && Split(line)[1] == "prior" && |Split(line)| >= 4 && Split(line)[2] == x)
    ensures LastPrior(a + [line] + b, x) == LastPrior(a + b, x)
    decreases |b|
  {
    if b == [] {
      assert (a + [line] + b)[..|a| ] == a;
      assert a + b == a;
    } else {
      var init := b[..|b| - 1];
      assert (a + [line] + b)[..|a + [line] + b| - 1] == a + [line] + init;
      assert (a + [line] + b)[|a + [line] + b| - 1] == b[|b| - 1];
      assert (a + b)[..|a + b| - 1] == a + init;
      assert (a + b)[|a + b| - 1] == b[|b| - 1];
      LastPriorInsert(a, init, line, x);
    }
  }

  /** Inserting a `prior` directive for some other name between two pieces of
      a file leaves the prior of `x` after the pass unchanged. */
  lemma PriorsAfterInsert(a: seq<string>, b: seq<string>, line: string, x: string)
    requires IsDirective(line)
    requires |Split(line)| >= 4 && Split(line)[1] == "prior" && Split(line)[2] != x
    ensures x in PriorsAfter(a + [line] + b, map[]) <==> x in PriorsAfter(a + b, map[])
    ensures x in PriorsAfter(a + b, map[]) ==>
      PriorsAfter(a + [line] + b, map[])[x] == PriorsAfter(a + b, map[])[x]
  {
    LastPriorInsert(a, b, line, x);
    PriorsAfterLastWins(a + [line] + b, map[], x);
    PriorsAfterLastWins(a + b, map[], x);
  }

  /** The two collections the directives fill in place: the prior shape chosen
      per parameter name, and the names not to sample (duplicates kept). */
  class Overrides {
    var priors: map<string, string>
    var noSample: seq<string>

    constructor ()
      ensures priors == map[] && noSample == []
    {
      priors := map[];
      noSample := [];
    }

    /** Applies one directive line; the caller has checked it holds at least two tokens. */
    method ParseDirective(line: string) returns (r: Outcome)
      requires |Split(line)| > 1
      modifies this
      ensures r.Fail? <==> Malformed(Split(line))
      ensures r.Fail? ==> r.fault == IndexError && priors == old(priors) && noSample == old(noSample)
      ensures var w := Split(line);
        w[1] == "prior" && |w| >= 4 ==> priors == old(priors)[w[2] := w[3]] && noSample == old(noSample)
      ensures var w := Split(line);
        w[1] == "no-sample" && |w| >= 3 ==> noSample == old(noSample) + [w[2]] && priors == old(priors)
      ensures var w := Split(line);
        w[1] != "prior" && w[1] != "no-sample" ==> priors == old(priors) && noSample == old(noSample)
    {
      var words := Split(line);
      if words[1] == "prior" {
        if |words| < 4 {
          return Fail(IndexError);
        }
        priors := priors[words[2] := words[3]];
      } else if words[1] == "no-sample" {
        if |words| < 3 {
          return Fail(IndexError);
        }
        noSample := noSample + [words[2]];
      }
      return Pass;
    }
  }

  /** The directive pass over the model file's lines: every directive line is
      handed to `ParseDirective`; the first malformed one ends the run. */
  method ScanDirectives(source: seq<string>, o: Overrides) returns (r: Outcome)
    modifies o
    ensures r == if WellFormed(source) then Pass else Fail(IndexError)
    ensures r.Pass? ==> o.priors == PriorsAfter(source, old(o.priors))
    ensures r.Pass? ==> o.noSample == old(o.noSample) + Excluded(source)
  {
    for i := 0 to |source|
      invariant WellFormed(source[..i])
      invariant o.priors == PriorsAfter(source[..i], old(o.priors))
      invariant o.noSample == old(o.noSample) + Excluded(source[..i])
    {
      var line := source[i];
      assert source[..i + 1][..i] == source[..i];
      var words := Split(line);
      if |words| > 1 && words[0] == Marker {
        var st := o.ParseDirective(line);
        if st.Fail? {
          assert IsMalformed(source[i]);
          return st;
        }
      }
    }
    assert source[..|source|] == source;
    return Pass;
  }
}
