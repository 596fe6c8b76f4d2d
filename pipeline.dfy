/** The generator's core pass: directives, then discovery, exclusion, default
    priors and the sampled-parameter block, in the order the script runs them. */
module Pipeline {
  import opened Tokens
  import opened Faults
  import opened Directives
  import opened Discovery
  import opened Resolution
  import opened Emission

  /** The prior shape a run gives to `name`: that of its last `prior` directive,
      otherwise the default. */
  function ShapeOf(source: seq<string>, name: string): string {
    LastPrior(source, name).GetOr(DefaultPriorShape)
  }

  /** The kinetic parameters left to sample. */
  function Resolved(source: seq<string>, rules: seq<Rule>): Result<seq<Entry>> {
    if !WellFormed(source) then Err(IndexError)
    else
      match Discovered(rules)
      case Err(f) => Err(f)
      case Ok(found) => Ok(PruneNoSamples(found, Excluded(source)))
  }

  /** The sampled-parameter block generated from the model file's lines and the
      model's rules, or the fault that ends the run. */
  function Generate(source: seq<string>, rules: seq<Rule>): Result<seq<string>> {
    match Resolved(source, rules)
    case Err(f) => Err(f)
    case Ok(parameters) =>
      var priors := Backfilled(PriorsAfter(source, map[]), parameters);
      BackfilledCovers(PriorsAfter(source, map[]), parameters);
      Ok(SampledParamLines(parameters, priors))
  }

  /** The run: the directive pass fills `priors` and `no_sample` in place, the
      rules are walked, the list is pruned, the priors are backfilled in place
      and the block is written. */
  method Run(source: seq<string>, rules: seq<Rule>) returns (r: Result<seq<string>>)
    ensures r == Generate(source, rules)
  {
    var overrides := new Overrides();
    var scanned := ScanDirectives(source, overrides);
    if scanned.Fail? {
      assert Resolved(source, rules) == Err(IndexError);
      return Err(scanned.fault);
    }
    assert [] + Excluded(source) == Excluded(source);
    var found := DiscoverParameters(rules);
    if found.Err? {
      assert Resolved(source, rules) == Err(found.fault);
      return Err(found.fault);
    }
    var parameters := PruneNoSamples(found.value, overrides.noSample);
    assert Resolved(source, rules) == Ok(parameters);
    BackfillDefaults(overrides, parameters);
    BackfilledCovers(PriorsAfter(source, map[]), parameters);
    var lines := WriteSampledParams(parameters, overrides.priors);
    return Ok(lines);
  }

  /** A run fails exactly when a directive lacks its tokens or a rule's forward
      rate is None; a directive fault is reported first. */
  lemma GenerateOk(source: seq<string>, rules: seq<Rule>)
    ensures Generate(source, rules).Ok? <==>
      WellFormed(source) && forall i :: 0 <= i < |rules| ==> rules[i].rateForward != Null
    ensures !WellFormed(source) ==> Generate(source, rules) == Err(IndexError)
    ensures WellFormed(source) && Generate(source, rules).Err? ==>
      Generate(source, rules) == Err(AttributeError)
  {
    DiscoveredOk(rules);
  }

  /** Exclusion wins: a name with a `no-sample` directive anywhere in the file is
      never sampled, whatever `prior` directives name it, before or after. */
  lemma ExclusionWins(source: seq<string>, rules: seq<Rule>, j: nat, x: string)
    requires j < |source| && ExcludedBy(source[j]) == [x]
    requires Resolved(source, rules).Ok?
    ensures forall e :: e in Resolved(source, rules).value ==> e.name != x
  {
    ExcludedNames(source, x);
  }

  /** The parameters left to sample are the discovered ones whose name no
      `no-sample` directive names (their order is that of discovery, since the
      filter is stable: `PruneConcat`). */
  lemma ResolvedMembers(source: seq<string>, rules: seq<Rule>)
    requires Resolved(source, rules).Ok?
    ensures Discovered(rules).Ok?
    ensures forall e :: e in Resolved(source, rules).value <==>
      e in Discovered(rules).value && !exists j :: 0 <= j < |source| && ExcludedBy(source[j]) == [e.name]
  {
    forall e: Entry {
      ExcludedNames(source, e.name);
    }
  }

  /** Each resolved parameter gets two lines, in order: the uniform declaration
      exactly when its last `prior` directive says `uniform`, the normal one
      otherwise (no directive, or any other token), then the registration of
      `sp_<name>`. */
  lemma GenerateLines(source: seq<string>, rules: seq<Rule>)
    requires Generate(source, rules).Ok?
    ensures Resolved(source, rules).Ok?
    ensures var parameters := Resolved(source, rules).value;
      var out := Generate(source, rules).value;
      |out| == 2 * |parameters| &&
      forall i :: 0 <= i < |parameters| ==>
        var e := parameters[i];
        (ShapeOf(source, e.name) == UniformShape ==> out[2 * i] == UniformParamLine(e.name, e.value)) &&
        (ShapeOf(source, e.name) != UniformShape ==> out[2 * i] == NormParamLine(e.name, e.value)) &&
        (NoSpace(e.name) ==> out[2 * i + 1] == RegistrationLine("sp_" + e.name))
  {
    var parameters := Resolved(source, rules).value;
    var scanned := PriorsAfter(source, map[]);
    var priors := Backfilled(scanned, parameters);
    BackfilledCovers(scanned, parameters);
    SampledParamLinesAt(parameters, priors);
    forall i | 0 <= i < |parameters|
      ensures priors[parameters[i].name] == ShapeOf(source, parameters[i].name)
    {
      PriorsAfterLastWins(source, map[], parameters[i].name);
    }
  }

  /** Inserting a well-formed `prior` directive anywhere in the file leaves the
      sampled parameters unchanged. */
  lemma ResolvedInsertPrior(a: seq<string>, b: seq<string>, rules: seq<Rule>, line: string)
    requires IsDirective(line)
    requires |Split(line)| >= 4 && Split(line)[1] == "prior"
    ensures Resolved(a + [line] + b, rules) == Resolved(a + b, rules)
  {
    assert ExcludedBy(line) == [];
    assert !IsMalformed(line);
    WellFormedInsert(a, b, line);
    ExcludedInsert(a, b, line);
  }

  /** A `prior` directive for a name that is not a discovered parameter has no
      effect on the generated block, wherever in the file it is inserted (the
      file being `a + b`, the line going between `a` and `b`). */
  lemma IrrelevantPrior(a: seq<string>, b: seq<string>, rules: seq<Rule>, line: string)
    requires IsDirective(line)
    requires |Split(line)| >= 4 && Split(line)[1] == "prior"
    requires Discovered(rules).Ok? ==>
      forall e :: e in Discovered(rules).value ==> e.name != Split(line)[2]
    ensures Generate(a + [line] + b, rules) == Generate(a + b, rules)
  {
    ResolvedInsertPrior(a, b, rules, line);
    if Resolved(a + b, rules).Ok? {
      var parameters := Resolved(a + b, rules).value;
      var m1 := PriorsAfter(a + [line] + b, map[]);
      var m2 := PriorsAfter(a + b, map[]);
      var p1 := Backfilled(m1, parameters);
      var p2 := Backfilled(m2, parameters);
      BackfilledCovers(m1, parameters);
      BackfilledCovers(m2, parameters);
      forall i | 0 <= i < |parameters|
        ensures p1[parameters[i].name] == p2[parameters[i].name]
      {
        assert parameters[i] in Discovered(rules).value;
        PriorsAfterInsert(a, b, line, parameters[i].name);
      }
      SampledParamLinesLocal(parameters, p1, p2);
    }
  }

  lemma MarkerIsWord()
    ensures IsWord(Marker)
  {
  }

  const ExamplePrior := [Marker, "prior", "k1", "uniform"]
  const ExampleExclude := [Marker, "no-sample", "k2"]

  /** The lines `#PYDREAM_IT prior k1 uniform` and `#PYDREAM_IT no-sample k2`. */
  const ExampleSource := [Join(ExamplePrior), Join(ExampleExclude)]

  const ExampleRules := [
    Rule(Present(Parameter("k1", "1.0")), Present(Parameter("k2", "2.0"))),
    Rule(Present(Parameter("k3", "3.0")), Null)]

  lemma ExampleTokens()
    ensures Split(ExampleSource[0]) == ExamplePrior
    ensures Split(ExampleSource[1]) == ExampleExclude
  {
    MarkerIsWord();
    assert IsWord("prior") && IsWord("k1") && IsWord("uniform");
    assert IsWord("no-sample") && IsWord("k2");
    SplitJoin(ExamplePrior);
    SplitJoin(ExampleExclude);
  }

  lemma ExampleDirectives()
    ensures WellFormed(ExampleSource)
    ensures Excluded(ExampleSource) == ["k2"]
    ensures LastPrior(ExampleSource, "k1") == Some(UniformShape)
    ensures LastPrior(ExampleSource, "k3") == None
  {
    ExampleTokens();
    var first := ExampleSource[..1];
    assert first == [ExampleSource[0]];
    assert first[..0] == [];
    assert Excluded(first) == [];
    assert LastPrior(first, "k1") == Some(UniformShape);
    assert LastPrior(first, "k3") == None;
  }

  lemma ExampleDiscovery()
    ensures Discovered(ExampleRules) ==
      Ok([Entry("k1", "1.0", Forward), Entry("k2", "2.0", Reverse), Entry("k3", "3.0", Forward)])
  {
    var r1, r2 := ExampleRules[0], ExampleRules[1];
    var e1, e2, e3 := Entry("k1", "1.0", Forward), Entry("k2", "2.0", Reverse), Entry("k3", "3.0", Forward);
    assert RuleEntries(r1).value == RateEntries(r1.rateForward, Forward) + RateEntries(r1.rateReverse, Reverse);
    assert RuleEntries(r1) == Ok([e1] + [e2]);
    assert RuleEntries(r2).value == RateEntries(r2.rateForward, Forward) + RateEntries(r2.rateReverse, Reverse);
    assert RuleEntries(r2) == Ok([e3] + []);
    var first := ExampleRules[..1];
    assert first == [r1];
    assert first[..|first| - 1] == [];
    assert Discovered(first[..|first| - 1]) == Ok([]);
    assert first[|first| - 1] == r1;
    assert Discovered(first).Ok? && Discovered(first).value == [] + RuleEntries(r1).value;
    assert Discovered(first).value == [e1, e2];
    assert ExampleRules[..|ExampleRules| - 1] == first;
    assert ExampleRules[|ExampleRules| - 1] == r2;
    assert Discovered(ExampleRules).Ok? && Discovered(ExampleRules).value == [e1, e2] + RuleEntries(r2).value;
    assert Discovered(ExampleRules).value == [e1, e2, e3];
  }

  /** A worked run: rule R1 has forward `k1` and reverse `k2`, rule R2 forward
      `k3` and a reverse rate of None; the file asks for a uniform prior on `k1`
      and excludes `k2`. Sampled are `k1` (uniform) then `k3` (normal). */
  lemma ExampleRun()
    ensures Resolved(ExampleSource, ExampleRules) ==
      Ok([Entry("k1", "1.0", Forward), Entry("k3", "3.0", Forward)])
    ensures ShapeOf(ExampleSource, "k1") == UniformShape
    ensures ShapeOf(ExampleSource, "k3") == DefaultPriorShape
  {
    ExampleDirectives();
    ExampleDiscovery();
    var found := Discovered(ExampleRules).value;
    var excluded := Excluded(ExampleSource);
    assert found[1..][1..][1..] == [];
    assert PruneNoSamples(found[1..][1..], excluded) == [found[2]] + [];
    assert PruneNoSamples(found[1..], excluded) == [] + [found[2]];
    var kept := PruneNoSamples(found, excluded);
    assert kept == [found[0]] + [found[2]];
    assert kept == [Entry("k1", "1.0", Forward), Entry("k3", "3.0", Forward)];
    assert Resolved(ExampleSource, ExampleRules).value == kept;
  }
}
