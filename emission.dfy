/** Emission of the sampled-parameter block of the generated script: per
    parameter, a `SampledParam` declaration chosen by its prior shape and the
    line that registers it in `sampled_params_list`. */
module Emission {
  import opened Tokens
  import opened Discovery

  const UniformShape := "uniform"

  /** `write_norm_param`: a normal prior centred on log10 of the value. */
  function NormParamLine(name: string, value: string): (line: string)
    ensures |line| > |"sp_" + name| && line[..|"sp_" + name|] == "sp_" + name
    ensures line[|"sp_" + name|] == ' ' && line[|line| - 1] == '\n'
  {
    "sp_" + name + " = SampledParam(norm, loc=np.log10(" + value + "), scale=2.0)\n"
  }

  /** `write_uniform_param`: a uniform prior over one decade either side of log10 of the value. */
  function UniformParamLine(name: string, value: string): (line: string)
    ensures |line| > |"sp_" + name| && line[..|"sp_" + name|] == "sp_" + name
    ensures line[|"sp_" + name|] == ' ' && line[|line| - 1] == '\n'
  {
    "sp_" + name + " = SampledParam(uniform, loc=np.log10(" + value + ")-1.0, scale=2.0)\n"
  }

  /** The declaration written for a parameter with the given prior shape:
      only the exact token `uniform` selects the uniform template. */
  function DeclarationLine(e: Entry, shape: string): string {
    if shape == UniformShape then UniformParamLine(e.name, e.value) else NormParamLine(e.name, e.value)
  }

  /** The two templates never write the same line: the choice of shape is
      visible in the output. */
  lemma TemplatesDiffer(name: string, value: string)
    ensures NormParamLine(name, value) != UniformParamLine(name, value)
  {
    var k := |"sp_" + name + " = SampledParam("|;
    assert NormParamLine(name, value)[k] == 'n';
    assert UniformParamLine(name, value)[k] == 'u';
  }

  function RegistrationLine(sampledName: string): string {
    "sampled_params_list.append(" + sampledName + ")\n"
  }

  /** Every declaration line has a first token (it starts with `sp_`). */
  lemma DeclarationHasFirstWord(e: Entry, shape: string)
    ensures |Split(DeclarationLine(e, shape))| > 0
  {
    var line := DeclarationLine(e, shape);
    assert line[0] == 's';
  }

  /** The registered name, taken as the first token of the declaration, is
      `sp_` followed by the parameter name, for a name without whitespace. */
  lemma {:induction false} DeclaredName(e: Entry, shape: string)
    requires NoSpace(e.name)
    ensures |Split(DeclarationLine(e, shape))| > 0
    ensures Split(DeclarationLine(e, shape))[0] == "sp_" + e.name
  {
    var w := "sp_" + e.name;
    assert IsWord(w) by {
      assert forall i :: 3 <= i < |w| ==> w[i] == e.name[i - 3];
    }
    var rest :=
      if shape == UniformShape
      then " = SampledParam(uniform, loc=np.log10(" + e.value + ")-1.0, scale=2.0)\n"
      else " = SampledParam(norm, loc=np.log10(" + e.value + "), scale=2.0)\n";
    assert DeclarationLine(e, shape) == w + rest;
    SplitLeadingWord(w, rest);
  }

  /** The two lines written for one parameter. */
  function ParamBlock(e: Entry, shape: string): seq<string> {
    var line := DeclarationLine(e, shape);
    DeclarationHasFirstWord(e, shape);
    [line, RegistrationLine(Split(line)[0])]
  }

  /** The sampled-parameter block for `parameters`, each looked up in `priors`. */
  function SampledParamLines(parameters: seq<Entry>, priors: map<string, string>): seq<string>
    requires forall i :: 0 <= i < |parameters| ==> parameters[i].name in priors
  {
    if parameters == [] then []
    else
      var last := parameters[|parameters| - 1];
      SampledParamLines(parameters[..|parameters| - 1], priors) + ParamBlock(last, priors[last.name])
  }

  /** Two lines per parameter, in parameter order: the uniform declaration
      exactly when the prior is `uniform`, the normal one for every other
      token, each followed by the registration of `sp_<name>`. */
  lemma {:induction false} SampledParamLinesAt(parameters: seq<Entry>, priors: map<string, string>)
    requires forall i :: 0 <= i < |parameters| ==> parameters[i].name in priors
    ensures |SampledParamLines(parameters, priors)| == 2 * |parameters|
    ensures forall i :: 0 <= i < |parameters| ==>
      var e := parameters[i];
      var out := SampledParamLines(parameters, priors);
      (priors[e.name] == UniformShape ==> out[2 * i] == UniformParamLine(e.name, e.value)) &&
      (priors[e.name] != UniformShape ==> out[2 * i] == NormParamLine(e.name, e.value)) &&
      (NoSpace(e.name) ==> out[2 * i + 1] == RegistrationLine("sp_" + e.name))
  {
    if parameters != [] {
      var n := |parameters| - 1;
      var init := parameters[..n];
      SampledParamLinesAt(init, priors);
      var out := SampledParamLines(parameters, priors);
      assert out == SampledParamLines(init, priors) + ParamBlock(parameters[n], priors[parameters[n].name]);
      forall i | 0 <= i < |parameters|
        ensures var e := parameters[i];
          (priors[e.name] == UniformShape ==> out[2 * i] == UniformParamLine(e.name, e.value)) &&
          (priors[e.name] != UniformShape ==> out[2 * i] == NormParamLine(e.name, e.value)) &&
          (NoSpace(e.name) ==> out[2 * i + 1] == RegistrationLine("sp_" + e.name))
      {
        var e := parameters[i];
        if i < n {
          assert init[i] == e;
        } else if NoSpace(e.name) {
          DeclaredName(e, priors[e.name]);
        }
      }
    }
  }

  /** The block depends on `priors` only at the names of `parameters`. */
  lemma {:induction false} SampledParamLinesLocal(parameters: seq<Entry>, p1: map<string, string>, p2: map<string, string>)
    requires forall i :: 0 <= i < |parameters| ==> parameters[i].name in p1 && parameters[i].name in p2
    requires forall i :: 0 <= i < |parameters| ==> p1[parameters[i].name] == p2[parameters[i].name]
    ensures SampledParamLines(parameters, p1) == SampledParamLines(parameters, p2)
  {
    if parameters != [] {
      SampledParamLinesLocal(parameters[..|parameters| - 1], p1, p2);
    }
  }

  /** The emission loop: for each parameter in order, its declaration and its
      registration under the first token of the declaration. */
  method WriteSampledParams(parameters: seq<Entry>, priors: map<string, string>) returns (out: seq<string>)
    requires forall i :: 0 <= i < |parameters| ==> parameters[i].name in priors
    ensures out == SampledParamLines(parameters, priors)
  {
    out := [];
    for i := 0 to |parameters|
      invariant out == SampledParamLines(parameters[..i], priors)
    {
      assert parameters[..i + 1][..i] == parameters[..i];
      var name := parameters[i].name;
      var value := parameters[i].value;
      var priorShape := priors[name];
      var line;
      if priorShape == UniformShape {
        line := UniformParamLine(name, value);
      } else {
        line := NormParamLine(name, value);
      }
      DeclarationHasFirstWord(parameters[i], priorShape);
      var sampledName := Split(line)[0];
      out := out + [line, RegistrationLine(sampledName)];
    }
    assert parameters[..|parameters|] == parameters;
  }
}
