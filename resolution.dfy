/** Resolution of the discovered parameters: excluded names are dropped, and
    every surviving name without a prior gets the default shape. */
module Resolution {
  import opened Discovery
  import opened Directives

  const DefaultPriorShape := "norm"

  /** The names of a parameter list. */
  function Names(parameters: seq<Entry>): set<string> {
    set e | e in parameters :: e.name
  }

  /** `prune_no_samples`: the parameters whose name is not excluded, in their order. */
  function PruneNoSamples(parameters: seq<Entry>, noSample: seq<string>): (kept: seq<Entry>)
    ensures |kept| <= |parameters|
    ensures forall e :: e in kept <==> e in parameters && e.name !in noSample
  {
    if parameters == [] then []
    else
      (if parameters[0].name in noSample then [] else [parameters[0]])
      + PruneNoSamples(parameters[1..], noSample)
  }

  /** The filter is stable: it keeps the relative order of what it keeps, so
      filtering a concatenation is concatenating the filtered parts. */
  lemma {:induction false} PruneConcat(a: seq<Entry>, b: seq<Entry>, noSample: seq<string>)
    ensures PruneNoSamples(a + b, noSample) == PruneNoSamples(a, noSample) + PruneNoSamples(b, noSample)
  {
    if a == [] {
      assert a + b == b;
    } else {
      assert (a + b)[0] == a[0];
      assert (a + b)[1..] == a[1..] + b;
      PruneConcat(a[1..], b, noSample);
    }
  }

  /** A list none of whose names is excluded is returned unchanged. */
  lemma {:induction false} PruneKeepsAll(parameters: seq<Entry>, noSample: seq<string>)
    requires forall i :: 0 <= i < |parameters| ==> parameters[i].name !in noSample
    ensures PruneNoSamples(parameters, noSample) == parameters
  {
    if parameters != [] {
      PruneKeepsAll(parameters[1..], noSample);
    }
  }

  /** The prior map after the backfill loop: each parameter name that has no
      prior yet is given the default shape. */
  function Backfilled(priors: map<string, string>, parameters: seq<Entry>): (m: map<string, string>)
    ensures m.Keys == priors.Keys + Names(parameters)
    ensures forall k :: k in priors ==> m[k] == priors[k]
    ensures forall k :: k in m && k !in priors ==> m[k] == DefaultPriorShape
    decreases |parameters|
  {
    if parameters == [] then priors
    else
      var name := parameters[0].name;
      assert Names(parameters) == {name} + Names(parameters[1..]);
      Backfilled(if name in priors then priors else priors[name := DefaultPriorShape], parameters[1..])
  }

  /** After the backfill every parameter has a prior: the one it had, or the default. */
  lemma BackfilledCovers(priors: map<string, string>, parameters: seq<Entry>)
    ensures forall i :: 0 <= i < |parameters| ==>
      parameters[i].name in Backfilled(priors, parameters) &&
      Backfilled(priors, parameters)[parameters[i].name] ==
        if parameters[i].name in priors then priors[parameters[i].name] else DefaultPriorShape
  {
    forall i | 0 <= i < |parameters|
      ensures parameters[i].name in Names(parameters)
    {
      assert parameters[i] in parameters;
    }
  }

  /** The backfill loop, updating the prior map of `o` in place. */
  method BackfillDefaults(o: Overrides, parameters: seq<Entry>)
    modifies o
    ensures o.priors == Backfilled(old(o.priors), parameters)
    ensures o.noSample == old(o.noSample)
  {
    for i := 0 to |parameters|
      invariant Backfilled(o.priors, parameters[i..]) == Backfilled(old(o.priors), parameters)
      invariant o.noSample == old(o.noSample)
    {
      assert parameters[i..][1..] == parameters[i + 1..];
      var name := parameters[i].name;
      if name !in o.priors {
        o.priors := o.priors[name := DefaultPriorShape];
      }
    }
  }
}
