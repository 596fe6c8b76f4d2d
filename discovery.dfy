/** Discovery of the kinetic parameters: the forward and reverse rate parameters
    of the model's reaction rules, in rule order. */
module Discovery {
  import opened Faults

  /** A model parameter; its numeric value is carried as the text the generated
      script prints for it. */
  datatype Parameter = Parameter(name: string, value: string)

  /** A rate attribute of a rule as the rule's attribute table holds it: missing,
      present but None, or present and naming a parameter. */
  datatype Rate = Absent | Null | Present(param: Parameter)

  datatype Rule = Rule(rateForward: Rate, rateReverse: Rate)

  datatype Direction = Forward | Reverse

  /** A discovered kinetic parameter `[name, value, 'f' or 'r']`. */
  datatype Entry = Entry(name: string, value: string, direction: Direction)

  /** `e` is the parameter held by `rule`'s attribute for `e`'s direction. */
  predicate Supplies(rule: Rule, e: Entry) {
    match e.direction
    case Forward => rule.rateForward == Present(Parameter(e.name, e.value))
    case Reverse => rule.rateReverse == Present(Parameter(e.name, e.value))
  }

  /** The entry a rate attribute contributes in direction `d`: one when it names
      a parameter, none when it is missing or None. */
  function RateEntries(rate: Rate, d: Direction): seq<Entry> {
    match rate
    case Present(p) => [Entry(p.name, p.value, d)]
    case _ => []
  }

  /** What one rule contributes. A forward attribute set to None fails on reading
      its name; a reverse attribute set to None is skipped. */
  function RuleEntries(rule: Rule): (r: Result<seq<Entry>>)
    ensures r.Err? <==> rule.rateForward == Null
    ensures r.Err? ==> r.fault == AttributeError
    ensures r.Ok? ==> |r.value| <= 2
    ensures r.Ok? ==> forall e :: e in r.value <==> Supplies(rule, e)
    ensures r.Ok? && |r.value| == 2 ==>
      r.value[0].direction == Forward && r.value[1].direction == Reverse
  {
    if rule.rateForward == Null then Err(AttributeError)
    else Ok(RateEntries(rule.rateForward, Forward) + RateEntries(rule.rateReverse, Reverse))
  }

  /** The parameter list after the rules have been walked in order. */
  function Discovered(rules: seq<Rule>): Result<seq<Entry>> {
    if rules == [] then Ok([])
    else
      match Discovered(rules[..|rules| - 1])
      case Err(f) => Err(f)
      case Ok(found) =>
        match RuleEntries(rules[|rules| - 1])
        case Err(f) => Err(f)
        case Ok(more) => Ok(found + more)
  }

  /** Discovery fails exactly when some rule's forward rate is None. */
  lemma {:induction false} DiscoveredOk(rules: seq<Rule>)
    ensures Discovered(rules).Ok? <==> forall i :: 0 <= i < |rules| ==> rules[i].rateForward != Null
    ensures Discovered(rules).Err? ==> Discovered(rules).fault == AttributeError
  {
    if rules != [] {
      var init := rules[..|rules| - 1];
      DiscoveredOk(init);
      assert forall i :: 0 <= i < |init| ==> init[i] == rules[i];
    }
  }

  /** Discovery follows rule order: the rules of `a + b` give `a`'s entries, then `b`'s. */
  lemma {:induction false} DiscoveredConcat(a: seq<Rule>, b: seq<Rule>)
    requires Discovered(a).Ok? && Discovered(b).Ok?
    ensures Discovered(a + b) == Ok(Discovered(a).value + Discovered(b).value)
    decreases |b|
  {
    if b == [] {
      assert a + b == a;
      assert Discovered(a).value + [] == Discovered(a).value;
    } else {
      var init := b[..|b| - 1];
      assert (a + b)[..|a + b| - 1] == a + init;
      assert (a + b)[|a + b| - 1] == b[|b| - 1];
      assert Discovered(init).Ok? && RuleEntries(b[|b| - 1]).Ok?;
      DiscoveredConcat(a, init);
      var x, y, z := Discovered(a).value, Discovered(init).value, RuleEntries(b[|b| - 1]).value;
      assert Discovered(b).value == y + z;
      assert Discovered(a + init) == Ok(x + y);
      assert Discovered(a + b) == Ok((x + y) + z);
      assert (x + y) + z == x + (y + z);
    }
  }

  /** At most two entries per rule, and every entry is the forward or reverse
      parameter actually present on some rule, and each present one is found. */
  lemma {:induction false} DiscoveredSources(rules: seq<Rule>)
    requires Discovered(rules).Ok?
    ensures |Discovered(rules).value| <= 2 * |rules|
    ensures forall e :: e in Discovered(rules).value <==>
      exists i :: 0 <= i < |rules| && Supplies(rules[i], e)
  {
    if rules != [] {
      var init := rules[..|rules| - 1];
      var last := rules[|rules| - 1];
      DiscoveredSources(init);
      var found := Discovered(init).value;
      var more := RuleEntries(last).value;
      assert Discovered(rules).value == found + more;
      forall e
        ensures e in found + more <==> exists i :: 0 <= i < |rules| && Supplies(rules[i], e)
      {
        if e in found + more {
          if e in found {
            var i :| 0 <= i < |init| && Supplies(init[i], e);
            assert rules[i] == init[i];
          } else {
            assert Supplies(rules[|rules| - 1], e);
          }
        }
        if exists i :: 0 <= i < |rules| && Supplies(rules[i], e) {
          var i :| 0 <= i < |rules| && Supplies(rules[i], e);
          if i < |rules| - 1 {
            assert Supplies(init[i], e);
          }
        }
      }
    }
  }

  /** The discovery loop: walks the rules, appending each rule's forward
      parameter, then its reverse parameter when that is not None. */
  method DiscoverParameters(rules: seq<Rule>) returns (r: Result<seq<Entry>>)
    ensures r == Discovered(rules)
  {
    var parameters: seq<Entry> := [];
    for i := 0 to |rules|
      invariant Discovered(rules[..i]) == Ok(parameters)
    {
      assert rules[..i + 1][..i] == rules[..i];
      var rule := rules[i];
      ghost var old_parameters := parameters;
      match rule.rateForward {
        case Null =>
          DiscoveredOk(rules);
          return Err(AttributeError);
        case Present(p) =>
          parameters := parameters + [Entry(p.name, p.value, Forward)];
        case Absent =>
      }
      if rule.rateReverse.Present? {
        var p := rule.rateReverse.param;
        parameters := parameters + [Entry(p.name, p.value, Reverse)];
      }
      assert parameters == old_parameters + RuleEntries(rule).value;
    }
    assert rules[..|rules|] == rules;
    return Ok(parameters);
  }
}
