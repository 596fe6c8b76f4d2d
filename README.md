# pydream_it: directive parsing and parameter resolution

`pydream_it.py` reads a PySB reaction-network model file and writes a PyDREAM
calibration script for it. This project models the part of it that decides
which kinetic parameters are sampled and under which prior:

- **Directives.** `#PYDREAM_IT prior <name> <shape>` sets the prior shape of a
  parameter. `#PYDREAM_IT no-sample <name>` keeps a parameter out of sampling.
  A line is a directive when its whitespace-split tokens number more than one
  and the first is exactly `#PYDREAM_IT`. Directives fill two collections in
  place: the `priors` map (last write wins) and the `no_sample` list
  (appended, duplicates kept). This is class `Directives.Overrides`.
  `ParseDirective` handles one line. `ScanDirectives` is the pass over the
  file.
- **Discovery.** The rules are walked in order. Each rule gives its forward
  rate parameter when that attribute exists and then, if present and not
  None, its reverse rate parameter (`Discovery`).
- **Resolution.** `prune_no_samples` drops excluded names with a stable filter
  (`Resolution.PruneNoSamples`). Then every surviving name with no prior gets
  the default shape `norm` (`Resolution.Backfilled`, applied in place by
  `BackfillDefaults`).
- **Emission.** Each surviving parameter gets two lines. The first is a
  `SampledParam` declaration: the uniform template when its shape is exactly
  `uniform`, the normal template for any other token. The second registers
  the first token of that declaration, `sp_<name>`
  (`Emission.WriteSampledParams`).

`Pipeline.Generate` is a pure specification of the whole pass.
`Pipeline.Run` performs the imperative steps in the script's order and is
proved equal to it. The lemmas of `Pipeline` state the end-to-end properties:

- exclusion wins over any `prior` directive, in either order;
- a prior for a name that is not a parameter has no effect;
- a run fails exactly when a directive is malformed or a forward rate is None;
- each resolved parameter gets the template of its last prior.

Because `Generate` is a function, two runs on the same input produce the same
block.

Python's `str.split()` is modelled by `Tokens.Split`. Python exceptions that
end the run are the `Faults.Fault` values. `IndexError` comes from a directive
missing a token. `AttributeError` comes from a rule whose `rate_forward` is
None.

Three behaviours of the code that are easy to overlook, all modelled as the
code has them:

- The exclusions are a list, not a set, so duplicates are kept.
- A `no-sample` directive with no name is fatal (`IndexError` on `words[2]`),
  just like a short `prior` directive.
- A rule whose `rate_forward` attribute exists but is None fails with
  `AttributeError`, because `param.name` is read without a None check.

## Model

| member | source | states |
|---|---|---|
| Tokens.Split | pydream_it.py:5 | every token of a line is non-empty and holds no whitespace, and there are no more tokens than characters |
| Tokens.SplitJoin | pydream_it.py:5 | splitting undoes joining with single spaces: any list of tokens is read back unchanged |
| Tokens.SplitLeadingWord | pydream_it.py:111 | a whitespace-free word followed by whitespace (or nothing) is read back as the first token |
| Directives.Overrides.constructor | pydream_it.py:35-36 | the run starts with an empty prior map and an empty exclusion list |
| Directives.Overrides.ParseDirective | pydream_it.py:4-10 | `prior` sets `priors[words[2]] := words[3]` and leaves the list alone; `no-sample` appends `words[2]` and leaves the map alone; any other sub-command changes nothing; a `prior` with fewer than 4 tokens or a `no-sample` with fewer than 3 fails with IndexError and changes nothing |
| Directives.ScanDirectives | pydream_it.py:39-44 | only lines with more than one token whose first is the marker reach ParseDirective, so its `words[1]` is in bounds; the pass fails iff some directive line is malformed; on success the map is the lines' priors applied in order and the list is the old list followed by the excluded names in line order |
| Directives.PriorsAfterLastWins | pydream_it.py:6-7 | after the pass a name is a key iff it was one before or some `prior` line names it; its shape is that of its last `prior` line, or its earlier value when no line names it |
| Directives.ExcludedNames | pydream_it.py:8-9 | a name is in the exclusion list iff some line is a `no-sample` directive for it |
| Directives.WellFormedInsert | pydream_it.py:40-44 | a file with one line inserted anywhere passes the directive pass iff the file without it does and the inserted line is not a malformed directive |
| Directives.ExcludedConcat | pydream_it.py:8-9 | the exclusions of `a + b` are those of `a` followed by those of `b` |
| Directives.ExcludedSnoc | pydream_it.py:8-9 | one more last line appends its own exclusion, if any, to the list |
| Directives.ExcludedInsert | pydream_it.py:8-9 | inserting anywhere a line that excludes no name leaves the exclusion list unchanged |
| Directives.LastPriorInsert | pydream_it.py:6-7 | inserting anywhere a line that is not a `prior` directive for `x` leaves the last prior of `x` unchanged |
| Directives.PriorsAfterInsert | pydream_it.py:6-7 | inserting anywhere a `prior` directive for another name leaves whether `x` has a prior, and which, unchanged |
| Discovery.RuleEntries | pydream_it.py:52-60 | a rule contributes at most two entries, forward before reverse; an entry is present iff the rule's attribute for that direction names that parameter (a reverse rate that is None or missing contributes nothing); a forward rate set to None fails with AttributeError |
| Discovery.DiscoveredOk | pydream_it.py:52-55 | discovery fails exactly when some rule's forward rate is None, and then with AttributeError |
| Discovery.DiscoveredConcat | pydream_it.py:49-60 | entries follow rule order: the rules `a + b` give `a`'s entries followed by `b`'s |
| Discovery.DiscoveredSources | pydream_it.py:49-60 | at most two entries per rule; an entry is discovered iff some rule holds that parameter in that direction |
| Discovery.DiscoverParameters | pydream_it.py:47-60 | the discovery loop returns exactly the specified entry list, or AttributeError at a forward rate that is None |
| Resolution.PruneNoSamples | pydream_it.py:12-14 | the result is no longer than the input and holds exactly the input entries whose name is not excluded |
| Resolution.PruneConcat | pydream_it.py:12-14 | the filter is stable: filtering `a + b` is filtering `a` followed by filtering `b` |
| Resolution.PruneKeepsAll | pydream_it.py:12-14 | a list with no excluded name is returned unchanged |
| Resolution.Backfilled | pydream_it.py:68-71 | the keys after backfill are the old keys plus every parameter name; old entries keep their value; new keys map to `norm` |
| Resolution.BackfilledCovers | pydream_it.py:68-71 | every parameter name is a key after backfill, mapped to its old prior or else to `norm` |
| Resolution.BackfillDefaults | pydream_it.py:68-71 | the loop leaves the prior map equal to the backfilled map and the exclusion list unchanged |
| Emission.NormParamLine | pydream_it.py:16-18 | the normal-prior line starts with `sp_<name>` followed by a space and ends with a newline |
| Emission.UniformParamLine | pydream_it.py:20-22 | the uniform-prior line starts with `sp_<name>` followed by a space and ends with a newline |
| Emission.TemplatesDiffer | pydream_it.py:16-22 | for any name and value the two templates write different lines, so the chosen shape shows in the output |
| Emission.DeclarationHasFirstWord | pydream_it.py:111 | the declaration line always has a first token, so `line.split()[0]` cannot fail |
| Emission.DeclaredName | pydream_it.py:16-22 | the first token of either template's line is `sp_` followed by the parameter name (for a name without whitespace) |
| Emission.SampledParamLinesAt | pydream_it.py:104-118 | two lines per parameter, in order; the declaration is the uniform template iff the shape is exactly `uniform` and the normal template for any other token; the second line registers `sp_<name>` |
| Emission.SampledParamLinesLocal | pydream_it.py:107 | the block depends on the prior map only at the names of the parameters emitted |
| Emission.WriteSampledParams | pydream_it.py:104-118 | the emission loop returns exactly the specified block |
| Pipeline.Run | pydream_it.py:35-118 | running the steps in order, with the collections updated in place, yields exactly `Generate` |
| Pipeline.GenerateOk | pydream_it.py:40-60 | a run succeeds iff every directive is well formed and no forward rate is None; a malformed directive is reported as IndexError first |
| Pipeline.ExclusionWins | pydream_it.py:63 | a name with a `no-sample` directive anywhere in the file is never among the sampled parameters, whatever `prior` lines name it, before or after |
| Pipeline.ResolvedMembers | pydream_it.py:63 | the sampled parameters are exactly the discovered ones that no `no-sample` directive names |
| Pipeline.GenerateLines | pydream_it.py:104-118 | the block has two lines per sampled parameter; the uniform template is used iff the parameter's last `prior` is `uniform`; otherwise (no directive, or any other token) the normal template is used; then `sp_<name>` is registered |
| Pipeline.ResolvedInsertPrior | pydream_it.py:40-63 | inserting a well-formed `prior` directive anywhere in the file leaves the sampled parameters (or the fault) unchanged |
| Pipeline.IrrelevantPrior | pydream_it.py:68-71 | inserting a `prior` directive anywhere in the file, for a name that is not a discovered parameter, leaves the generated block (or the fault) unchanged |
| Pipeline.ExampleRun | pydream_it.py:40-71 | rules R1 (forward `k1`, reverse `k2`) and R2 (forward `k3`, reverse None) with `prior k1 uniform` and `no-sample k2` sample `k1` (uniform) then `k3` (normal) |

## Left out

- Reading `sys.argv`, importing the model module, and opening and writing files
  are left out (pydream_it.py:24-33, 39, 73-130). The model file's lines and
  the model's rules are parameters of `Run`; the written lines are its result.
- The `print` diagnostics are console output only.
- The fixed scaffold text before and after the sampled-parameter block and
  the never-taken `use_GR_converge` branch are left out: constant text with no
  logic.
- The output file name `run_pydream_<model file>` is left out.
- Reflection over `rule.__dict__` is replaced by a `Rule` record. Each rate is
  `Absent`, `Null` (present but None) or `Present(parameter)`.
- A parameter's numeric value is carried as the text written for it.
  Python's float formatting is not modelled.
- `Tokens.Split` treats as whitespace only the ASCII characters Python's
  `str.isspace` accepts: 9-13, 28-31 and space. Other Unicode whitespace is
  not modelled.
- The order of keys in the Python dict is not modelled; no output depends on
  it.
- Directives.ScanDirectives: on failure it does not state the half-updated
  collections, because the exception ends the run and nothing reads them.
- Emission.SampledParamLinesAt: the registered name is stated as `sp_<name>`
  only for names without whitespace. The model computes `line.split()[0]`
  for every name, but a name containing whitespace would register only its
  first piece.
- Pipeline.GenerateLines: same restriction to names without whitespace for the
  registration line.
- Emission.DeclaredName: stated only for names without whitespace, for the
  same reason.
