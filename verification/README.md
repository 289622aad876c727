# defaultEval optimizers: the flattening protocol, in Dafny

This project models the text protocol of the defaultEval hyperparameter optimizers. The protocol does three things:

- It flattens a three-stage WEKA pipeline (attribute searcher, attribute evaluator, classifier) into one search space of role-tagged parameter names.
- It hands each trial to a separate evaluator process as an argument list.
- It turns the best trial of the Python Hyperband driver back into per-stage parameter maps.

The model is written as immutable datatypes and pure functions. The modules follow the Java classes:

- `Util` covers the unique names `name_s` / `name_e` / `name_c` and the pipeline instance tree.
- `Optimizer` covers the constructor's merged parameter list, the run identifier `buildFileName` and the integer-domain correction.
- `HyperbandOptimizer` covers:
  - the draw rule each domain renders into `get_params`;
  - the `(name, wrapped value)` pairs of `generateParamList`;
  - the argument order of the `try_params` call;
  - the file names of one run;
  - the first-minimal trial selection;
  - the decoding of the winning trial.
- `PipelineEvaluator` covers the argument-index walk of `main` and the sentinel-loss rule.
- `DefaultOptimizer` covers the baseline that reports every component with its default values.

Four helper modules support these:

- `Wrappers` provides `Option` and `Result`.
- `JavaText` holds the Java library conversions the code relies on: `Integer.toString`, `Integer.valueOf`, the plain decimal forms of `Double.valueOf`, the narrowing `(int)` cast, 32-bit wrap-around and ASCII `toLowerCase`.
- `Components` is the part of hasco's component catalog the optimizers read.
- `Protocol` holds the cross-process lemmas.

The headline result is `Protocol.InvocationRoundTrip`. It assumes the following:

- The run configuration is valid, and each component's parameter names are distinct.
- The evaluator's catalogs have unique names and hold the configured components.
- A configured searcher is not named `null`.
- The texts written into Python string literals are plain: the environment and dataset folders, the dataset, the component names and the parameter names hold no backslash, double quote or line break, and the unique parameter names hold no single quote.
- The trial holds a value for every parameter, and boolean values are already lower case.

Under these conditions, Python's evaluation of the rendered `call([...])` list gives an argument vector. `PipelineEvaluator.main` decodes that vector into the run's result file, dataset and seed, the configured components, and exactly the per-stage name→value maps that were rendered. `Protocol.EvaluatorWritesResult` follows the same vector, after `java -jar <jar>`, to the loss written to the result file.

Doubles are modelled by their exact `real` values, so the rounding of a decimal text to the nearest double is not modelled. Exception paths are modelled as `Result`/`Option` errors.

The model follows the code in these behaviours, which are easy to misread:

- The stage check of a unique name looks only at its last character and ignores the underscore.
- `buildFileName` turns `-` into `_` rather than dropping it.
- A missing searcher is passed as the single literal `"null"`.
- An empty trial log makes `createFinalInstances` dereference a null best record. The model reports it as the no-trials error.
- `createFinalInstances` stores the values exactly as logged. It does **not** call `correctParameterSyntax`, so `HyperbandOptimizer.CreateFinalInstances` applies no integer correction. The correction is modelled on its own as `Optimizer.CorrectParameterSyntax`.
- The integer range of `get_params` ends at `(int)max + 1`, computed as an `int` addition that wraps around (see Findings).

Source paths below are relative to the repository root.

## Model

| member | source | states |
|---|---|---|
| Util.ConvertShape | softwareconfiguration/defaultEval/src/main/java/defaultEval/core/Util.java:144-156 | A unique name is the bare name followed by `_` and the stage's tag character, so it is two characters longer than the bare name |
| Util.ConvertInjective | softwareconfiguration/defaultEval/src/main/java/defaultEval/core/Util.java:144-156 | Two (name, stage) pairs with the same unique name are the same pair |
| Util.RevertFromUniqueParamName | softwareconfiguration/defaultEval/src/main/java/defaultEval/core/Util.java:165-170 | Fails with the too-short error exactly when the input has at most two characters; otherwise returns the input without its last two characters |
| Util.GetTypeFromUniqueParamName | softwareconfiguration/defaultEval/src/main/java/defaultEval/core/Util.java:179-189 | Succeeds exactly when the last character is `s`, `e` or `c`; the stage returned is the one whose tag is that character; any other input is rejected |
| Util.RevertInvertsConvert | softwareconfiguration/defaultEval/src/main/java/defaultEval/core/Util.java:144-170 | Reverting a unique name gives the bare name back for every non-empty bare name; the empty name's unique form is rejected as too short |
| Util.TypeOfConvert | softwareconfiguration/defaultEval/src/main/java/defaultEval/core/Util.java:179-189 | The stage is recovered from every unique name |
| Util.TypeCheckIgnoresSeparator | softwareconfiguration/defaultEval/src/main/java/defaultEval/core/Util.java:180-188 | Any text ending in a tag character is accepted as that stage, with or without the underscore |
| Util.ConvertInvertsDecode | softwareconfiguration/defaultEval/src/main/java/defaultEval/core/Util.java:144-189 | Every well-formed unique name (at least three characters, `_` second to last, tag last) is the encoding of its reverted name and decoded stage |
| Util.CreatePipelineFromInstances | softwareconfiguration/defaultEval/src/main/java/defaultEval/core/Util.java:97-115 | Without a searcher instance the result is the classifier instance itself; with one it is a `pipeline` node from which the searcher, evaluator and classifier instances are read back under `search`, `eval` and `classifier` |
| Util.CreatePipeline | softwareconfiguration/defaultEval/src/main/java/defaultEval/core/Util.java:61-87 | The component overload builds the same tree as the instance overload applied to each component wrapped with its parameter map |
| Util.StagesOfCreatePipeline | softwareconfiguration/defaultEval/src/main/java/defaultEval/core/Util.java:97-115 | Reading the stages back from a built pipeline returns the instances that went in, with no evaluator when there is no searcher |
| Components.FindParameter | softwareconfiguration/defaultEval/src/main/java/defaultEval/core/PipelineEvaluator.java:110 | A parameter found for a name is one of the component's parameters and carries that name |
| Components.FindParameterMisses | softwareconfiguration/defaultEval/src/main/java/defaultEval/core/PipelineEvaluator.java:110 | The parameter lookup the decoder uses fails exactly for names no parameter of the component carries |
| Components.FindParameterFindsItself | softwareconfiguration/defaultEval/src/main/java/defaultEval/core/PipelineEvaluator.java:110 | With distinct names, looking up a parameter's own name finds that parameter |
| Optimizer.NewOptimizer | softwareconfiguration/defaultEval/src/main/java/defaultEval/core/Optimizer.java:75-102 | Construction fails exactly when the classifier is missing or there is a searcher without an evaluator; otherwise it keeps the given components |
| Optimizer.AddAll | softwareconfiguration/defaultEval/src/main/java/defaultEval/core/Optimizer.java:84-94 | The add loop appends a component's parameters in order, each tagged with the stage, after the entries already present |
| Optimizer.ParameterList | softwareconfiguration/defaultEval/src/main/java/defaultEval/core/Optimizer.java:83-94 | The merged list is searcher, then evaluator, then classifier parameters, each in component order; without a searcher it is the classifier's parameters alone |
| Optimizer.ParameterListRoles | softwareconfiguration/defaultEval/src/main/java/defaultEval/core/Optimizer.java:84-93 | Every entry is a parameter of the component its stage tag names; without a searcher every entry is tagged classifier |
| Optimizer.UniqueParamName | softwareconfiguration/defaultEval/src/main/java/defaultEval/core/Optimizer.java:153-161 | A merged entry's unique name decodes back to its stage, and to its bare name when that is non-empty |
| Optimizer.MergedNamesDistinct | softwareconfiguration/defaultEval/src/main/java/defaultEval/core/Optimizer.java:83-94 | When each component's names are distinct, all unique names of the merged list are pairwise distinct |
| Optimizer.RemoveDots | softwareconfiguration/defaultEval/src/main/java/defaultEval/core/Optimizer.java:124 | The result has no `.`, is no longer than the input, and keeps exactly the input's other characters |
| Optimizer.DashesToUnderscores | softwareconfiguration/defaultEval/src/main/java/defaultEval/core/Optimizer.java:124 | Same length; each `-` becomes `_` and every other character is kept |
| Optimizer.BuildFileName | softwareconfiguration/defaultEval/src/main/java/defaultEval/core/Optimizer.java:116-125 | The run identifier contains neither `.` nor `-` |
| Optimizer.BuildFileNameOfPlainParts | softwareconfiguration/defaultEval/src/main/java/defaultEval/core/Optimizer.java:116-125 | When the component names and the dataset contain no `.` or `-` and the seed is non-negative, the run identifier is `S_E_C_D_seed`, or `null_C_D_seed` without a searcher, unchanged by the clean-up |
| Optimizer.SanitizeAppend | softwareconfiguration/defaultEval/src/main/java/defaultEval/core/Optimizer.java:124 | The clean-up distributes over concatenation |
| Optimizer.SanitizeKeepsPlainText | softwareconfiguration/defaultEval/src/main/java/defaultEval/core/Optimizer.java:124 | Text without `.` and `-` is left unchanged by the clean-up |
| Optimizer.FileNameCollision | softwareconfiguration/defaultEval/src/main/java/defaultEval/core/Optimizer.java:116-125 | The run identifier is not injective: datasets `a-b` and `a_b` give two different configurations the same name |
| Optimizer.GetDoubleStringAsInt | softwareconfiguration/defaultEval/src/main/java/defaultEval/core/Optimizer.java:132-134 | Fails exactly on text that is not a decimal literal; otherwise gives the literal's whole-number part with its sign, saturated to the `int` range |
| Optimizer.CorrectParameterSyntax | softwareconfiguration/defaultEval/src/main/java/defaultEval/core/Optimizer.java:143-151 | Non-integer domains return the input unchanged; integer domains succeed exactly on decimal literals and return text that parses to the truncated value |
| Optimizer.CorrectionKeepsIntegerText | softwareconfiguration/defaultEval/src/main/java/defaultEval/core/Optimizer.java:143-151 | Text that is already an `int`'s decimal form is returned unchanged for every domain |
| Optimizer.CorrectionDropsFraction | softwareconfiguration/defaultEval/src/main/java/defaultEval/core/Optimizer.java:132-148 | For an integer domain, `n.fff` (for example `7.000000000` or `7.9`) is corrected to `n` |
| JavaText.ParseIntInvertsIntToString | softwareconfiguration/defaultEval/src/main/java/defaultEval/core/PipelineEvaluator.java:90 | `Integer.valueOf` of the seed's decimal text gives the seed back |
| JavaText.DoubleToInt | softwareconfiguration/defaultEval/src/main/java/defaultEval/core/Optimizer.java:133 | The `(int)` cast rounds toward zero and saturates at the ends of the `int` range |
| JavaText.TruncationKeepsWholePart | softwareconfiguration/defaultEval/src/main/java/defaultEval/core/Optimizer.java:133 | Casting a decimal literal's value gives its signed whole-number digits, saturated; the fraction digits never matter |
| JavaText.Wrap32 | softwareconfiguration/defaultEval/src/main/java/defaultEval/core/HyperbandOptimizer.java:306 | The result agrees with the exact value modulo 2^32 and equals it inside the `int` range |
| HyperbandOptimizer.DrawRuleFor | softwareconfiguration/defaultEval/src/main/java/defaultEval/core/HyperbandOptimizer.java:297-336 | Corrected rule. An integer domain draws exactly the integers from `(int)min` to `(int)max` inclusive, and a real domain the reals in [min, max). A boolean domain draws exactly `true` and `false`, a categorical domain exactly its values. The value kind matches the domain kind |
| HyperbandOptimizer.IntegerDomainDrawsInclusiveRange | softwareconfiguration/defaultEval/src/main/java/defaultEval/core/HyperbandOptimizer.java:304-306 | With whole-number bounds, an integer domain draws exactly the integers of [min, max] |
| HyperbandOptimizer.DrawsMatchDomain | softwareconfiguration/defaultEval/src/main/java/defaultEval/core/HyperbandOptimizer.java:297-336 | Every drawn value lies in the domain; boolean, categorical and integer domains are drawn from in full |
| HyperbandOptimizer.DrawRuleAsWritten | softwareconfiguration/defaultEval/src/main/java/defaultEval/core/HyperbandOptimizer.java:304-306 | The rule as the code computes it. An integer range starts at `(int)min`. Its exclusive end is `(int)max + 1` below `Integer.MAX_VALUE` and wraps to `Integer.MIN_VALUE` at it. Other domains get the corrected rule |
| HyperbandOptimizer.AsWrittenAgreesBelowIntMax | softwareconfiguration/defaultEval/src/main/java/defaultEval/core/HyperbandOptimizer.java:304-306 | While `(int)max` is below `Integer.MAX_VALUE`, the rule as written equals the corrected rule |
| HyperbandOptimizer.AsWrittenDrawsNothingAtIntMax | softwareconfiguration/defaultEval/src/main/java/defaultEval/core/HyperbandOptimizer.java:304-306 | For the integer domain [0, 2147483647] the rule as written draws no value at all, although 0 is in the domain |
| HyperbandOptimizer.QuotedListRoundTrip | softwareconfiguration/defaultEval/src/main/java/defaultEval/core/HyperbandOptimizer.java:323-331 | The categorical option text is read back as exactly the domain's values, in order, when every value is plain inside single quotes (no single quote, backslash or line break) |
| HyperbandOptimizer.DrawCallReadsBack | softwareconfiguration/defaultEval/src/main/java/defaultEval/core/HyperbandOptimizer.java:304-331 | The integer call's `range` bounds read back as the numbers of the rule as written. A categorical call's option list reads back as exactly the domain's values when they are plain |
| HyperbandOptimizer.SpaceEntryText | softwareconfiguration/defaultEval/src/main/java/defaultEval/core/HyperbandOptimizer.java:297-323 | Every `get_params` entry is keyed by the entry's unique name and calls a numpy random function |
| HyperbandOptimizer.GetParamsKeys | softwareconfiguration/defaultEval/src/main/java/defaultEval/core/HyperbandOptimizer.java:207-220 | Read as Python, dictionary entry j is keyed by the unique name of the j-th merged parameter. With distinct names per component no two entries share a key, and the keys are exactly the search space's keys |
| HyperbandOptimizer.ParamArgs | softwareconfiguration/defaultEval/src/main/java/defaultEval/core/HyperbandOptimizer.java:285-294 | A component contributes two list elements per parameter |
| HyperbandOptimizer.ParamArgsAt | softwareconfiguration/defaultEval/src/main/java/defaultEval/core/HyperbandOptimizer.java:285-294 | The j-th parameter contributes elements 2j and 2j+1: its quoted bare name, then its value under its unique name, wrapped for its domain |
| HyperbandOptimizer.ParamListRendersArgs | softwareconfiguration/defaultEval/src/main/java/defaultEval/core/HyperbandOptimizer.java:285-294 | The text `generateParamList` writes is exactly the rendering of those pairs |
| HyperbandOptimizer.WrapperRendersArg | softwareconfiguration/defaultEval/src/main/java/defaultEval/core/HyperbandOptimizer.java:270-277 | A wrapped value renders as `createDomainWrapper` of `params['key']` with a comma: nine-decimal formatting for real domains, `str` otherwise |
| HyperbandOptimizer.ParamArgsKeys | softwareconfiguration/defaultEval/src/main/java/defaultEval/core/HyperbandOptimizer.java:285-294 | A component's pairs read exactly its parameters' unique names from the trial |
| HyperbandOptimizer.FileName | softwareconfiguration/defaultEval/src/main/java/defaultEval/core/HyperbandOptimizer.java:280-282 | The Hyperband run name contains neither `.` nor `-` |
| HyperbandOptimizer.EvaluatorArgs | softwareconfiguration/defaultEval/src/main/java/defaultEval/core/HyperbandOptimizer.java:224-235 | The evaluator gets result file, dataset and seed first, then the searcher's name or the literal `"null"`. The length is five plus two per merged parameter, plus one for the evaluator's name when there is a searcher |
| HyperbandOptimizer.PreprocessorArgs | softwareconfiguration/defaultEval/src/main/java/defaultEval/core/HyperbandOptimizer.java:229-232 | With a searcher: both preprocessor stages (names and pairs); without one: the single literal `"null"` |
| HyperbandOptimizer.SpaceKeysByStage | softwareconfiguration/defaultEval/src/main/java/defaultEval/core/HyperbandOptimizer.java:215-217 | The search space's keys are the union of each stage's unique names |
| HyperbandOptimizer.InvocationReadsSpaceKeys | softwareconfiguration/defaultEval/src/main/java/defaultEval/core/HyperbandOptimizer.java:215-235 | `try_params` reads every key `get_params` draws and no other key |
| HyperbandOptimizer.EvalArg | softwareconfiguration/defaultEval/src/main/java/defaultEval/core/HyperbandOptimizer.java:224-235 | A string literal evaluates to its text exactly when that text is plain in double quotes. A `params['key']` read succeeds exactly when the key is plain in single quotes and present in the trial, and `str` gives the stored value |
| HyperbandOptimizer.MainScriptRunsWrapper | softwareconfiguration/defaultEval/src/main/java/defaultEval/core/HyperbandOptimizer.java:257-263 | The main script imports from the wrapper file that was written. It has the driver write the trial log that `createFinalInstances` reads, with a timeout that reads back as `maxRuntimeParam` |
| HyperbandOptimizer.WrapperModuleResolves | softwareconfiguration/defaultEval/src/main/java/defaultEval/core/HyperbandOptimizer.java:202-260 | The module the main script imports resolves to the wrapper file that was written, because the run name has no `.` |
| HyperbandOptimizer.FirstMinimumUnique | softwareconfiguration/defaultEval/src/main/java/defaultEval/core/HyperbandOptimizer.java:161-167 | A log has at most one first record of minimal loss |
| HyperbandOptimizer.BestFrom | softwareconfiguration/defaultEval/src/main/java/defaultEval/core/HyperbandOptimizer.java:161-167 | Continuing the selection loop from the first-minimal choice on a prefix ends with the first minimal record of the whole log |
| HyperbandOptimizer.SelectBest | softwareconfiguration/defaultEval/src/main/java/defaultEval/core/HyperbandOptimizer.java:161-167 | No record is selected exactly when the log is empty; otherwise the selected record has minimal loss and every earlier record has a strictly larger loss |
| HyperbandOptimizer.SelectBestExample | softwareconfiguration/defaultEval/src/main/java/defaultEval/core/HyperbandOptimizer.java:161-167 | Among the equal losses 0.1 at indices 1 and 3, index 1 is selected |
| HyperbandOptimizer.MissingKey | softwareconfiguration/defaultEval/src/main/java/defaultEval/core/HyperbandOptimizer.java:177-186 | No key is reported exactly when every parameter's unique name has a value; a reported key is the first one in component order without a value |
| HyperbandOptimizer.DecodeStage | softwareconfiguration/defaultEval/src/main/java/defaultEval/core/HyperbandOptimizer.java:177-186 | Succeeds exactly when every unique name has a value, and then the map's keys are exactly the bare names, each holding the trial's value under its unique name. Otherwise it fails on the first missing key |
| HyperbandOptimizer.CreateFinalInstances | softwareconfiguration/defaultEval/src/main/java/defaultEval/core/HyperbandOptimizer.java:150-192 | Fails with the no-trials error exactly on an empty log. A success wraps the configured components with maps decoded from the first minimal record; the searcher and evaluator maps are empty without a searcher |
| HyperbandOptimizer.DrawnTrialDecodes | softwareconfiguration/defaultEval/src/main/java/defaultEval/core/HyperbandOptimizer.java:150-192 | Decoding succeeds exactly when the best record holds a value for every key of the search space |
| HyperbandOptimizer.Optimize | softwareconfiguration/defaultEval/src/main/java/defaultEval/core/HyperbandOptimizer.java:51-141 | With no trial log there is no result. An empty log fails with the no-trials error. A result is the best record's decoding |
| PipelineEvaluator.StoredValue | softwareconfiguration/defaultEval/src/main/java/defaultEval/core/PipelineEvaluator.java:110-115 | Boolean-domain values are stored lower-cased, all others verbatim |
| PipelineEvaluator.ReadPairs | softwareconfiguration/defaultEval/src/main/java/defaultEval/core/PipelineEvaluator.java:109-116 | A component with k parameters consumes exactly 2k arguments; running out of arguments is reported only when fewer remain |
| PipelineEvaluator.ReadPairsKeys | softwareconfiguration/defaultEval/src/main/java/defaultEval/core/PipelineEvaluator.java:109-116 | The pair loop keeps every key it started with and adds only names of the component's parameters |
| PipelineEvaluator.ReadPairsSucceeds | softwareconfiguration/defaultEval/src/main/java/defaultEval/core/PipelineEvaluator.java:109-116 | With enough arguments and every name known to the component, the pair loop succeeds |
| PipelineEvaluator.ReadComponent | softwareconfiguration/defaultEval/src/main/java/defaultEval/core/PipelineEvaluator.java:104-118 | When no catalog entry has the name, nothing is consumed and nothing is found; the index never moves backwards |
| PipelineEvaluator.ReadComponentFinds | softwareconfiguration/defaultEval/src/main/java/defaultEval/core/PipelineEvaluator.java:104-118 | A component the catalog loop reports is a catalog entry with the name looked for |
| PipelineEvaluator.ReadStage | softwareconfiguration/defaultEval/src/main/java/defaultEval/core/PipelineEvaluator.java:140-156 | A stage needs its name argument, and a read stage always advances past it |
| PipelineEvaluator.ReadStageFinds | softwareconfiguration/defaultEval/src/main/java/defaultEval/core/PipelineEvaluator.java:140-156 | A component a stage reports is in the catalog and carries the name given in the arguments |
| PipelineEvaluator.ReadPreprocessor | softwareconfiguration/defaultEval/src/main/java/defaultEval/core/PipelineEvaluator.java:102-135 | The evaluator's stage starts after the searcher's, and both come after the first four arguments |
| PipelineEvaluator.Decode | softwareconfiguration/defaultEval/src/main/java/defaultEval/core/PipelineEvaluator.java:61-156 | Fewer than three arguments is an error, and an unparsable seed is a bad-seed error. A success reads result file, dataset and seed from the first three arguments. After `"null"` there is no searcher, no evaluator and no map for either. A found classifier comes from the classifier catalog |
| PipelineEvaluator.Main | softwareconfiguration/defaultEval/src/main/java/defaultEval/core/PipelineEvaluator.java:61-187 | Nothing is written exactly when there are no arguments. Otherwise a loss goes to `args[0]`: the sentinel when decoding fails. After a successful decoding it is the evaluation of the decoded pipeline on the decoded dataset and seed, or the sentinel when the evaluation fails |
| Protocol.WrappedRendersValue | softwareconfiguration/defaultEval/src/main/java/defaultEval/core/HyperbandOptimizer.java:270-277 | A wrapped value whose key is plain and in the trial evaluates to the value's rendered text |
| Protocol.EvalParamArgs | softwareconfiguration/defaultEval/src/main/java/defaultEval/core/HyperbandOptimizer.java:285-294 | When the names are plain and the trial holds every key, a component's pairs evaluate to its bare names alternating with the rendered values |
| Protocol.EvalEvaluatorArgs | softwareconfiguration/defaultEval/src/main/java/defaultEval/core/HyperbandOptimizer.java:224-235 | For plain texts and a trial holding every key, the evaluator's part of the call list evaluates to head, preprocessor stages (or `"null"`) and classifier stage |
| Protocol.FileNamePlain | softwareconfiguration/defaultEval/src/main/java/defaultEval/core/HyperbandOptimizer.java:226 | The run name holds no backslash, double quote or line break when the component names and the dataset hold none, so the result-file literal is read back as written |
| Protocol.EvalInvocationArgs | softwareconfiguration/defaultEval/src/main/java/defaultEval/core/HyperbandOptimizer.java:224-235 | The whole call list evaluates to `java`, `-jar`, the jar path and then exactly the evaluator's argument vector |
| Protocol.RenderedMapKeys | softwareconfiguration/defaultEval/src/main/java/defaultEval/core/PipelineEvaluator.java:109-116 | The map a rendered stage stands for has exactly the component's bare names as keys |
| Protocol.RenderedMapAt | softwareconfiguration/defaultEval/src/main/java/defaultEval/core/PipelineEvaluator.java:109-116 | With distinct names, each bare name maps to its parameter's rendered value |
| Protocol.StageAt | softwareconfiguration/defaultEval/src/main/java/defaultEval/core/PipelineEvaluator.java:140-156 | A rendered stage at any position is read back as its component and rendered map, and reading stops right after it |
| Protocol.DecodeThreeStages | softwareconfiguration/defaultEval/src/main/java/defaultEval/core/PipelineEvaluator.java:61-156 | A head followed by three rendered stages decodes into the three components and their rendered maps |
| Protocol.PlainRoundTrip | softwareconfiguration/defaultEval/src/main/java/defaultEval/core/PipelineEvaluator.java:102-156 | Without a searcher, `"null"` and the classifier's stage decode into the expected run |
| Protocol.SearcherRoundTrip | softwareconfiguration/defaultEval/src/main/java/defaultEval/core/PipelineEvaluator.java:102-156 | With a searcher, the three rendered stages decode into the expected run |
| Protocol.InvocationRoundTrip | softwareconfiguration/defaultEval/src/main/java/defaultEval/core/PipelineEvaluator.java:61-156 | Under the conditions listed above, the template evaluates to the evaluator's vector, and that vector decodes into the run's result file, dataset, seed and components and exactly the stage maps that were rendered |
| Protocol.EvaluatorWritesResult | softwareconfiguration/defaultEval/src/main/java/defaultEval/core/PipelineEvaluator.java:61-187 | The call list evaluates, and on its elements after `java -jar <jar>` the evaluator writes to the run's result file the loss of the expected pipeline, or the sentinel when evaluation fails |
| DefaultOptimizer.Optimize | softwareconfiguration/defaultEval/src/main/java/defaultEval/core/DefaultOptimizer.java:25-35 | The three instances wrap the configured components unchanged, a missing searcher or evaluator included, with empty parameter maps and no required interfaces |
| DefaultOptimizer.DefaultIsDecodedIffNoParameters | softwareconfiguration/defaultEval/src/main/java/defaultEval/core/DefaultOptimizer.java:27-34 | The default instances are a possible Hyperband decoding exactly when the merged parameter list is empty |
| DefaultOptimizer.HyperbandWithoutParametersIsDefault | softwareconfiguration/defaultEval/src/main/java/defaultEval/core/DefaultOptimizer.java:25-35 | With no parameters and a non-empty log, Hyperband's result equals the default optimizer's |

## Left out

- Process control in `HyperbandOptimizer.optimize` is left out: launching Python, the watchdog and stream-draining threads, `waitFor`. It is concurrency and OS process handling. `HyperbandOptimizer.Optimize` starts from the parsed trial log, or its absence.
- Writing the generated scripts is left out as file I/O. The scripts' contents are modelled as strings and argument lists: `MainScript`, `GetParamsLines`, `GenerateParamList`, `InvocationArgs`.
- The `try_params` call line is modelled as its list of elements, not as the single formatted Python source line. The same holds for the line that reads the result file back.
- JSON parsing of the trial log is left out. A record is a loss and a map from keys to the text `toString` gives for each JSON value.
- Floating-point formatting is supplied by the caller: `fixed6` stands for `%f` in `np.random.uniform`, and `fixed9` for Python's `"{:.9f}".format`.
- Losses are `real`, so NaN is not modelled.
- JavaText.ParseDecimal accepts only the plain decimal forms `[+-]digits[.digits]`, `[+-].digits` and `[+-]digits.`. Exponents, hexadecimal, `NaN`/`Infinity`, type suffixes and surrounding blanks, which `Double.valueOf` also accepts, are reported as a format error.
- Optimizer.GetDoubleStringAsInt inherits that narrower input language. It is weaker than `(int) Double.valueOf(...)` on exponent and special forms.
- JavaText.ToLowerCase lowers only ASCII letters, not all of Unicode.
- JavaText.ParseInt accepts only ASCII digits. `Integer.valueOf` also accepts the decimal digits of other Unicode scripts.
- JavaText.TruncationKeepsWholePart is about the exact decimal value. Java first rounds the text to the nearest double, and then the fraction digits can matter: `7.99999999999999999` becomes the double 8.0.
- Optimizer.GetDoubleStringAsInt truncates the exact decimal value, not the nearest double. For text with more than about 15 significant digits this can differ: Java gives 8 for `7.99999999999999999`, the model gives 7.
- Optimizer.CorrectParameterSyntax inherits that difference for integer domains.
- Optimizer.CorrectionDropsFraction holds for the exact value. For long literals Java's rounding to a double can carry `n.999…` up to `n + 1`.
- Util.RevertFromUniqueParamName counts characters as Unicode scalar values. Java's `length()` counts UTF-16 code units, so a name holding characters outside the Basic Multilingual Plane is measured differently.
- HyperbandOptimizer.DrawRuleFor gives a real domain its exact bounds [min, max). The code renders them with `%f`, six decimals rounded half-up, and Python draws between the rounded bounds. That rounding is not modelled.
- HyperbandOptimizer.DrawsMatchDomain therefore does not cover real bounds with more than six decimals: their rounded bounds can admit values slightly outside [min, max].
- HyperbandOptimizer.EvalArg gives no value for a literal or a key that is not plain. Python's escape sequences, and the syntax error an embedded quote or line break causes, are not modelled.
- HyperbandOptimizer.QuotedListRoundTrip covers only values that are plain inside single quotes. The list reader refuses an item holding a backslash or a line break instead of modelling Python's escapes.
- Protocol.EvalParamArgs holds only for plain parameter names and keys, because of that.
- Protocol.EvalEvaluatorArgs holds only for plain paths, dataset and component names, for the same reason.
- Protocol.InvocationRoundTrip and Protocol.EvaluatorWritesResult carry the same plainness conditions.
- Everything `PipelineEvaluator.main` does through WEKA is the caller-supplied `evaluate` function: loading the dataset, building the pipeline and cross-validating it.
- The component catalogs loaded from `models/*.json` are parameters of the decoder.
- hasco's `Component.getParameter` is not part of this model. `Components.FindParameter` assumes it returns the first parameter with the name and fails for unknown names.
- `Optimizer.getOptimizedClassifier`, `MlPlanOptimizer`, `Util.loadInstances`, the experiment helpers and the cache command classes are left out. They are built on WEKA, ML-Plan, SQL and file I/O.
- The deprecated `getUniqueParamName(Pair)` overload is not a separate member. It computes what `Optimizer.UniqueParamName` computes on a merged entry.
- The console output of `optimize` and `createOutput` is left out as I/O.
- `Optimizer.Config` holds the environment and dataset folders as absolute path strings, not `File` objects.

## Findings

| source | as written | input that shows it | evidently intended | confidence | as-written member | corrected member |
|---|---|---|---|---|---|---|
| softwareconfiguration/defaultEval/src/main/java/defaultEval/core/HyperbandOptimizer.java:304-306 | The exclusive upper bound of `range` is `(int)n_pd.getMax()+1`, an `int` addition that wraps around | An integer domain with min 0 and max 2147483647 renders `range(0, -2147483648, 1)`, which is empty, so the draw fails although 0 is admitted | The upper bound `max + 1` computed without overflow, so the range covers [min, max] | high; not executed | HyperbandOptimizer.DrawRuleAsWritten, HyperbandOptimizer.AsWrittenDrawsNothingAtIntMax | HyperbandOptimizer.DrawRuleFor |
