/** PipelineEvaluator.java: the evaluator process. It decodes its argument
    list into the three stages' components and parameter maps, evaluates the
    pipeline, and always writes a loss, the sentinel when anything fails. */
module PipelineEvaluator {
  import opened Wrappers
  import opened JavaText
  import opened Components
  import opened Util

  /** The loss written when decoding, building or evaluating fails. */
  const SENTINEL_LOSS: real := 1000000.0

  /** Why decoding stops: an index past the end of `args`, a seed that
      `Integer.valueOf` rejects, or a name `Component.getParameter` does not know. */
  datatype DecodeError =
    | MissingArgument
    | BadSeed(text: string)
    | UnknownParameter(component: string, name: string)

  /** What `main` stores for a value: lower-cased for boolean domains, verbatim otherwise. */
  function StoredValue(d: Domain, value: string): (r: string)
    ensures d.Boolean? ==> r == ToLowerCase(value)
    ensures !d.Boolean? ==> r == value
  {
    if d.Boolean? then ToLowerCase(value) else value
  }

  /** The inner loop for one matching component: k (name, value) pairs from
      index i on, each name looked up in the component. Returns the index
      after the pairs and the map with the pairs put in order. */
  function ReadPairs(args: seq<string>, i: nat, c: Component, k: nat, acc: map<string, string>)
    : (r: Result<(nat, map<string, string>), DecodeError>)
    ensures r.Ok? ==> r.value.0 == i + 2 * k && (k > 0 ==> r.value.0 <= |args|)
    ensures r.Err? && r.error.MissingArgument? ==> |args| < i + 2 * k
    decreases k
  {
    if k == 0 then Ok((i, acc))
    else if i >= |args| then Err(MissingArgument)
    else
      match FindParameter(c.params, args[i])
      case None => Err(UnknownParameter(c.name, args[i]))
      case Some(p) =>
        if i + 1 >= |args| then Err(MissingArgument)
        else ReadPairs(args, i + 2, c, k - 1, acc[args[i] := StoredValue(p.domain, args[i + 1])])
  }

  /** The pair loop keeps the keys it started with and adds only names of
      the component's parameters. */
  lemma {:induction false} ReadPairsKeys(args: seq<string>, i: nat, c: Component, k: nat, acc: map<string, string>)
    ensures var r := ReadPairs(args, i, c, k, acc);
            r.Ok? ==> acc.Keys <= r.value.1.Keys <= acc.Keys + NameSet(c.params)
    decreases k
  {
    if k > 0 && i + 1 < |args| && FindParameter(c.params, args[i]).Some? {
      var p := FindParameter(c.params, args[i]).value;
      ReadPairsKeys(args, i + 2, c, k - 1, acc[args[i] := StoredValue(p.domain, args[i + 1])]);
    }
  }

  /** The pair loop fails only by running out of arguments or on an unknown
      name: in bounds and with every name known, it succeeds. */
  lemma {:induction false} ReadPairsSucceeds(args: seq<string>, i: nat, c: Component, k: nat, acc: map<string, string>)
    requires i + 2 * k <= |args|
    requires forall j :: 0 <= j < k ==> args[i + 2 * j] in NameSet(c.params)
    ensures ReadPairs(args, i, c, k, acc).Ok?
    decreases k
  {
    if k > 0 {
      assert args[i + 2 * 0] in NameSet(c.params);
      FindParameterMisses(c.params, args[i]);
      var p := FindParameter(c.params, args[i]).value;
      forall j | 0 <= j < k - 1
        ensures args[i + 2 + 2 * j] in NameSet(c.params)
      {
        assert i + 2 + 2 * j == i + 2 * (j + 1);
      }
      ReadPairsSucceeds(args, i + 2, c, k - 1, acc[args[i] := StoredValue(p.domain, args[i + 1])]);
    }
  }

  /** The state after one stage: the next index, the component found (the
      last match in the catalog), and the stage's parameter map. */
  datatype Stage = Stage(next: nat, component: Option<Component>, values: map<string, string>)

  /** The outer loop over the catalog from index j on: every component with
      the given name has its pairs read, into one shared map. */
  function ReadComponent(args: seq<string>, i: nat, name: string, catalog: seq<Component>, j: nat,
                         found: Option<Component>, acc: map<string, string>): (r: Result<Stage, DecodeError>)
    requires j <= |catalog|
    ensures (forall m :: j <= m < |catalog| ==> catalog[m].name != name) ==> r == Ok(Stage(i, found, acc))
    ensures r.Ok? ==> i <= r.value.next
    decreases |catalog| - j
  {
    if j == |catalog| then Ok(Stage(i, found, acc))
    else if catalog[j].name == name then
      match ReadPairs(args, i, catalog[j], |catalog[j].params|, acc)
      case Err(e) => Err(e)
      case Ok((next, values)) => ReadComponent(args, next, name, catalog, j + 1, Some(catalog[j]), values)
    else ReadComponent(args, i, name, catalog, j + 1, found, acc)
  }

  /** A component the outer loop reports, unless it is the one passed in, is
      one of catalog[j..] and has the name looked for. */
  lemma {:induction false} ReadComponentFinds(args: seq<string>, i: nat, name: string, catalog: seq<Component>, j: nat,
                                              found: Option<Component>, acc: map<string, string>)
    requires j <= |catalog|
    ensures var r := ReadComponent(args, i, name, catalog, j, found, acc);
            r.Ok? && r.value.component != found ==>
              exists m :: j <= m < |catalog| && Some(catalog[m]) == r.value.component && catalog[m].name == name
    decreases |catalog| - j
  {
    if j < |catalog| {
      if catalog[j].name == name {
        match ReadPairs(args, i, catalog[j], |catalog[j].params|, acc)
        case Err(_) =>
        case Ok((next, values)) =>
          ReadComponentFinds(args, next, name, catalog, j + 1, Some(catalog[j]), values);
      } else {
        ReadComponentFinds(args, i, name, catalog, j + 1, found, acc);
      }
    }
  }

  /** One stage: its name at index i, then its pairs read against the catalog. */
  function ReadStage(args: seq<string>, i: nat, catalog: seq<Component>): (r: Result<Stage, DecodeError>)
    ensures i >= |args| ==> r == Err(MissingArgument)
    ensures r.Ok? ==> i < r.value.next
  {
    if i >= |args| then Err(MissingArgument)
    else ReadComponent(args, i + 1, args[i], catalog, 0, None, map[])
  }

  /** A component a stage reports is in the catalog and has the name at index i. */
  lemma ReadStageFinds(args: seq<string>, i: nat, catalog: seq<Component>)
    ensures var r := ReadStage(args, i, catalog);
            r.Ok? && r.value.component.Some? ==>
              i < |args| && r.value.component.value in catalog && r.value.component.value.name == args[i]
  {
    if i < |args| {
      ReadComponentFinds(args, i + 1, args[i], catalog, 0, None, map[]);
    }
  }

  /** Everything `main` reads from its arguments. */
  datatype Decoded = Decoded(
    resultFile: string,
    dataset: string,
    seed: Int32,
    searcher: Option<Component>, searcherParameter: map<string, string>,
    evaluator: Option<Component>, evaluatorParameter: map<string, string>,
    classifier: Option<Component>, classifierParameter: map<string, string>)

  /** The argument walk of `main`: result file, dataset, seed, then the
      searcher's name (or "null") with its pairs and the evaluator's name with
      its pairs, then the classifier's name with its pairs. Trailing
      arguments are ignored. */
  function Decode(args: seq<string>, preprocessors: seq<Component>, classifiers: seq<Component>)
    : (r: Result<Decoded, DecodeError>)
    ensures |args| < 3 ==> r == Err(MissingArgument)
    ensures |args| >= 3 && ParseInt(args[2]).None? ==> r == Err(BadSeed(args[2]))
    ensures r.Ok? ==> |args| >= 4
    ensures r.Ok? ==> r.value.resultFile == args[0] && r.value.dataset == args[1] && ParseInt(args[2]) == Some(r.value.seed)
    ensures r.Ok? && args[3] == "null" ==>
      r.value.searcher.None? && r.value.evaluator.None? && r.value.searcherParameter == map[] && r.value.evaluatorParameter == map[]
    ensures r.Ok? && r.value.classifier.Some? ==> r.value.classifier.value in classifiers
  {
    if |args| < 3 then Err(MissingArgument)
    else
      match ParseInt(args[2])
      case None => Err(BadSeed(args[2]))
      case Some(seed) =>
        if |args| < 4 then Err(MissingArgument)
        else
          var pre :- if args[3] == "null" then Ok((Stage(4, None, map[]), Stage(4, None, map[])))
                     else ReadPreprocessor(args, preprocessors);
          ReadStageFinds(args, pre.1.next, classifiers);
          var cls :- ReadStage(args, pre.1.next, classifiers);
          Ok(Decoded(args[0], args[1], seed,
                     pre.0.component, pre.0.values, pre.1.component, pre.1.values,
                     cls.component, cls.values))
  }

  /** The searcher's name at index 3 and its pairs, then the evaluator's name
      and pairs, both looked up among the preprocessors. */
  function ReadPreprocessor(args: seq<string>, preprocessors: seq<Component>): (r: Result<(Stage, Stage), DecodeError>)
    requires |args| >= 4
    ensures r.Ok? ==> 4 <= r.value.0.next < r.value.1.next
  {
    var s :- ReadStage(args, 3, preprocessors);
    var e :- ReadStage(args, s.next, preprocessors);
    Ok((s, e))
  }

  /** The file `createOutput` writes and the loss it writes there. */
  datatype Output = Output(path: string, loss: real)

  /** `main`: without arguments it fails before the `try` and writes nothing;
      otherwise it writes a loss to `args[0]`, the sentinel when decoding
      fails or `evaluate` (building and cross-validating the pipeline on the
      dataset with the seed) throws. */
  function Main(args: seq<string>, preprocessors: seq<Component>, classifiers: seq<Component>,
                evaluate: (string, Int32, ComponentInstance) -> Option<real>): (r: Option<Output>)
    ensures r.None? <==> |args| == 0
    ensures r.Some? ==> r.value.path == args[0]
    ensures r.Some? && Decode(args, preprocessors, classifiers).Err? ==> r.value.loss == SENTINEL_LOSS
    ensures r.Some? && Decode(args, preprocessors, classifiers).Ok? ==>
      var d := Decode(args, preprocessors, classifiers).value;
      r.value.loss == evaluate(d.dataset, d.seed, PipelineOf(d)).GetOr(SENTINEL_LOSS)
    ensures r.Some? && r.value.loss != SENTINEL_LOSS ==>
      var d := Decode(args, preprocessors, classifiers).value;
      evaluate(d.dataset, d.seed, PipelineOf(d)) == Some(r.value.loss)
  {
    if |args| == 0 then None
    else
      match Decode(args, preprocessors, classifiers)
      case Err(_) => Some(Output(args[0], SENTINEL_LOSS))
      case Ok(d) =>
        match evaluate(d.dataset, d.seed, PipelineOf(d))
        case None => Some(Output(args[0], SENTINEL_LOSS))
        case Some(loss) => Some(Output(args[0], loss))
  }

  /** The pipeline `main` builds from what it decoded. */
  function PipelineOf(d: Decoded): ComponentInstance
  {
    CreatePipeline(d.searcher, d.searcherParameter, d.evaluator, d.evaluatorParameter, d.classifier, d.classifierParameter)
  }
}
