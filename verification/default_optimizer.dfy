/** DefaultOptimizer.java: the baseline optimizer. It searches nothing, so
    the pipeline it reports runs every component with its default values. */
module DefaultOptimizer {
  import opened Wrappers
  import opened Components
  import opened Util
  import opened Optimizer
  import HyperbandOptimizer

  /** `optimize`: one instance per stage, each wrapping the configured
      component as given (an absent searcher or evaluator included) with no
      parameter values and no required interfaces. Nothing is run or written. */
  function Optimize(cfg: Config): (r: FinalInstances)
    ensures r.searcher.component == cfg.searcher
    ensures r.evaluator.component == cfg.evaluator
    ensures r.classifier.component == Some(cfg.classifier)
    ensures r.searcher.parameterValues == map[] && r.evaluator.parameterValues == map[]
         && r.classifier.parameterValues == map[]
    ensures r.searcher.satisfactionOfRequiredInterfaces == map[]
         && r.evaluator.satisfactionOfRequiredInterfaces == map[]
         && r.classifier.satisfactionOfRequiredInterfaces == map[]
  {
    var searcherParameter := map[];
    var evaluatorParameter := map[];
    var classifierParameter := map[];
    FinalInstances(
      ComponentInstance(cfg.searcher, searcherParameter, map[]),
      ComponentInstance(cfg.evaluator, evaluatorParameter, map[]),
      ComponentInstance(Some(cfg.classifier), classifierParameter, map[]))
  }

  /** A stage's name set is empty exactly when the stage has no parameters. */
  lemma NameSetEmpty(ps: seq<Parameter>)
    ensures NameSet(ps) == {} <==> |ps| == 0
  {
    if |ps| > 0 {
      assert ps[0].name in NameSet(ps);
    }
  }

  /** The default instances are what Hyperband's decoding could report for
      some record exactly when there is nothing to search: every stage's
      component has no parameters. */
  lemma DefaultIsDecodedIffNoParameters(cfg: Config, params: map<string, string>)
    requires cfg.Valid()
    ensures HyperbandOptimizer.StagesDecodedFrom(cfg, params, Optimize(cfg)) <==> |ParameterList(cfg)| == 0
  {
    NameSetEmpty(cfg.classifier.params);
    if cfg.searcher.Some? {
      NameSetEmpty(cfg.searcher.value.params);
      NameSetEmpty(cfg.evaluator.value.params);
    }
  }

  /** With no parameter anywhere and at least one trial, Hyperband ends with
      exactly the default instances. */
  lemma HyperbandWithoutParametersIsDefault(cfg: Config, trials: seq<HyperbandOptimizer.Trial>)
    requires cfg.Valid() && |trials| > 0 && |ParameterList(cfg)| == 0
    ensures HyperbandOptimizer.CreateFinalInstances(cfg, trials) == Ok(Optimize(cfg))
  {
    var b := HyperbandOptimizer.SelectBest(trials).value;
    var params := trials[b].params;
    NameSetEmpty(cfg.classifier.params);
    var m := HyperbandOptimizer.DecodeStage(cfg.classifier.params, Classifier, params);
    assert m == Ok(map[]);
    if cfg.searcher.Some? {
      NameSetEmpty(cfg.searcher.value.params);
      NameSetEmpty(cfg.evaluator.value.params);
      assert HyperbandOptimizer.DecodeStage(cfg.searcher.value.params, Searcher, params) == Ok(map[]);
      assert HyperbandOptimizer.DecodeStage(cfg.evaluator.value.params, Evaluator, params) == Ok(map[]);
    }
  }
}
