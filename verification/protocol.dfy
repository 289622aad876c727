/** The text protocol between the two processes: the argument list the
    Hyperband wrapper script passes for a trial is decoded by the evaluator
    into exactly the components and parameter values that were rendered. */
module Protocol {
  import opened Wrappers
  import opened JavaText
  import opened Components
  import opened Util
  import opened Optimizer
  import opened HyperbandOptimizer
  import opened PipelineEvaluator

  // ---------------------------------------------------------------------------
  // Rendered values

  /** What Python passes for a value of a domain: nine-decimal text for real
      domains, the value's text otherwise. */
  function RenderValue(d: Domain, value: string, fixed9: string -> string): string
  {
    if d.Numeric? && !d.isInteger then fixed9(value) else value
  }

  /** The wrapped template argument evaluates to the rendered value. */
  lemma WrappedRendersValue(key: string, d: Domain, params: map<string, string>, fixed9: string -> string)
    requires key in params && PythonPlain(key, '\'')
    ensures EvalArg(Wrapped(key, d), params, fixed9) == Some(RenderValue(d, params[key], fixed9))
  {
  }

  /** A parameter passes through the script unchanged: its name is plain in
      the double-quoted literal and its unique name in `params['...']`, it has
      a value in the trial, and a boolean value is already lower case (as the
      drawn literals 'true' and 'false' are). */
  predicate ParamReady(p: Parameter, t: ParamType, params: map<string, string>)
  {
    var key := ConvertToUniqueParamName(p.name, t);
    && PythonPlain(p.name, '"') && PythonPlain(key, '\'')
    && key in params && (p.domain.Boolean? ==> ToLowerCase(params[key]) == params[key])
  }

  /** Every parameter of a stage is ready. */
  predicate StageReady(ps: seq<Parameter>, t: ParamType, params: map<string, string>)
  {
    |ps| == 0 || (ParamReady(ps[0], t, params) && StageReady(ps[1..], t, params))
  }

  lemma {:induction false} StageReadyAll(ps: seq<Parameter>, t: ParamType, params: map<string, string>)
    ensures StageReady(ps, t, params) <==> forall p :: p in ps ==> ParamReady(p, t, params)
  {
    if |ps| > 0 {
      StageReadyAll(ps[1..], t, params);
      assert forall p :: p in ps <==> p == ps[0] || p in ps[1..];
    }
  }

  /** The (name, value) arguments of one stage as the evaluator receives them. */
  function RenderedPairs(ps: seq<Parameter>, t: ParamType, params: map<string, string>, fixed9: string -> string): (r: seq<string>)
    requires StageReady(ps, t, params)
    ensures |r| == 2 * |ps|
  {
    if |ps| == 0 then []
    else
      var p := ps[0];
      [p.name, RenderValue(p.domain, params[ConvertToUniqueParamName(p.name, t)], fixed9)]
      + RenderedPairs(ps[1..], t, params, fixed9)
  }

  lemma NameSetCons(ps: seq<Parameter>)
    requires |ps| > 0
    ensures NameSet(ps) == {ps[0].name} + NameSet(ps[1..])
  {
    assert ps == [ps[0]] + ps[1..];
  }

  /** The stage map the rendered pairs stand for: each bare name with its
      rendered value, later pairs overriding earlier ones. */
  function RenderedMap(ps: seq<Parameter>, t: ParamType, params: map<string, string>, fixed9: string -> string)
    : (r: map<string, string>)
    requires StageReady(ps, t, params)
  {
    if |ps| == 0 then map[]
    else
      var p := ps[0];
      map[p.name := RenderValue(p.domain, params[ConvertToUniqueParamName(p.name, t)], fixed9)]
      + RenderedMap(ps[1..], t, params, fixed9)
  }

  /** The map has exactly the stage's bare names as keys. */
  lemma {:induction false} RenderedMapKeys(ps: seq<Parameter>, t: ParamType, params: map<string, string>, fixed9: string -> string)
    requires StageReady(ps, t, params)
    ensures RenderedMap(ps, t, params, fixed9).Keys == NameSet(ps)
    decreases |ps|
  {
    if |ps| > 0 {
      NameSetCons(ps);
      RenderedMapKeys(ps[1..], t, params, fixed9);
    }
  }

  /** With distinct names, the map holds each parameter's rendered value. */
  lemma {:induction false} RenderedMapAt(ps: seq<Parameter>, t: ParamType, params: map<string, string>,
                                         fixed9: string -> string, k: nat)
    requires StageReady(ps, t, params) && DistinctNames(ps) && k < |ps|
    ensures ConvertToUniqueParamName(ps[k].name, t) in params
    ensures ps[k].name in RenderedMap(ps, t, params, fixed9)
    ensures RenderedMap(ps, t, params, fixed9)[ps[k].name]
         == RenderValue(ps[k].domain, params[ConvertToUniqueParamName(ps[k].name, t)], fixed9)
    decreases k
  {
    if k > 0 {
      assert ps[1..][k - 1] == ps[k];
      RenderedMapAt(ps[1..], t, params, fixed9, k - 1);
    } else if |ps| > 1 {
      forall j | 0 <= j < |ps[1..]|
        ensures ps[1..][j].name != ps[0].name
      {
        assert ps[1..][j] == ps[j + 1];
      }
      RenderedMapMisses(ps[1..], t, params, fixed9, ps[0].name);
    }
  }

  /** A name no parameter of the stage carries is not a key of its map. */
  lemma {:induction false} RenderedMapMisses(ps: seq<Parameter>, t: ParamType, params: map<string, string>,
                                             fixed9: string -> string, name: string)
    requires StageReady(ps, t, params)
    requires forall j :: 0 <= j < |ps| ==> ps[j].name != name
    ensures name !in RenderedMap(ps, t, params, fixed9)
    decreases |ps|
  {
    if |ps| > 0 {
      assert ps[0].name != name;
      forall j | 0 <= j < |ps[1..]|
        ensures ps[1..][j].name != name
      {
        assert ps[1..][j] == ps[j + 1];
      }
      RenderedMapMisses(ps[1..], t, params, fixed9, name);
    }
  }

  /** A stage as the evaluator receives it: the component's name, then its pairs. */
  function StageText(c: Component, t: ParamType, params: map<string, string>, fixed9: string -> string): (r: seq<string>)
    requires StageReady(c.params, t, params)
    ensures |r| == 1 + 2 * |c.params|
  {
    [c.name] + RenderedPairs(c.params, t, params, fixed9)
  }

  /** The argument vector of `PipelineEvaluator.main` for a trial. */
  function EvaluatedArgs(cfg: Config, params: map<string, string>, fixed9: string -> string): seq<string>
    requires cfg.Valid() && Ready(cfg, params)
  {
    HeadText(cfg) + PreprocessorText(cfg, params, fixed9) + StageText(cfg.classifier, Classifier, params, fixed9)
  }

  /** Result file, dataset and seed. */
  function HeadText(cfg: Config): seq<string>
    requires cfg.Valid()
  {
    [ResultFilePath(cfg), DatasetPath(cfg), IntToString(cfg.seed)]
  }

  /** The searcher's and the evaluator's stage texts, or "null" alone. */
  function PreprocessorText(cfg: Config, params: map<string, string>, fixed9: string -> string): seq<string>
    requires cfg.Valid() && Ready(cfg, params)
  {
    if cfg.searcher.Some? then
      StageText(cfg.searcher.value, Searcher, params, fixed9) + StageText(cfg.evaluator.value, Evaluator, params, fixed9)
    else ["null"]
  }

  /** The texts the invocation carries as double-quoted literals are plain:
      the environment, the dataset folder and name, and the component names. */
  predicate PlainTexts(cfg: Config)
    requires cfg.Valid()
  {
    && PythonPlain(cfg.environment, '"') && PythonPlain(cfg.dataSetFolder, '"') && PythonPlain(cfg.dataSet, '"')
    && PythonPlain(cfg.classifier.name, '"')
    && (cfg.searcher.Some? ==> PythonPlain(cfg.searcher.value.name, '"') && PythonPlain(cfg.evaluator.value.name, '"'))
  }

  /** The run's literals are plain and every stage is ready in the trial. */
  predicate Ready(cfg: Config, params: map<string, string>)
    requires cfg.Valid()
  {
    && PlainTexts(cfg)
    && StageReady(cfg.classifier.params, Classifier, params)
    && (cfg.searcher.Some? ==> StageReady(cfg.searcher.value.params, Searcher, params))
    && (cfg.searcher.Some? ==> StageReady(cfg.evaluator.value.params, Evaluator, params))
  }

  // ---------------------------------------------------------------------------
  // Python side: evaluating the template

  /** An argument list whose elements each evaluate to the matching text
      evaluates to that text. */
  lemma EvalArgsIs(es: seq<ArgExpr>, params: map<string, string>, fixed9: string -> string, out: seq<string>)
    requires |out| == |es|
    requires forall i :: 0 <= i < |es| ==> EvalArg(es[i], params, fixed9) == Some(out[i])
    ensures EvalArgs(es, params, fixed9) == Some(out)
  {
    var r := EvalArgs(es, params, fixed9);
    assert r.Some?;
    assert r.value == out;
  }

  lemma EvalArgsAppend(a: seq<ArgExpr>, b: seq<ArgExpr>, params: map<string, string>, fixed9: string -> string)
    requires EvalArgs(a, params, fixed9).Some? && EvalArgs(b, params, fixed9).Some?
    ensures EvalArgs(a + b, params, fixed9) == Some(EvalArgs(a, params, fixed9).value + EvalArgs(b, params, fixed9).value)
  {
    var va, vb := EvalArgs(a, params, fixed9).value, EvalArgs(b, params, fixed9).value;
    var ab, out := a + b, va + vb;
    forall i | 0 <= i < |ab|
      ensures EvalArg(ab[i], params, fixed9) == Some(out[i])
    {
      if i < |a| {
        assert ab[i] == a[i] && out[i] == va[i];
      } else {
        assert ab[i] == b[i - |a|] && out[i] == vb[i - |a|];
      }
    }
    EvalArgsIs(ab, params, fixed9, out);
  }

  /** A stage's pairs evaluate to the rendered pairs. */
  lemma {:induction false} EvalParamArgs(ps: seq<Parameter>, t: ParamType, params: map<string, string>, fixed9: string -> string)
    requires StageReady(ps, t, params)
    ensures EvalArgs(ParamArgs(ps, t), params, fixed9) == Some(RenderedPairs(ps, t, params, fixed9))
    decreases |ps|
  {
    if |ps| > 0 {
      var p := ps[0];
      var key := ConvertToUniqueParamName(p.name, t);
      var pair := [Literal(p.name), Wrapped(key, p.domain)];
      assert ParamArgs(ps, t) == pair + ParamArgs(ps[1..], t);
      WrappedRendersValue(key, p.domain, params, fixed9);
      EvalArgsIs(pair, params, fixed9, [p.name, RenderValue(p.domain, params[key], fixed9)]);
      EvalParamArgs(ps[1..], t, params, fixed9);
      EvalArgsAppend(pair, ParamArgs(ps[1..], t), params, fixed9);
    }
  }

  lemma EvalStage(c: Component, t: ParamType, params: map<string, string>, fixed9: string -> string)
    requires PythonPlain(c.name, '"') && StageReady(c.params, t, params)
    ensures EvalArgs(StageArgs(c, t), params, fixed9) == Some(StageText(c, t, params, fixed9))
  {
    EvalParamArgs(c.params, t, params, fixed9);
    EvalArgsIs([Literal(c.name)], params, fixed9, [c.name]);
    EvalArgsAppend([Literal(c.name)], ParamArgs(c.params, t), params, fixed9);
  }

  lemma EvalPreprocessorArgs(cfg: Config, params: map<string, string>, fixed9: string -> string)
    requires cfg.Valid() && Ready(cfg, params)
    ensures EvalArgs(PreprocessorArgs(cfg), params, fixed9) == Some(PreprocessorText(cfg, params, fixed9))
  {
    if cfg.searcher.Some? {
      var sc, ec := cfg.searcher.value, cfg.evaluator.value;
      EvalStage(sc, Searcher, params, fixed9);
      EvalStage(ec, Evaluator, params, fixed9);
      EvalArgsAppend(StageArgs(sc, Searcher), StageArgs(ec, Evaluator), params, fixed9);
    } else {
      EvalArgsIs(PreprocessorArgs(cfg), params, fixed9, ["null"]);
    }
  }

  /** Python turns the invocation template into the evaluator's argument vector. */
  lemma EvalEvaluatorArgs(cfg: Config, params: map<string, string>, fixed9: string -> string)
    requires cfg.Valid() && Ready(cfg, params)
    ensures EvalArgs(EvaluatorArgs(cfg), params, fixed9) == Some(EvaluatedArgs(cfg, params, fixed9))
  {
    var head, pre, cls := HeadArgs(cfg), PreprocessorArgs(cfg), StageArgs(cfg.classifier, Classifier);
    HeadPlain(cfg);
    EvalArgsIs(head, params, fixed9, HeadText(cfg));
    EvalPreprocessorArgs(cfg, params, fixed9);
    EvalStage(cfg.classifier, Classifier, params, fixed9);
    EvalArgsAppend(head, pre, params, fixed9);
    EvalArgsAppend(head + pre, cls, params, fixed9);
  }

  /** The run's file name holds none of the characters that would end or
      escape a double-quoted literal, since its parts do not. */
  lemma FileNamePlain(cfg: Config)
    requires cfg.Valid() && PlainTexts(cfg)
    ensures PythonPlain(FileName(cfg), '"')
  {
    FileNameLacksSpecial(cfg, '\\');
    FileNameLacksSpecial(cfg, '"');
    FileNameLacksSpecial(cfg, '\n');
    FileNameLacksSpecial(cfg, '\r');
  }

  lemma FileNameLacksSpecial(cfg: Config, c: char)
    requires cfg.Valid() && PlainTexts(cfg)
    requires c == '\\' || c == '"' || c == '\n' || c == '\r'
    ensures c !in FileName(cfg)
  {
    FileNameLacks(cfg, c);
  }

  lemma FileNameLacks(cfg: Config, c: char)
    requires cfg.Valid() && c != '_' && c != '.' && c != '-' && !IsDigit(c) && c !in "null" && c !in "Hyperband"
    requires c !in cfg.classifier.name && c !in cfg.dataSet
    requires cfg.searcher.Some? ==> c !in cfg.searcher.value.name && c !in cfg.evaluator.value.name
    ensures c !in FileName(cfg)
  {
    BuildFileNameLacks(cfg, c);
  }

  lemma SeedTextPlain(n: int)
    ensures PythonPlain(IntToString(n), '"')
  {
    IntToStringChars(n, '\\');
    IntToStringChars(n, '"');
    IntToStringChars(n, '\n');
    IntToStringChars(n, '\r');
  }

  lemma JarPathPlain(environment: string)
    requires PythonPlain(environment, '"')
    ensures PythonPlain(environment + "/PipelineEvaluator.jar", '"')
  {
    PlainAppend(environment, "/PipelineEvaluator.jar", '"');
  }

  lemma PlainAppend(a: string, b: string, quote: char)
    requires PythonPlain(a, quote) && PythonPlain(b, quote)
    ensures PythonPlain(a + b, quote)
  {
  }

  /** The result file, dataset and seed literals are plain. */
  lemma HeadPlain(cfg: Config)
    requires cfg.Valid() && PlainTexts(cfg)
    ensures PythonPlain(ResultFilePath(cfg), '"') && PythonPlain(DatasetPath(cfg), '"')
    ensures PythonPlain(IntToString(cfg.seed), '"')
  {
    ResultFilePlain(cfg);
    DatasetPathPlain(cfg.dataSetFolder, cfg.dataSet);
    SeedTextPlain(cfg.seed);
  }

  lemma ResultFilePlain(cfg: Config)
    requires cfg.Valid() && PlainTexts(cfg)
    ensures PythonPlain(ResultFilePath(cfg), '"')
  {
    FileNamePlain(cfg);
  }

  lemma DatasetPathPlain(folder: string, dataSet: string)
    requires PythonPlain(folder, '"') && PythonPlain(dataSet, '"')
    ensures PythonPlain(folder + "/" + dataSet + ".arff", '"')
  {
  }

  /** The whole `call([...])` list evaluates to the JVM launch followed by the
      evaluator's argument vector. */
  lemma EvalInvocationArgs(cfg: Config, params: map<string, string>, fixed9: string -> string)
    requires cfg.Valid() && Ready(cfg, params)
    ensures EvalArgs(InvocationArgs(cfg), params, fixed9)
         == Some(["java", "-jar", cfg.environment + "/PipelineEvaluator.jar"] + EvaluatedArgs(cfg, params, fixed9))
  {
    var jvm := [Literal("java"), Literal("-jar"), Literal(cfg.environment + "/PipelineEvaluator.jar")];
    JarPathPlain(cfg.environment);
    EvalArgsIs(jvm, params, fixed9, ["java", "-jar", cfg.environment + "/PipelineEvaluator.jar"]);
    EvalEvaluatorArgs(cfg, params, fixed9);
    EvalArgsAppend(jvm, EvaluatorArgs(cfg), params, fixed9);
  }

  // ---------------------------------------------------------------------------
  // Java side: decoding the vector

  /** Catalog names are unique. */
  predicate UniqueNames(catalog: seq<Component>)
  {
    forall i, j :: 0 <= i < j < |catalog| ==> catalog[i].name != catalog[j].name
  }

  lemma SliceOfConcat<T>(a: seq<T>, b: seq<T>, c: seq<T>)
    ensures (a + b + c)[|a|..|a| + |b|] == b
  {
  }

  /** The first rendered pair and the rest of a stage. */
  lemma RenderedHead(qs: seq<Parameter>, t: ParamType, params: map<string, string>, fixed9: string -> string)
    requires |qs| > 0 && StageReady(qs, t, params)
    ensures StageReady(qs[1..], t, params)
    ensures var v := RenderValue(qs[0].domain, params[ConvertToUniqueParamName(qs[0].name, t)], fixed9);
            && RenderedPairs(qs, t, params, fixed9) == [qs[0].name, v] + RenderedPairs(qs[1..], t, params, fixed9)
            && RenderedMap(qs, t, params, fixed9) == map[qs[0].name := v] + RenderedMap(qs[1..], t, params, fixed9)
  {
  }

  /** One step of the pair loop on a known name. */
  lemma ReadPairsStep(args: seq<string>, i: nat, c: Component, k: nat, acc: map<string, string>, p: Parameter)
    requires k > 0 && i + 1 < |args| && FindParameter(c.params, args[i]) == Some(p)
    ensures ReadPairs(args, i, c, k, acc) == ReadPairs(args, i + 2, c, k - 1, acc[args[i] := StoredValue(p.domain, args[i + 1])])
  {
  }

  lemma SliceHead<T>(s: seq<T>, i: nat, n: nat, x: T, y: T, rest: seq<T>)
    requires i + n <= |s| && n >= 2 && s[i..i + n] == [x, y] + rest
    ensures s[i] == x && s[i + 1] == y && s[i + 2..i + n] == rest
  {
    assert s[i] == s[i..i + n][0];
    assert s[i + 1] == s[i..i + n][1];
    assert s[i + 2..i + n] == s[i..i + n][2..];
  }

  lemma MapUpdateUnion<K, V>(acc: map<K, V>, key: K, v: V, rest: map<K, V>)
    ensures acc[key := v] + rest == acc + (map[key := v] + rest)
  {
  }

  /** A known name and its stored value in front of pairs that read back as
      `rest` read back as the name's entry followed by `rest`. */
  lemma ReadPairsHead(args: seq<string>, i: nat, c: Component, k: nat, acc: map<string, string>,
                      q: Parameter, v: string, next: nat, rest: map<string, string>)
    requires k > 0 && i + 1 < |args| && args[i] == q.name && args[i + 1] == v
    requires FindParameter(c.params, q.name) == Some(q) && StoredValue(q.domain, v) == v
    requires ReadPairs(args, i + 2, c, k - 1, acc[q.name := v]) == Ok((next, acc[q.name := v] + rest))
    ensures ReadPairs(args, i, c, k, acc) == Ok((next, acc + (map[q.name := v] + rest)))
  {
    ReadPairsStep(args, i, c, k, acc, q);
    MapUpdateUnion(acc, q.name, v, rest);
  }

  /** Reading the rendered pairs of c's parameters from the n-th on (qs)
      puts exactly their rendered values into the map. */
  lemma {:induction false} ReadRenderedPairs(args: seq<string>, i: nat, c: Component, qs: seq<Parameter>, k: nat,
                                             t: ParamType, params: map<string, string>, fixed9: string -> string,
                                             acc: map<string, string>)
    requires AllFound(c, qs) && k == |qs|
    requires StageReady(qs, t, params)
    requires i + 2 * k <= |args| && args[i..i + 2 * k] == RenderedPairs(qs, t, params, fixed9)
    ensures ReadPairs(args, i, c, k, acc) == Ok((i + 2 * k, acc + RenderedMap(qs, t, params, fixed9)))
    decreases k
  {
    if k == 0 {
      assert acc + map[] == acc;
    } else {
      RenderedPairsTail(args, i, qs, k, t, params, fixed9);
      ReadRenderedPairs(args, i + 2, c, qs[1..], k - 1, t, params, fixed9,
                        acc[qs[0].name := RenderValue(qs[0].domain, params[ConvertToUniqueParamName(qs[0].name, t)], fixed9)]);
      ReadRenderedPairsCons(args, i, c, qs, k, t, params, fixed9, acc,
                            RenderValue(qs[0].domain, params[ConvertToUniqueParamName(qs[0].name, t)], fixed9));
    }
  }

  /** Looking up each of qs's names in c finds that very parameter. */
  predicate AllFound(c: Component, qs: seq<Parameter>)
  {
    |qs| == 0 || (FindParameter(c.params, qs[0].name) == Some(qs[0]) && AllFound(c, qs[1..]))
  }

  /** With distinct names, every parameter from the n-th on is found by name. */
  lemma {:induction false} DistinctAllFound(c: Component, n: nat)
    requires DistinctNames(c.params) && n <= |c.params|
    ensures AllFound(c, c.params[n..])
    decreases |c.params| - n
  {
    if n < |c.params| {
      FindParameterFindsItself(c.params, c.params[n]);
      assert c.params[n..][0] == c.params[n] && c.params[n..][1..] == c.params[n + 1..];
      DistinctAllFound(c, n + 1);
    }
  }


  /** What the pair loop is left with after the first rendered pair. */
  lemma RenderedPairsTail(args: seq<string>, i: nat, qs: seq<Parameter>, k: nat,
                          t: ParamType, params: map<string, string>, fixed9: string -> string)
    requires k == |qs| > 0
    requires StageReady(qs, t, params)
    requires i + 2 * k <= |args| && args[i..i + 2 * k] == RenderedPairs(qs, t, params, fixed9)
    ensures StageReady(qs[1..], t, params)
    ensures args[i + 2..i + 2 + 2 * (k - 1)] == RenderedPairs(qs[1..], t, params, fixed9)
  {
    var q := qs[0];
    var v := RenderValue(q.domain, params[ConvertToUniqueParamName(q.name, t)], fixed9);
    RenderedHead(qs, t, params, fixed9);
    SliceHead(args, i, 2 * k, q.name, v, RenderedPairs(qs[1..], t, params, fixed9));
  }


  /** The first rendered pair in front of the rest's reading. */
  lemma ReadRenderedPairsCons(args: seq<string>, i: nat, c: Component, qs: seq<Parameter>, k: nat,
                              t: ParamType, params: map<string, string>, fixed9: string -> string,
                              acc: map<string, string>, v: string)
    requires k == |qs| > 0 && StageReady(qs, t, params)
    requires FindParameter(c.params, qs[0].name) == Some(qs[0])
    requires v == RenderValue(qs[0].domain, params[ConvertToUniqueParamName(qs[0].name, t)], fixed9)
    requires i + 2 * k <= |args| && args[i..i + 2 * k] == RenderedPairs(qs, t, params, fixed9)
    requires ReadPairs(args, i + 2, c, k - 1, acc[qs[0].name := v]) ==
               Ok((i + 2 + 2 * (k - 1), acc[qs[0].name := v] + RenderedMap(qs[1..], t, params, fixed9)))
    ensures ReadPairs(args, i, c, k, acc) == Ok((i + 2 * k, acc + RenderedMap(qs, t, params, fixed9)))
  {
    var q := qs[0];
    RenderedHead(qs, t, params, fixed9);
    SliceHead(args, i, 2 * k, q.name, v, RenderedPairs(qs[1..], t, params, fixed9));
    assert StoredValue(q.domain, v) == v;
    ReadPairsHead(args, i, c, k, acc, q, v, i + 2 + 2 * (k - 1), RenderedMap(qs[1..], t, params, fixed9));
  }





  lemma ReadComponentSkip(args: seq<string>, i: nat, name: string, catalog: seq<Component>, j: nat,
                          found: Option<Component>, acc: map<string, string>)
    requires j < |catalog| && catalog[j].name != name
    ensures ReadComponent(args, i, name, catalog, j, found, acc) == ReadComponent(args, i, name, catalog, j + 1, found, acc)
  {
  }

  lemma ReadComponentMatch(args: seq<string>, i: nat, name: string, catalog: seq<Component>, j: nat,
                           found: Option<Component>, acc: map<string, string>, next: nat, values: map<string, string>)
    requires j < |catalog| && catalog[j].name == name
    requires ReadPairs(args, i, catalog[j], |catalog[j].params|, acc) == Ok((next, values))
    ensures ReadComponent(args, i, name, catalog, j, found, acc)
         == ReadComponent(args, next, name, catalog, j + 1, Some(catalog[j]), values)
  {
  }

  /** With unique catalog names, the outer loop reads the pairs of the one
      matching component and skips every other component. */
  lemma {:induction false} ReadComponentResolves(args: seq<string>, i: nat, catalog: seq<Component>, m: nat, j: nat,
                                                 found: Option<Component>, t: ParamType,
                                                 params: map<string, string>, fixed9: string -> string,
                                                 acc: map<string, string>)
    requires UniqueNames(catalog)
    requires j <= m < |catalog|
    requires DistinctNames(catalog[m].params) && StageReady(catalog[m].params, t, params)
    requires i + 2 * |catalog[m].params| <= |args|
    requires args[i..i + 2 * |catalog[m].params|] == RenderedPairs(catalog[m].params, t, params, fixed9)
    ensures ReadComponent(args, i, catalog[m].name, catalog, j, found, acc)
         == Ok(Stage(i + 2 * |catalog[m].params|, Some(catalog[m]), acc + RenderedMap(catalog[m].params, t, params, fixed9)))
    decreases m - j
  {
    var comp := catalog[m];
    if j < m {
      ReadComponentSkip(args, i, comp.name, catalog, j, found, acc);
      ReadComponentResolves(args, i, catalog, m, j + 1, found, t, params, fixed9, acc);
    } else {
      ReadComponentAt(args, i, catalog, m, found, t, params, fixed9, acc);
    }
  }

  /** The matching component itself: its pairs are read, and no later
      component has its name. */
  lemma ReadComponentAt(args: seq<string>, i: nat, catalog: seq<Component>, m: nat,
                        found: Option<Component>, t: ParamType,
                        params: map<string, string>, fixed9: string -> string,
                        acc: map<string, string>)
    requires UniqueNames(catalog)
    requires m < |catalog|
    requires DistinctNames(catalog[m].params) && StageReady(catalog[m].params, t, params)
    requires i + 2 * |catalog[m].params| <= |args|
    requires args[i..i + 2 * |catalog[m].params|] == RenderedPairs(catalog[m].params, t, params, fixed9)
    ensures ReadComponent(args, i, catalog[m].name, catalog, m, found, acc)
         == Ok(Stage(i + 2 * |catalog[m].params|, Some(catalog[m]), acc + RenderedMap(catalog[m].params, t, params, fixed9)))
  {
    var comp := catalog[m];
    DistinctAllFound(comp, 0);
    assert comp.params[0..] == comp.params;
    ReadRenderedPairs(args, i, comp, comp.params, |comp.params|, t, params, fixed9, acc);
    assert ReadPairs(args, i, catalog[m], |catalog[m].params|, acc)
        == Ok((i + 2 * |comp.params|, acc + RenderedMap(comp.params, t, params, fixed9)));
    ReadComponentMatch(args, i, comp.name, catalog, m, found, acc,
                       i + 2 * |comp.params|, acc + RenderedMap(comp.params, t, params, fixed9));
    ReadComponentRest(args, i + 2 * |comp.params|, catalog, m, Some(comp), acc + RenderedMap(comp.params, t, params, fixed9));
  }

  /** No component after the m-th has its name. */
  lemma ReadComponentRest(args: seq<string>, i: nat, catalog: seq<Component>, m: nat,
                          found: Option<Component>, acc: map<string, string>)
    requires UniqueNames(catalog) && m < |catalog|
    ensures ReadComponent(args, i, catalog[m].name, catalog, m + 1, found, acc) == Ok(Stage(i, found, acc))
  {
    assert forall k :: m + 1 <= k < |catalog| ==> catalog[k].name != catalog[m].name;
  }

  /** A rendered stage at index i is read back as its component and map. */
  lemma ReadStageResolves(args: seq<string>, i: nat, catalog: seq<Component>, comp: Component, t: ParamType,
                          params: map<string, string>, fixed9: string -> string)
    requires UniqueNames(catalog) && comp in catalog
    requires DistinctNames(comp.params) && StageReady(comp.params, t, params)
    requires i + 1 + 2 * |comp.params| <= |args|
    requires args[i..i + 1 + 2 * |comp.params|] == StageText(comp, t, params, fixed9)
    ensures ReadStage(args, i, catalog)
         == Ok(Stage(i + 1 + 2 * |comp.params|, Some(comp), RenderedMap(comp.params, t, params, fixed9)))
  {
    var m :| 0 <= m < |catalog| && catalog[m] == comp;
    var text := StageText(comp, t, params, fixed9);
    assert args[i] == text[0] == comp.name;
    assert args[i + 1..i + 1 + 2 * |comp.params|] == text[1..];
    ReadComponentResolves(args, i + 1, catalog, m, 0, None, t, params, fixed9, map[]);
    assert map[] + RenderedMap(comp.params, t, params, fixed9) == RenderedMap(comp.params, t, params, fixed9);
  }

  // ---------------------------------------------------------------------------
  // Round trip

  /** What the evaluator should decode for a trial: the run's files and seed,
      the configured components, and the rendered stage maps. */
  function Expected(cfg: Config, params: map<string, string>, fixed9: string -> string): Decoded
    requires cfg.Valid() && Ready(cfg, params)
  {
    Decoded(ResultFilePath(cfg), DatasetPath(cfg), cfg.seed,
      cfg.searcher, if cfg.searcher.Some? then RenderedMap(cfg.searcher.value.params, Searcher, params, fixed9) else map[],
      if cfg.searcher.Some? then cfg.evaluator else None,
      if cfg.searcher.Some? then RenderedMap(cfg.evaluator.value.params, Evaluator, params, fixed9) else map[],
      Some(cfg.classifier), RenderedMap(cfg.classifier.params, Classifier, params, fixed9))
  }

  /** The components of a run can be found in the evaluator's catalogs. */
  predicate Resolvable(cfg: Config, preprocessors: seq<Component>, classifiers: seq<Component>)
    requires cfg.Valid()
  {
    && UniqueNames(preprocessors) && UniqueNames(classifiers)
    && cfg.classifier in classifiers
    && (cfg.searcher.Some? ==> cfg.searcher.value in preprocessors && cfg.evaluator.value in preprocessors)
    && (cfg.searcher.Some? ==> cfg.searcher.value.name != "null")
  }

  /** The groupings of a four-part concatenation the decoder walks through. */
  lemma Regroup<T>(h: seq<T>, s: seq<T>, e: seq<T>, c: seq<T>)
    ensures h + (s + e) + c == h + s + (e + c)
    ensures h + (s + e) + c == (h + s) + e + c
    ensures h + (s + e) + c == (h + s + e) + c + []
  {
  }

  /** The grouping of a three-part concatenation with nothing after it. */
  lemma Regroup3<T>(h: seq<T>, p: seq<T>, c: seq<T>)
    ensures h + p + c + [] == h + (p + c)
  {
  }

  /** A rendered stage anywhere in an argument vector is read back. */
  lemma StageAt(before: seq<string>, comp: Component, after: seq<string>, catalog: seq<Component>, t: ParamType,
                params: map<string, string>, fixed9: string -> string)
    requires UniqueNames(catalog) && comp in catalog
    requires DistinctNames(comp.params) && StageReady(comp.params, t, params)
    ensures ReadStage(before + StageText(comp, t, params, fixed9) + after, |before|, catalog)
         == Ok(Stage(|before| + 1 + 2 * |comp.params|, Some(comp), RenderedMap(comp.params, t, params, fixed9)))
  {
    var text := StageText(comp, t, params, fixed9);
    SliceOfConcat(before, text, after);
    ReadStageResolves(before + text + after, |before|, catalog, comp, t, params, fixed9);
  }

  /** ReadPreprocessor as a composition of its two stage reads. */
  lemma ReadPreprocessorSteps(args: seq<string>, preprocessors: seq<Component>, s: Stage, e: Stage)
    requires |args| >= 4
    requires ReadStage(args, 3, preprocessors) == Ok(s)
    requires ReadStage(args, s.next, preprocessors) == Ok(e)
    ensures ReadPreprocessor(args, preprocessors) == Ok((s, e))
  {
  }

  /** Decode as a composition of its steps. */
  lemma DecodeNullSteps(h: seq<string>, body: seq<string>, preprocessors: seq<Component>, classifiers: seq<Component>,
                        seed: Int32, c: Stage)
    requires |h| == 3 && |body| >= 1 && ParseInt(h[2]) == Some(seed) && body[0] == "null"
    requires ReadStage(h + body, 4, classifiers) == Ok(c)
    ensures Decode(h + body, preprocessors, classifiers)
         == Ok(Decoded(h[0], h[1], seed, None, map[], None, map[], c.component, c.values))
  {
    var args := h + body;
    assert args[0] == h[0] && args[1] == h[1] && args[2] == h[2] && args[3] == body[0];
  }

  lemma DecodeSearcherSteps(h: seq<string>, body: seq<string>, preprocessors: seq<Component>, classifiers: seq<Component>,
                            seed: Int32, s: Stage, e: Stage, c: Stage)
    requires |h| == 3 && |body| >= 1 && ParseInt(h[2]) == Some(seed) && body[0] != "null"
    requires ReadPreprocessor(h + body, preprocessors) == Ok((s, e))
    requires ReadStage(h + body, e.next, classifiers) == Ok(c)
    ensures Decode(h + body, preprocessors, classifiers)
         == Ok(Decoded(h[0], h[1], seed, s.component, s.values, e.component, e.values, c.component, c.values))
  {
    var args := h + body;
    assert args[0] == h[0] && args[1] == h[1] && args[2] == h[2] && args[3] == body[0];
  }

  /** The headline property: the evaluator decodes the argument list the
      wrapper script passes for a trial into the run's result file, dataset,
      seed and components and the stage maps that were rendered. */
  lemma InvocationRoundTrip(cfg: Config, params: map<string, string>, fixed9: string -> string,
                            preprocessors: seq<Component>, classifiers: seq<Component>)
    requires cfg.Valid() && NamesDistinctPerComponent(cfg)
    requires Resolvable(cfg, preprocessors, classifiers)
    requires Ready(cfg, params)
    ensures EvalArgs(EvaluatorArgs(cfg), params, fixed9) == Some(EvaluatedArgs(cfg, params, fixed9))
    ensures Decode(EvaluatedArgs(cfg, params, fixed9), preprocessors, classifiers) == Ok(Expected(cfg, params, fixed9))
  {
    EvalEvaluatorArgs(cfg, params, fixed9);
    ParseIntInvertsIntToString(cfg.seed);
    if cfg.searcher.Some? {
      SearcherRoundTrip(cfg, params, fixed9, preprocessors, classifiers);
    } else {
      PlainRoundTrip(cfg, params, fixed9, classifiers, preprocessors);
    }
  }

  /** Without a searcher: "null", then the classifier's stage at index 4. */
  lemma PlainRoundTrip(cfg: Config, params: map<string, string>, fixed9: string -> string,
                       classifiers: seq<Component>, preprocessors: seq<Component>)
    requires cfg.Valid() && cfg.searcher.None? && NamesDistinctPerComponent(cfg)
    requires Resolvable(cfg, preprocessors, classifiers)
    requires Ready(cfg, params)
    ensures Decode(EvaluatedArgs(cfg, params, fixed9), preprocessors, classifiers) == Ok(Expected(cfg, params, fixed9))
  {
    var h := HeadText(cfg);
    var cc := cfg.classifier;
    StageAt(h + ["null"], cc, [], classifiers, Classifier, params, fixed9);
    PlainText(cfg, params, fixed9);
    Regroup3(h, ["null"], StageText(cc, Classifier, params, fixed9));
    ParseIntInvertsIntToString(cfg.seed);
    DecodeNullSteps(h, ["null"] + StageText(cc, Classifier, params, fixed9), preprocessors, classifiers, cfg.seed,
                    Stage(4 + 1 + 2 * |cc.params|, Some(cc), RenderedMap(cc.params, Classifier, params, fixed9)));
  }

  /** Without a searcher the vector is the head, "null" and the classifier's stage. */
  lemma PlainText(cfg: Config, params: map<string, string>, fixed9: string -> string)
    requires cfg.Valid() && cfg.searcher.None? && Ready(cfg, params)
    ensures EvaluatedArgs(cfg, params, fixed9)
         == HeadText(cfg) + (["null"] + StageText(cfg.classifier, Classifier, params, fixed9))
  {
    assert PreprocessorText(cfg, params, fixed9) == ["null"];
    Regroup3(HeadText(cfg), ["null"], StageText(cfg.classifier, Classifier, params, fixed9));
  }

  /** With a searcher: the searcher's, the evaluator's and the classifier's
      stages one after the other from index 3. */
  lemma SearcherRoundTrip(cfg: Config, params: map<string, string>, fixed9: string -> string,
                          preprocessors: seq<Component>, classifiers: seq<Component>)
    requires cfg.Valid() && cfg.searcher.Some? && NamesDistinctPerComponent(cfg)
    requires Resolvable(cfg, preprocessors, classifiers)
    requires Ready(cfg, params)
    ensures Decode(EvaluatedArgs(cfg, params, fixed9), preprocessors, classifiers) == Ok(Expected(cfg, params, fixed9))
  {
    ParseIntInvertsIntToString(cfg.seed);
    DecodeThreeStages(HeadText(cfg), cfg.seed, cfg.searcher.value, cfg.evaluator.value, cfg.classifier,
                      params, fixed9, preprocessors, classifiers);
    SearcherText(cfg, params, fixed9);
  }

  /** With a searcher the vector is the head and the three stages. */
  lemma SearcherText(cfg: Config, params: map<string, string>, fixed9: string -> string)
    requires cfg.Valid() && cfg.searcher.Some? && Ready(cfg, params)
    ensures EvaluatedArgs(cfg, params, fixed9)
         == HeadText(cfg) + (StageText(cfg.searcher.value, Searcher, params, fixed9)
                             + StageText(cfg.evaluator.value, Evaluator, params, fixed9)
                             + StageText(cfg.classifier, Classifier, params, fixed9))
  {
    Regroup3(HeadText(cfg), StageText(cfg.searcher.value, Searcher, params, fixed9)
                            + StageText(cfg.evaluator.value, Evaluator, params, fixed9),
             StageText(cfg.classifier, Classifier, params, fixed9));
  }

  /** The decoding of a head and three rendered stages, whatever the head holds. */
  lemma DecodeThreeStages(h: seq<string>, seed: Int32, sc: Component, ec: Component, cc: Component,
                          params: map<string, string>, fixed9: string -> string,
                          preprocessors: seq<Component>, classifiers: seq<Component>)
    requires |h| == 3 && ParseInt(h[2]) == Some(seed)
    requires UniqueNames(preprocessors) && UniqueNames(classifiers)
    requires sc in preprocessors && ec in preprocessors && cc in classifiers && sc.name != "null"
    requires DistinctNames(sc.params) && DistinctNames(ec.params) && DistinctNames(cc.params)
    requires StageReady(sc.params, Searcher, params) && StageReady(ec.params, Evaluator, params)
    requires StageReady(cc.params, Classifier, params)
    ensures var sText, eText, cText :=
              StageText(sc, Searcher, params, fixed9), StageText(ec, Evaluator, params, fixed9), StageText(cc, Classifier, params, fixed9);
            Decode(h + (sText + eText + cText), preprocessors, classifiers) ==
              Ok(Decoded(h[0], h[1], seed,
                         Some(sc), RenderedMap(sc.params, Searcher, params, fixed9),
                         Some(ec), RenderedMap(ec.params, Evaluator, params, fixed9),
                         Some(cc), RenderedMap(cc.params, Classifier, params, fixed9)))
  {
    PreprocessorStagesAt(h, sc, ec, StageText(cc, Classifier, params, fixed9), params, fixed9, preprocessors);
    ClassifierStageAt(h, StageText(sc, Searcher, params, fixed9) + StageText(ec, Evaluator, params, fixed9),
                      cc, params, fixed9, classifiers);
    DecodeSearcherSteps(h, StageText(sc, Searcher, params, fixed9) + StageText(ec, Evaluator, params, fixed9)
                           + StageText(cc, Classifier, params, fixed9),
                        preprocessors, classifiers, seed,
                        Stage(3 + |StageText(sc, Searcher, params, fixed9)|, Some(sc), RenderedMap(sc.params, Searcher, params, fixed9)),
                        Stage(3 + |StageText(sc, Searcher, params, fixed9) + StageText(ec, Evaluator, params, fixed9)|,
                              Some(ec), RenderedMap(ec.params, Evaluator, params, fixed9)),
                        Stage(3 + |StageText(sc, Searcher, params, fixed9) + StageText(ec, Evaluator, params, fixed9)|
                                + |StageText(cc, Classifier, params, fixed9)|,
                              Some(cc), RenderedMap(cc.params, Classifier, params, fixed9)));
  }

  /** The classifier's stage after a head and the preprocessor stages. */
  lemma ClassifierStageAt(h: seq<string>, pre: seq<string>, cc: Component,
                          params: map<string, string>, fixed9: string -> string, classifiers: seq<Component>)
    requires UniqueNames(classifiers) && cc in classifiers
    requires DistinctNames(cc.params) && StageReady(cc.params, Classifier, params)
    ensures var cText := StageText(cc, Classifier, params, fixed9);
            ReadStage(h + (pre + cText), |h| + |pre|, classifiers) ==
              Ok(Stage(|h| + |pre| + |cText|, Some(cc), RenderedMap(cc.params, Classifier, params, fixed9)))
  {
    StageAt(h + pre, cc, [], classifiers, Classifier, params, fixed9);
    Regroup3(h, pre, StageText(cc, Classifier, params, fixed9));
  }

  /** The searcher's and the evaluator's stages after a three-argument head
      are read back by ReadPreprocessor. */
  lemma PreprocessorStagesAt(h: seq<string>, sc: Component, ec: Component, rest: seq<string>,
                             params: map<string, string>, fixed9: string -> string, preprocessors: seq<Component>)
    requires |h| == 3
    requires UniqueNames(preprocessors) && sc in preprocessors && ec in preprocessors && sc.name != "null"
    requires DistinctNames(sc.params) && DistinctNames(ec.params)
    requires StageReady(sc.params, Searcher, params) && StageReady(ec.params, Evaluator, params)
    ensures var sText, eText := StageText(sc, Searcher, params, fixed9), StageText(ec, Evaluator, params, fixed9);
            && (sText + eText + rest)[0] == sc.name
            && ReadPreprocessor(h + (sText + eText + rest), preprocessors) ==
                 Ok((Stage(3 + |sText|, Some(sc), RenderedMap(sc.params, Searcher, params, fixed9)),
                     Stage(3 + |sText + eText|, Some(ec), RenderedMap(ec.params, Evaluator, params, fixed9))))
  {
    var sText := StageText(sc, Searcher, params, fixed9);
    var eText := StageText(ec, Evaluator, params, fixed9);
    FirstStageAt(h, sc, eText, rest, preprocessors, Searcher, params, fixed9);
    SecondStageAt(h, sText, ec, rest, preprocessors, Evaluator, params, fixed9);
    assert (sText + eText + rest)[0] == sText[0];
    ReadPreprocessorSteps(h + (sText + eText + rest), preprocessors,
                          Stage(3 + |sText|, Some(sc), RenderedMap(sc.params, Searcher, params, fixed9)),
                          Stage(3 + |sText + eText|, Some(ec), RenderedMap(ec.params, Evaluator, params, fixed9)));
  }

  /** A rendered stage right after the head. */
  lemma FirstStageAt(h: seq<string>, comp: Component, b: seq<string>, rest: seq<string>, catalog: seq<Component>,
                     t: ParamType, params: map<string, string>, fixed9: string -> string)
    requires UniqueNames(catalog) && comp in catalog
    requires DistinctNames(comp.params) && StageReady(comp.params, t, params)
    ensures var text := StageText(comp, t, params, fixed9);
            ReadStage(h + (text + b + rest), |h|, catalog) ==
              Ok(Stage(|h| + |text|, Some(comp), RenderedMap(comp.params, t, params, fixed9)))
  {
    var text := StageText(comp, t, params, fixed9);
    StageAt(h, comp, b + rest, catalog, t, params, fixed9);
    assert h + (text + b + rest) == h + text + (b + rest);
  }

  /** A rendered stage after the head and one more stretch of arguments. */
  lemma SecondStageAt(h: seq<string>, a: seq<string>, comp: Component, rest: seq<string>, catalog: seq<Component>,
                      t: ParamType, params: map<string, string>, fixed9: string -> string)
    requires UniqueNames(catalog) && comp in catalog
    requires DistinctNames(comp.params) && StageReady(comp.params, t, params)
    ensures var text := StageText(comp, t, params, fixed9);
            ReadStage(h + (a + text + rest), |h| + |a|, catalog) ==
              Ok(Stage(|h| + |a + text|, Some(comp), RenderedMap(comp.params, t, params, fixed9)))
  {
    var text := StageText(comp, t, params, fixed9);
    StageAt(h + a, comp, rest, catalog, t, params, fixed9);
    assert h + (a + text + rest) == h + a + text + rest;
  }

  /** The evaluator process the wrapper launches, given the vector after
      `java -jar <jar>`, writes to the run's result file the loss of the
      decoded pipeline, or the sentinel. */
  lemma EvaluatorWritesResult(cfg: Config, params: map<string, string>, fixed9: string -> string,
                              preprocessors: seq<Component>, classifiers: seq<Component>,
                              evaluate: (string, Int32, ComponentInstance) -> Option<real>)
    requires cfg.Valid() && NamesDistinctPerComponent(cfg)
    requires Resolvable(cfg, preprocessors, classifiers)
    requires Ready(cfg, params)
    ensures EvalArgs(InvocationArgs(cfg), params, fixed9).Some?
    ensures var vector := EvalArgs(InvocationArgs(cfg), params, fixed9).value;
            var out := Main(vector[3..], preprocessors, classifiers, evaluate);
            var d := Expected(cfg, params, fixed9);
            && out.Some? && out.value.path == ResultFilePath(cfg)
            && out.value.loss == evaluate(DatasetPath(cfg), cfg.seed, PipelineOf(d)).GetOr(SENTINEL_LOSS)
  {
    EvalInvocationArgs(cfg, params, fixed9);
    var jvm := ["java", "-jar", cfg.environment + "/PipelineEvaluator.jar"];
    assert (jvm + EvaluatedArgs(cfg, params, fixed9))[3..] == EvaluatedArgs(cfg, params, fixed9);
    InvocationRoundTrip(cfg, params, fixed9, preprocessors, classifiers);
  }
}
