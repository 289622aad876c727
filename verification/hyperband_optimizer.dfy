/** HyperbandOptimizer.java: the search space and evaluator invocation it
    renders for the Python Hyperband driver, the names of the files of one
    run, and the decoding of the best trial into per-stage settings. */
module HyperbandOptimizer {
  import opened Wrappers
  import opened JavaText
  import opened Components
  import opened Util
  import opened Optimizer

  // ---------------------------------------------------------------------------
  // Draw rules

  /** What one `get_params` entry draws from: `np.random.choice(range(low,
      high, 1))`, `np.random.uniform(low, high)` or `np.random.choice([...])`. */
  datatype DrawRule =
    | IntRange(low: int, highExclusive: int)
    | Uniform(from: real, to: real)
    | OneOf(options: seq<string>)

  /** A value the Python driver can put into a trial. */
  datatype Value = IntValue(i: int) | RealValue(x: real) | TextValue(s: string)

  /** The values a draw rule can produce: `range` excludes its upper end, and
      so does `np.random.uniform`. */
  predicate Draws(rule: DrawRule, v: Value)
  {
    match rule
    case IntRange(low, high) => v.IntValue? && low <= v.i < high
    case Uniform(from, to) => v.RealValue? && from <= v.x < to
    case OneOf(options) => v.TextValue? && v.s in options
  }

  /** The values a catalog domain admits, independently of any rendering:
      numeric bounds are inclusive, booleans are the two lower-case literals. */
  predicate InDomain(d: Domain, v: Value)
  {
    match d
    case Numeric(min, max, isInteger) =>
      if isInteger then v.IntValue? && min <= v.i as real <= max
      else v.RealValue? && min <= v.x <= max
    case Boolean => v == TextValue("true") || v == TextValue("false")
    case Categorical(values) => v.TextValue? && v.s in values
  }

  /** The rule `getSpaceEntryByDomain` renders for a domain, with the integer
      upper bound `(int)max + 1` computed without wrap-around. */
  function DrawRuleFor(d: Domain): (r: DrawRule)
    ensures d.Numeric? && d.isInteger ==>
      forall n: int :: Draws(r, IntValue(n)) <==> DoubleToInt(d.min) <= n <= DoubleToInt(d.max)
    ensures d.Numeric? && !d.isInteger ==>
      forall x: real :: Draws(r, RealValue(x)) <==> d.min <= x < d.max
    ensures d.Boolean? ==> forall s :: Draws(r, TextValue(s)) <==> s == "true" || s == "false"
    ensures d.Categorical? ==> forall s :: Draws(r, TextValue(s)) <==> s in d.values
    ensures forall v :: Draws(r, v) ==>
      (v.IntValue? <==> d.Numeric? && d.isInteger) && (v.RealValue? <==> d.Numeric? && !d.isInteger)
  {
    match d
    case Numeric(min, max, isInteger) =>
      if isInteger then IntRange(DoubleToInt(min), DoubleToInt(max) + 1)
      else Uniform(min, max)
    case Boolean => OneOf(["true", "false"])
    case Categorical(values) => OneOf(values)
  }

  /** The rule as the Java code computes it: `(int)max + 1` is an `int`
      addition and wraps around at `Integer.MAX_VALUE`. */
  function DrawRuleAsWritten(d: Domain): (r: DrawRule)
    ensures d.Numeric? && d.isInteger ==>
      && r.IntRange? && r.low == DoubleToInt(d.min)
      && (DoubleToInt(d.max) < INT_MAX ==> r.highExclusive == DoubleToInt(d.max) + 1)
      && (DoubleToInt(d.max) == INT_MAX ==> r.highExclusive == INT_MIN)
    ensures !(d.Numeric? && d.isInteger) ==> r == DrawRuleFor(d)
  {
    if d.Numeric? && d.isInteger then IntRange(DoubleToInt(d.min), Wrap32(DoubleToInt(d.max) + 1))
    else DrawRuleFor(d)
  }

  /** A double holding a whole number within the `int` range. */
  predicate IntegralInt32(x: real)
  {
    x.Floor as real == x && INT_MIN as real <= x <= INT_MAX as real
  }

  lemma DoubleToIntOfIntegral(x: real)
    requires IntegralInt32(x)
    ensures DoubleToInt(x) as real == x
  {
    var n := x.Floor;
    if x < 0.0 {
      FloorIs(-n, -x);
    }
  }

  /** An integer domain with whole-number bounds draws exactly the integers
      of the closed interval [min, max]. */
  lemma IntegerDomainDrawsInclusiveRange(min: real, max: real, n: int)
    requires IntegralInt32(min) && IntegralInt32(max)
    ensures Draws(DrawRuleFor(Numeric(min, max, true)), IntValue(n)) <==> min <= n as real <= max
  {
    DoubleToIntOfIntegral(min);
    DoubleToIntOfIntegral(max);
  }

  /** Every drawn value lies in the domain (integer domains need whole-number
      bounds); boolean, categorical and integer domains are drawn from in full. */
  lemma DrawsMatchDomain(d: Domain, v: Value)
    requires d.Numeric? && d.isInteger ==> IntegralInt32(d.min) && IntegralInt32(d.max)
    ensures Draws(DrawRuleFor(d), v) ==> InDomain(d, v)
    ensures !(d.Numeric? && !d.isInteger) ==> (InDomain(d, v) ==> Draws(DrawRuleFor(d), v))
  {
    if d.Numeric? && d.isInteger && v.IntValue? {
      IntegerDomainDrawsInclusiveRange(d.min, d.max, v.i);
    }
  }

  /** Below `Integer.MAX_VALUE` the wrap-around never happens. */
  lemma AsWrittenAgreesBelowIntMax(d: Domain)
    requires d.Numeric? && d.isInteger ==> DoubleToInt(d.max) < INT_MAX
    ensures DrawRuleAsWritten(d) == DrawRuleFor(d)
  {
  }

  /** An integer domain whose maximum is `Integer.MAX_VALUE` renders
      `range(0, -2147483648, 1)`: it draws nothing, although 0 is admitted. */
  lemma AsWrittenDrawsNothingAtIntMax()
    ensures var d := Numeric(0.0, 2147483647.0, true);
            InDomain(d, IntValue(0)) && forall v :: !Draws(DrawRuleAsWritten(d), v)
  {
    var d := Numeric(0.0, 2147483647.0, true);
    FloorIs(0, 0.0);
    FloorIs(INT_MAX, 2147483647.0);
    assert DoubleToInt(d.max) == INT_MAX;
    assert Wrap32(INT_MAX + 1) == INT_MIN;
  }

  // ---------------------------------------------------------------------------
  // Search-space text

  /** The categorical option list: each value in single quotes, separated by
      commas, no trailing comma. */
  function QuotedList(values: seq<string>): string
  {
    if |values| == 0 then ""
    else if |values| == 1 then "'" + values[0] + "'"
    else "'" + values[0] + "'," + QuotedList(values[1..])
  }

  /** Reads a quoted list back: the Python list literal's items. */
  function ParseQuotedList(s: string): Option<seq<string>>
  {
    if |s| == 0 then Some([]) else ParseItems(s)
  }

  /** One or more quoted items separated by commas. An item holding a
      backslash or a line break is refused: Python would read an escape
      sequence or fail, not return the item as written. */
  function ParseItems(s: string): Option<seq<string>>
    decreases |s|
  {
    if |s| == 0 || s[0] != '\'' then None
    else
      var body := s[1..];
      var k := IndexOf(body, '\'');
      if k == |body| || !PythonPlain(body[..k], '\'') then None
      else
        var item := body[..k];
        var rest := body[k + 1..];
        if |rest| == 0 then Some([item])
        else if rest[0] != ',' then None
        else match ParseItems(rest[1..])
          case None => None
          case Some(items) => Some([item] + items)
  }

  /** Text a Python string literal delimited by `quote` holds verbatim: no
      backslash to start an escape sequence, no closing quote, no line break. */
  predicate PythonPlain(s: string, quote: char)
  {
    '\\' !in s && quote !in s && '\n' !in s && '\r' !in s
  }

  /** The option list lists exactly the domain's values, in order, as long as
      every value is plain inside single quotes. */
  lemma QuotedListRoundTrip(values: seq<string>)
    requires forall v :: v in values ==> PythonPlain(v, '\'')
    ensures ParseQuotedList(QuotedList(values)) == Some(values)
  {
    if |values| > 0 {
      QuotedItemsRoundTrip(values);
    }
  }

  lemma {:induction false} QuotedItemsRoundTrip(values: seq<string>)
    requires |values| > 0
    requires forall v :: v in values ==> PythonPlain(v, '\'')
    ensures ParseItems(QuotedList(values)) == Some(values)
  {
    var v := values[0];
    assert v in values;
    if |values| == 1 {
      ParseLastItem(v);
      assert values == [v];
    } else {
      assert forall w :: w in values[1..] ==> w in values;
      QuotedItemsRoundTrip(values[1..]);
      ParseFirstItem(v, QuotedList(values[1..]), values[1..]);
      assert [v] + values[1..] == values;
    }
  }

  /** Parsing a last quoted item. */
  lemma ParseLastItem(v: string)
    requires PythonPlain(v, '\'')
    ensures ParseItems("'" + v + "'") == Some([v])
  {
    var s := "'" + v + "'";
    var body := s[1..];
    assert body == v + ['\''] + [];
    IndexOfAfterPrefix(v, '\'', []);
    assert body[..|v|] == v;
  }

  /** Parsing one quoted item, a comma and the items of `rest`. */
  lemma ParseFirstItem(v: string, rest: string, items: seq<string>)
    requires PythonPlain(v, '\'') && ParseItems(rest) == Some(items)
    ensures ParseItems("'" + v + "'," + rest) == Some([v] + items)
  {
    var s := "'" + v + "'," + rest;
    var tail := "," + rest;
    var body := s[1..];
    assert body == v + ['\''] + tail;
    IndexOfAfterPrefix(v, '\'', tail);
    assert body[..|v|] == v;
    assert body[|v| + 1..] == tail;
    assert tail[1..] == rest;
    ParseItemsStep(s, v, tail, items);
  }

  /** One step of the item parser: a quoted item, a comma, and items that parse. */
  lemma ParseItemsStep(s: string, item: string, after: string, items: seq<string>)
    requires |s| > 0 && s[0] == '\''
    requires IndexOf(s[1..], '\'') == |item| < |s| - 1 && PythonPlain(item, '\'')
    requires s[1..][..|item|] == item && s[1..][|item| + 1..] == after
    requires |after| > 0 && after[0] == ',' && ParseItems(after[1..]) == Some(items)
    ensures ParseItems(s) == Some([item] + items)
  {
  }

  /** One `get_params` dictionary entry, keyed by the parameter's unique name. */
  function SpaceEntryText(m: MergedParameter, fixed6: real -> string): (r: string)
    ensures var key := "'" + UniqueParamName(m) + "': np.random.";
            |key| <= |r| && r[..|key|] == key
  {
    var key := "'" + UniqueParamName(m) + "': np.random.";
    var r := key + DrawCall(m.param.domain, fixed6);
    assert r[..|key|] == key;
    r
  }

  /** The numpy call an entry draws with. */
  function DrawCall(d: Domain, fixed6: real -> string): string
  {
    match d
    case Numeric(min, max, isInteger) =>
      if isInteger then
        var rule := DrawRuleAsWritten(d);
        "choice(range(" + IntToString(rule.low) + ", " + IntToString(rule.highExclusive) + ", 1))"
      else "uniform(" + fixed6(min) + ", " + fixed6(max) + ")"
    case Boolean => "choice(['true', 'false'])"
    case Categorical(values) => "choice( [" + QuotedList(values) + "])"
  }

  /** What Python reads back from the draw call: an integer range whose
      bounds are the numbers of the rule as written, or a categorical option
      list of exactly the domain's values when they are plain text. */
  lemma DrawCallReadsBack(d: Domain, fixed6: real -> string)
    ensures d.Numeric? && d.isInteger ==>
      exists lo, hi :: DrawCall(d, fixed6) == "choice(range(" + lo + ", " + hi + ", 1))"
                    && ParseInt(lo) == Some(DrawRuleAsWritten(d).low)
                    && ParseInt(hi) == Some(DrawRuleAsWritten(d).highExclusive)
    ensures d.Categorical? && (forall v :: v in d.values ==> PythonPlain(v, '\'')) ==>
      exists items :: DrawCall(d, fixed6) == "choice( [" + items + "])" && ParseQuotedList(items) == Some(d.values)
  {
    if d.Numeric? && d.isInteger {
      var rule := DrawRuleAsWritten(d);
      ParseIntInvertsIntToString(rule.low);
      ParseIntInvertsIntToString(rule.highExclusive);
      assert DrawCall(d, fixed6) == "choice(range(" + IntToString(rule.low) + ", " + IntToString(rule.highExclusive) + ", 1))";
    } else if d.Categorical? && (forall v :: v in d.values ==> PythonPlain(v, '\'')) {
      QuotedListRoundTrip(d.values);
      assert DrawCall(d, fixed6) == "choice( [" + QuotedList(d.values) + "])";
    }
  }

  /** The keys of the `params` dictionary `get_params` returns. */
  function SpaceKeys(cfg: Config): set<string>
    requires cfg.Valid()
  {
    MergedKeys(ParameterList(cfg))
  }

  /** The unique names of a list of merged parameters. */
  function MergedKeys(ms: seq<MergedParameter>): set<string>
  {
    set m | m in ms :: UniqueParamName(m)
  }

  lemma MergedKeysAppend(a: seq<MergedParameter>, b: seq<MergedParameter>)
    ensures MergedKeys(a + b) == MergedKeys(a) + MergedKeys(b)
  {
    assert forall m :: m in a + b <==> m in a || m in b;
  }

  // ---------------------------------------------------------------------------
  // Evaluator invocation

  /** One element of the Python `call([...])` list: a string literal, a value
      of the trial's `params` passed through `str(...)`, or one formatted by
      `"{:.9f}".format(...)`. */
  datatype ArgExpr = Literal(text: string) | StrOf(key: string) | Fixed9Of(key: string)

  /** `createDomainWrapper` applied to `params['key']`: real domains are
      formatted with nine decimals, every other domain goes through `str`. */
  function Wrapped(key: string, d: Domain): ArgExpr
  {
    if d.Numeric? && !d.isInteger then Fixed9Of(key) else StrOf(key)
  }

  /** `generateParamList` as expressions: per parameter in component order,
      its bare name and its wrapped value under the stage's unique name. */
  function ParamArgs(ps: seq<Parameter>, t: ParamType): (r: seq<ArgExpr>)
    ensures |r| == 2 * |ps|
  {
    if |ps| == 0 then []
    else [Literal(ps[0].name), Wrapped(ConvertToUniqueParamName(ps[0].name, t), ps[0].domain)] + ParamArgs(ps[1..], t)
  }

  /** The j-th parameter contributes the (2j)-th and (2j+1)-th expressions:
      its bare name, then its wrapped value. */
  lemma {:induction false} ParamArgsAt(ps: seq<Parameter>, t: ParamType, j: nat)
    requires j < |ps|
    ensures ParamArgs(ps, t)[2 * j] == Literal(ps[j].name)
    ensures ParamArgs(ps, t)[2 * j + 1] == Wrapped(ConvertToUniqueParamName(ps[j].name, t), ps[j].domain)
    decreases j
  {
    var pair := [Literal(ps[0].name), Wrapped(ConvertToUniqueParamName(ps[0].name, t), ps[0].domain)];
    assert ParamArgs(ps, t) == pair + ParamArgs(ps[1..], t);
    if j > 0 {
      ParamArgsAt(ps[1..], t, j - 1);
      assert ps[1..][j - 1] == ps[j];
      PastPair(pair, ParamArgs(ps[1..], t), j);
    } else {
      assert ParamArgs(ps, t)[0] == pair[0] && ParamArgs(ps, t)[1] == pair[1];
    }
  }

  /** Past a leading pair, the j-th pair of a sequence of pairs is the
      (j-1)-th pair of the rest. */
  lemma PastPair<T>(pair: seq<T>, rest: seq<T>, j: nat)
    requires |pair| == 2 && 1 <= j && 2 * j + 1 < |rest| + 2
    ensures (pair + rest)[2 * j] == rest[2 * (j - 1)]
    ensures (pair + rest)[2 * j + 1] == rest[2 * (j - 1) + 1]
  {
  }

  /** One stage's part of the argument list: the component's name, then its pairs. */
  function StageArgs(c: Component, t: ParamType): (r: seq<ArgExpr>)
    ensures |r| == 1 + 2 * |c.params|
  {
    [Literal(c.name)] + ParamArgs(c.params, t)
  }

  /** `createDomainWrapper` as text. */
  function CreateDomainWrapper(input: string, d: Domain): string
  {
    if d.Numeric? && !d.isInteger then "\"{:.9f}\".format(" + input + ")" else "str(" + input + ")"
  }

  /** The Python expression reading `key` from the trial's `params`. */
  function ParamsEntry(key: string): string
  {
    "params['" + key + "']"
  }

  /** `generateParamList` as the text the Java code writes. */
  function GenerateParamList(ps: seq<Parameter>, t: ParamType): string
  {
    if |ps| == 0 then ""
    else
      "\"" + ps[0].name + "\", "
      + CreateDomainWrapper(ParamsEntry(ConvertToUniqueParamName(ps[0].name, t)), ps[0].domain) + ","
      + GenerateParamList(ps[1..], t)
  }

  /** The Python source text of one list element, with its trailing comma. */
  function RenderArg(e: ArgExpr): string
  {
    match e
    case Literal(text) => "\"" + text + "\", "
    case StrOf(key) => "str(" + ParamsEntry(key) + ")" + ","
    case Fixed9Of(key) => "\"{:.9f}\".format(" + ParamsEntry(key) + ")" + ","
  }

  function RenderArgs(es: seq<ArgExpr>): string
  {
    if |es| == 0 then "" else RenderArg(es[0]) + RenderArgs(es[1..])
  }

  /** The text `generateParamList` writes is exactly the list of expressions
      `ParamArgs` describes. */
  lemma {:induction false} ParamListRendersArgs(ps: seq<Parameter>, t: ParamType)
    ensures GenerateParamList(ps, t) == RenderArgs(ParamArgs(ps, t))
  {
    if |ps| > 0 {
      var p := ps[0];
      var key := ConvertToUniqueParamName(p.name, t);
      var rest := ParamArgs(ps[1..], t);
      assert ParamArgs(ps, t) == [Literal(p.name), Wrapped(key, p.domain)] + rest;
      ParamListRendersArgs(ps[1..], t);
      WrapperRendersArg(key, p.domain);
      RenderArgsPair(Literal(p.name), Wrapped(key, p.domain), rest);
      Assoc3(RenderArg(Literal(p.name)), CreateDomainWrapper(ParamsEntry(key), p.domain), ",");
    }
  }

  lemma Assoc3<T>(a: seq<T>, b: seq<T>, c: seq<T>)
    ensures a + b + c == a + (b + c)
  {
  }

  lemma RenderArgsPair(x: ArgExpr, y: ArgExpr, rest: seq<ArgExpr>)
    ensures RenderArgs([x, y] + rest) == RenderArg(x) + RenderArg(y) + RenderArgs(rest)
  {
    var es := [x, y] + rest;
    var tail := [y] + rest;
    assert es[0] == x && es[1..] == tail;
    assert tail[0] == y && tail[1..] == rest;
    assert RenderArgs(tail) == RenderArg(y) + RenderArgs(rest);
    Assoc3(RenderArg(x), RenderArg(y), RenderArgs(rest));
  }

  lemma WrapperRendersArg(key: string, d: Domain)
    ensures RenderArg(Wrapped(key, d)) == CreateDomainWrapper(ParamsEntry(key), d) + ","
  {
  }

  /** The stored name of a Hyperband run: the shared run identifier with
      `Hyperband` appended. */
  function FileName(cfg: Config): (r: string)
    requires cfg.Valid()
    ensures NoDotOrDash(r)
  {
    BuildFileNameSuffixed(cfg, "Hyperband");
    BuildFileName(cfg) + "Hyperband"
  }

  /** The file the evaluator writes its loss to and the wrapper reads back. */
  function ResultFilePath(cfg: Config): string
    requires cfg.Valid()
  {
    cfg.environment + "/results/" + FileName(cfg) + ".txt"
  }

  function DatasetPath(cfg: Config): string
  {
    cfg.dataSetFolder + "/" + cfg.dataSet + ".arff"
  }

  /** The trial log the driver writes and `createFinalInstances` reads. */
  function TrialLogPath(cfg: Config): string
    requires cfg.Valid()
  {
    cfg.environment + "/hyperband-output/" + FileName(cfg) + ".json"
  }

  function MainScriptPath(cfg: Config): string
    requires cfg.Valid()
  {
    cfg.environment + "/optimizer/hyperband/main_" + FileName(cfg) + ".py"
  }

  function WrapperScriptPath(cfg: Config): string
    requires cfg.Valid()
  {
    cfg.environment + "/optimizer/hyperband/" + "generated/wrapper_" + FileName(cfg) + ".py"
  }

  /** The arguments `try_params` passes to `PipelineEvaluator.jar`: result
      file, dataset, seed, then the searcher's name and pairs, the evaluator's
      name and pairs, the classifier's name and pairs; without a searcher the
      single literal "null" stands for the first four. */
  function EvaluatorArgs(cfg: Config): (r: seq<ArgExpr>)
    requires cfg.Valid()
    ensures |r| == 5 + 2 * |ParameterList(cfg)| + (if cfg.searcher.Some? then 1 else 0)
    ensures r[..3] == HeadArgs(cfg)
    ensures r[3] == Literal(if cfg.searcher.Some? then cfg.searcher.value.name else "null")
  {
    var r := HeadArgs(cfg) + PreprocessorArgs(cfg) + StageArgs(cfg.classifier, Classifier);
    assert r[3] == PreprocessorArgs(cfg)[0];
    r
  }

  /** Result file, dataset and seed. */
  function HeadArgs(cfg: Config): (r: seq<ArgExpr>)
    requires cfg.Valid()
    ensures |r| == 3
  {
    [Literal(ResultFilePath(cfg)), Literal(DatasetPath(cfg)), Literal(IntToString(cfg.seed))]
  }

  /** The searcher's name and pairs and the evaluator's name and pairs, or the
      literal "null" alone. */
  function PreprocessorArgs(cfg: Config): (r: seq<ArgExpr>)
    requires cfg.Valid()
    ensures |r| == if cfg.searcher.Some? then 2 + 2 * (|cfg.searcher.value.params| + |cfg.evaluator.value.params|) else 1
    ensures r[0] == Literal(if cfg.searcher.Some? then cfg.searcher.value.name else "null")
  {
    if cfg.searcher.Some? then StageArgs(cfg.searcher.value, Searcher) + StageArgs(cfg.evaluator.value, Evaluator)
    else [Literal("null")]
  }

  /** The whole `call([...])` list: the JVM launch, then the evaluator's arguments. */
  function InvocationArgs(cfg: Config): (r: seq<ArgExpr>)
    requires cfg.Valid()
    ensures |r| == 3 + |EvaluatorArgs(cfg)|
    ensures r[..3] == [Literal("java"), Literal("-jar"), Literal(cfg.environment + "/PipelineEvaluator.jar")]
    ensures r[3..] == EvaluatorArgs(cfg)
  {
    [Literal("java"), Literal("-jar"), Literal(cfg.environment + "/PipelineEvaluator.jar")] + EvaluatorArgs(cfg)
  }

  /** Python's evaluation of one list element against a trial's `params`.
      A string literal (in double quotes, and the key in `params['...']` in
      single quotes) stands for its text only when that text is plain; other
      text would be read as an escape sequence or break the script, and the
      model gives None for it, as for the `KeyError` of a missing key.
      `fixed9` is Python's nine-decimal rendering of the float a value denotes. */
  function EvalArg(e: ArgExpr, params: map<string, string>, fixed9: string -> string): (r: Option<string>)
    ensures e.Literal? ==> (r.Some? <==> PythonPlain(e.text, '"'))
    ensures !e.Literal? ==> (r.Some? <==> PythonPlain(e.key, '\'') && e.key in params)
    ensures r.Some? && e.StrOf? ==> r.value == params[e.key]
  {
    match e
    case Literal(text) => if PythonPlain(text, '"') then Some(text) else None
    case StrOf(key) => if PythonPlain(key, '\'') && key in params then Some(params[key]) else None
    case Fixed9Of(key) => if PythonPlain(key, '\'') && key in params then Some(fixed9(params[key])) else None
  }

  /** The argument vector the evaluator receives, element by element. */
  function EvalArgs(es: seq<ArgExpr>, params: map<string, string>, fixed9: string -> string): (r: Option<seq<string>>)
    ensures r.Some? <==> forall i :: 0 <= i < |es| ==> EvalArg(es[i], params, fixed9).Some?
    ensures r.Some? ==> |r.value| == |es|
    ensures r.Some? ==> forall i :: 0 <= i < |es| ==> r.value[i] == EvalArg(es[i], params, fixed9).value
  {
    if |es| == 0 then Some([])
    else
      match EvalArg(es[0], params, fixed9)
      case None => None
      case Some(v) =>
        match EvalArgs(es[1..], params, fixed9)
        case None => None
        case Some(vs) => Some([v] + vs)
  }

  /** The trial keys an argument list reads. */
  function ArgKeys(es: seq<ArgExpr>): set<string>
  {
    set e | e in es && !e.Literal? :: e.key
  }

  /** The unique names of one component's parameters under one stage. */
  function StageKeys(ps: seq<Parameter>, t: ParamType): set<string>
  {
    set p | p in ps :: ConvertToUniqueParamName(p.name, t)
  }

  /** The pairs of one component read exactly its parameters' unique names. */
  lemma {:induction false} ParamArgsKeys(ps: seq<Parameter>, t: ParamType)
    ensures ArgKeys(ParamArgs(ps, t)) == StageKeys(ps, t)
  {
    if |ps| > 0 {
      var key := ConvertToUniqueParamName(ps[0].name, t);
      var pair := [Literal(ps[0].name), Wrapped(key, ps[0].domain)];
      assert ParamArgs(ps, t) == pair + ParamArgs(ps[1..], t);
      ArgKeysAppend(pair, ParamArgs(ps[1..], t));
      assert ArgKeys(pair) == {key};
      ParamArgsKeys(ps[1..], t);
      assert forall p :: p in ps <==> p == ps[0] || p in ps[1..];
      assert StageKeys(ps, t) == {key} + StageKeys(ps[1..], t);
    }
  }

  lemma ArgKeysAppend(a: seq<ArgExpr>, b: seq<ArgExpr>)
    ensures ArgKeys(a + b) == ArgKeys(a) + ArgKeys(b)
  {
    assert forall e :: e in a + b <==> e in a || e in b;
  }

  /** The unique names one component contributes to the search space. */
  lemma TaggedKeys(ps: seq<Parameter>, t: ParamType)
    ensures MergedKeys(Tagged(ps, t)) == StageKeys(ps, t)
  {
    var ms := Tagged(ps, t);
    forall p | p in ps
      ensures ConvertToUniqueParamName(p.name, t) in MergedKeys(ms)
    {
      var j :| 0 <= j < |ps| && ps[j] == p;
      assert ms[j] in ms;
    }
  }

  /** The search space is the union of the stages' unique names. */
  lemma SpaceKeysByStage(cfg: Config)
    requires cfg.Valid()
    ensures SpaceKeys(cfg) == PreprocessorKeys(cfg) + StageKeys(cfg.classifier.params, Classifier)
  {
    var c := cfg.classifier.params;
    TaggedKeys(c, Classifier);
    if cfg.searcher.Some? {
      var s := cfg.searcher.value.params;
      var e := cfg.evaluator.value.params;
      TaggedKeys(s, Searcher);
      TaggedKeys(e, Evaluator);
      MergedKeysAppend(Tagged(s, Searcher), Tagged(e, Evaluator));
      MergedKeysAppend(Tagged(s, Searcher) + Tagged(e, Evaluator), Tagged(c, Classifier));
    }
  }

  /** The searcher's and evaluator's unique names; none without a searcher. */
  function PreprocessorKeys(cfg: Config): set<string>
    requires cfg.Valid()
  {
    if cfg.searcher.Some? then
      StageKeys(cfg.searcher.value.params, Searcher) + StageKeys(cfg.evaluator.value.params, Evaluator)
    else {}
  }

  lemma StageArgsKeys(c: Component, t: ParamType)
    ensures ArgKeys(StageArgs(c, t)) == StageKeys(c.params, t)
  {
    ParamArgsKeys(c.params, t);
    ArgKeysAppend([Literal(c.name)], ParamArgs(c.params, t));
    LiteralsHaveNoKeys([Literal(c.name)]);
  }

  lemma PreprocessorArgsKeys(cfg: Config)
    requires cfg.Valid()
    ensures ArgKeys(PreprocessorArgs(cfg)) == PreprocessorKeys(cfg)
  {
    if cfg.searcher.Some? {
      StageArgsKeys(cfg.searcher.value, Searcher);
      StageArgsKeys(cfg.evaluator.value, Evaluator);
      ArgKeysAppend(StageArgs(cfg.searcher.value, Searcher), StageArgs(cfg.evaluator.value, Evaluator));
    } else {
      LiteralsHaveNoKeys(PreprocessorArgs(cfg));
    }
  }

  /** `try_params` passes every value `get_params` draws, and reads no other
      key of the trial. */
  lemma InvocationReadsSpaceKeys(cfg: Config)
    requires cfg.Valid()
    ensures ArgKeys(EvaluatorArgs(cfg)) == SpaceKeys(cfg)
  {
    var head, pre, cls := HeadArgs(cfg), PreprocessorArgs(cfg), StageArgs(cfg.classifier, Classifier);
    LiteralsHaveNoKeys(head);
    ArgKeysAppend(head, pre);
    ArgKeysAppend(head + pre, cls);
    PreprocessorArgsKeys(cfg);
    StageArgsKeys(cfg.classifier, Classifier);
    SpaceKeysByStage(cfg);
  }

  lemma LiteralsHaveNoKeys(es: seq<ArgExpr>)
    requires forall i :: 0 <= i < |es| ==> es[i].Literal?
    ensures ArgKeys(es) == {}
  {
  }

  // ---------------------------------------------------------------------------
  // Scripts

  /** The lines of `main_<name>.py`. */
  function MainScript(cfg: Config): seq<string>
    requires cfg.Valid()
  {
    [ "#!/usr/bin/env python",
      "from hyperband import Hyperband",
      "import json",
      "from " + ImportedModule(cfg) + " import get_params, try_params",
      "hb = Hyperband( get_params, try_params )",
      "results = hb.run(output_path=\"" + TrialLogPath(cfg) + "\", timeout=" + IntToString(cfg.maxRuntimeParam) + ")" ]
  }

  /** The file Python loads for a dotted module path, relative to the
      importing script's directory. */
  function ModuleFile(path: string): (r: string)
    ensures |r| == |path| + 3
    ensures forall i :: 0 <= i < |path| ==> r[i] == (if path[i] == '.' then '/' else path[i])
  {
    seq(|path|, i requires 0 <= i < |path| => if path[i] == '.' then '/' else path[i]) + ".py"
  }

  /** The module the main script imports `get_params` and `try_params` from. */
  function ImportedModule(cfg: Config): string
    requires cfg.Valid()
  {
    "generated.wrapper_" + FileName(cfg)
  }

  /** The main script's import names the wrapper file that was written, because
      the run name holds no '.'. */
  lemma WrapperModuleResolves(cfg: Config)
    requires cfg.Valid()
    ensures cfg.environment + "/optimizer/hyperband/" + ModuleFile(ImportedModule(cfg)) == WrapperScriptPath(cfg)
  {
    WrapperFileOf(FileName(cfg));
    Concat5(cfg.environment, "/optimizer/hyperband/", "generated/wrapper_", FileName(cfg), ".py");
  }

  /** The main script imports `get_params` and `try_params` from the wrapper
      file that was written, has the driver write the trial log that
      `createFinalInstances` reads, and passes the configured runtime. */
  lemma MainScriptRunsWrapper(cfg: Config)
    requires cfg.Valid()
    ensures |MainScript(cfg)| == 6
    ensures exists m :: MainScript(cfg)[3] == "from " + m + " import get_params, try_params"
                     && cfg.environment + "/optimizer/hyperband/" + ModuleFile(m) == WrapperScriptPath(cfg)
    ensures exists path, timeout :: MainScript(cfg)[5] == "results = hb.run(output_path=\"" + path + "\", timeout=" + timeout + ")"
                                 && path == TrialLogPath(cfg) && ParseInt(timeout) == Some(cfg.maxRuntimeParam)
  {
    WrapperModuleResolves(cfg);
    ParseIntInvertsIntToString(cfg.maxRuntimeParam);
    assert MainScript(cfg)[3] == "from " + ImportedModule(cfg) + " import get_params, try_params";
    assert MainScript(cfg)[5] == "results = hb.run(output_path=\"" + TrialLogPath(cfg) + "\", timeout="
                                 + IntToString(cfg.maxRuntimeParam) + ")";
  }

  lemma Concat5<T>(a: seq<T>, b: seq<T>, c: seq<T>, d: seq<T>, e: seq<T>)
    ensures a + b + (c + d + e) == a + b + c + d + e
  {
  }

  lemma WrapperFileOf(name: string)
    requires forall i :: 0 <= i < |name| ==> name[i] != '.'
    ensures ModuleFile("generated.wrapper_" + name) == "generated/wrapper_" + name + ".py"
  {
    var prefix := "generated.wrapper_";
    var dotted := prefix + name;
    var f := ModuleFile(dotted);
    var g := "generated/wrapper_" + name + ".py";
    forall i | 0 <= i < |f|
      ensures f[i] == g[i]
    {
      if i < |prefix| {
        assert dotted[i] == prefix[i];
      } else if i < |dotted| {
        assert dotted[i] == name[i - |prefix|];
      }
    }
  }

  /** The lines `generatePyWrapper` writes before `try_params`: the search space. */
  function GetParamsLines(cfg: Config, fixed6: real -> string): (r: seq<string>)
    requires cfg.Valid()
    ensures |r| == |ParameterList(cfg)| + 8
    ensures forall j :: 0 <= j < |ParameterList(cfg)| ==> r[6 + j] == "\t\t" + SpaceEntryText(ParameterList(cfg)[j], fixed6) + ","
  {
    var ms := ParameterList(cfg);
    [ "from common_defs import *", "import sys, math", "import random", "from subprocess import call",
      "def get_params():", "\tparams = {" ]
    + seq(|ms|, j requires 0 <= j < |ms| => "\t\t" + SpaceEntryText(ms[j], fixed6) + ",")
    + [ "\t}", "\treturn handle_integers( params )" ]
  }

  /** The key Python reads from a dictionary entry line: the text between the
      quote after the indentation and the next quote. */
  function EntryKey(line: string): (r: Option<string>)
    ensures r.Some? ==> '\'' !in r.value
  {
    if |line| < 3 || line[..3] != "\t\t'" then None
    else
      var body := line[3..];
      var k := IndexOf(body, '\'');
      IndexOfIsFirst(body, '\'');
      if k == |body| then None else Some(body[..k])
  }

  /** An entry line is keyed by its parameter's unique name. */
  lemma EntryLineKey(m: MergedParameter, fixed6: real -> string)
    requires '\'' !in UniqueParamName(m)
    ensures EntryKey("\t\t" + SpaceEntryText(m, fixed6) + ",") == Some(UniqueParamName(m))
  {
    var u := UniqueParamName(m);
    var rest := ": np.random." + DrawCall(m.param.domain, fixed6) + ",";
    assert "\t\t" + SpaceEntryText(m, fixed6) + "," == "\t\t'" + u + "'" + rest;
    EntryKeyOf(u, rest);
  }

  /** The key of a line that quotes a quote-free text after the indentation. */
  lemma EntryKeyOf(u: string, rest: string)
    requires '\'' !in u
    ensures EntryKey("\t\t'" + u + "'" + rest) == Some(u)
  {
    var line := "\t\t'" + u + "'" + rest;
    assert line[..3] == "\t\t'";
    assert line[3..] == u + ['\''] + rest;
    IndexOfAfterPrefix(u, '\'', rest);
    assert line[3..][..|u|] == u;
  }

  /** The dictionary entry lines of `get_params`, one per merged parameter. */
  function EntryLines(cfg: Config, fixed6: real -> string): (r: seq<string>)
    requires cfg.Valid()
    ensures |r| == |ParameterList(cfg)|
  {
    GetParamsLines(cfg, fixed6)[6..6 + |ParameterList(cfg)|]
  }

  /** Entry j of the dictionary is keyed by the j-th merged parameter's unique name. */
  lemma EntryLinesAt(cfg: Config, fixed6: real -> string, j: nat)
    requires cfg.Valid() && j < |ParameterList(cfg)|
    requires '\'' !in UniqueParamName(ParameterList(cfg)[j])
    ensures EntryKey(EntryLines(cfg, fixed6)[j]) == Some(UniqueParamName(ParameterList(cfg)[j]))
  {
    var m := ParameterList(cfg)[j];
    assert EntryLines(cfg, fixed6)[j] == GetParamsLines(cfg, fixed6)[6 + j];
    EntryLineKey(m, fixed6);
  }

  /** The dictionary `get_params` returns: entry j is keyed by the unique name
      of the j-th merged parameter, no two entries share a key when names are
      distinct per component, and the keys are exactly the search space's. */
  lemma GetParamsKeys(cfg: Config, fixed6: real -> string)
    requires cfg.Valid() && NamesDistinctPerComponent(cfg)
    requires forall m :: m in ParameterList(cfg) ==> '\'' !in UniqueParamName(m)
    ensures var es, ms := EntryLines(cfg, fixed6), ParameterList(cfg);
            forall j :: 0 <= j < |es| ==> EntryKey(es[j]) == Some(UniqueParamName(ms[j]))
    ensures var es := EntryLines(cfg, fixed6);
            forall i, j :: 0 <= i < j < |es| ==> EntryKey(es[i]) != EntryKey(es[j])
    ensures var es := EntryLines(cfg, fixed6);
            forall k :: k in SpaceKeys(cfg) <==> exists j :: 0 <= j < |es| && EntryKey(es[j]) == Some(k)
  {
    EntryKeysInOrder(cfg, fixed6);
    EntryKeysDistinct(cfg, EntryLines(cfg, fixed6));
    EntryKeysCover(cfg, EntryLines(cfg, fixed6));
  }

  /** Entries keyed by the merged list's unique names have distinct keys. */
  lemma EntryKeysDistinct(cfg: Config, es: seq<string>)
    requires cfg.Valid() && NamesDistinctPerComponent(cfg)
    requires |es| == |ParameterList(cfg)|
    requires forall j :: 0 <= j < |es| ==> EntryKey(es[j]) == Some(UniqueParamName(ParameterList(cfg)[j]))
    ensures forall i, j :: 0 <= i < j < |es| ==> EntryKey(es[i]) != EntryKey(es[j])
  {
    forall i, j | 0 <= i < j < |es|
      ensures EntryKey(es[i]) != EntryKey(es[j])
    {
      MergedNamesDistinct(cfg, i, j);
    }
  }

  /** Every key of the search space keys some entry, and no entry has another key. */
  lemma EntryKeysCover(cfg: Config, es: seq<string>)
    requires cfg.Valid()
    requires |es| == |ParameterList(cfg)|
    requires forall j :: 0 <= j < |es| ==> EntryKey(es[j]) == Some(UniqueParamName(ParameterList(cfg)[j]))
    ensures forall k :: k in SpaceKeys(cfg) <==> exists j :: 0 <= j < |es| && EntryKey(es[j]) == Some(k)
  {
    forall k | k in SpaceKeys(cfg)
      ensures exists j :: 0 <= j < |es| && EntryKey(es[j]) == Some(k)
    {
      SpaceKeyHasEntry(cfg, es, k);
    }
    var ms := ParameterList(cfg);
    forall k, j | 0 <= j < |es| && EntryKey(es[j]) == Some(k)
      ensures k in SpaceKeys(cfg)
    {
      assert ms[j] in ms && UniqueParamName(ms[j]) == k;
    }
  }

  lemma SpaceKeyHasEntry(cfg: Config, es: seq<string>, k: string)
    requires cfg.Valid()
    requires |es| == |ParameterList(cfg)|
    requires forall j :: 0 <= j < |es| ==> EntryKey(es[j]) == Some(UniqueParamName(ParameterList(cfg)[j]))
    requires k in SpaceKeys(cfg)
    ensures exists j :: 0 <= j < |es| && EntryKey(es[j]) == Some(k)
  {
    var ms := ParameterList(cfg);
    var m :| m in ms && UniqueParamName(m) == k;
    var j :| 0 <= j < |ms| && ms[j] == m;
    assert EntryKey(es[j]) == Some(k);
  }

  /** Every entry line is keyed by its merged parameter's unique name. */
  lemma EntryKeysInOrder(cfg: Config, fixed6: real -> string)
    requires cfg.Valid()
    requires forall m :: m in ParameterList(cfg) ==> '\'' !in UniqueParamName(m)
    ensures var es, ms := EntryLines(cfg, fixed6), ParameterList(cfg);
            forall j :: 0 <= j < |es| ==> EntryKey(es[j]) == Some(UniqueParamName(ms[j]))
  {
    forall j | 0 <= j < |ParameterList(cfg)|
      ensures EntryKey(EntryLines(cfg, fixed6)[j]) == Some(UniqueParamName(ParameterList(cfg)[j]))
    {
      EntryLinesAt(cfg, fixed6, j);
    }
  }

  // ---------------------------------------------------------------------------
  // Best trial

  /** One record of the trial log: its loss and its parameter values, each as
      the text `toString` gives for the JSON value. */
  datatype Trial = Trial(loss: real, params: map<string, string>)

  /** k is the first trial of minimal loss. */
  predicate IsFirstMinimum(trials: seq<Trial>, k: nat)
  {
    && k < |trials|
    && (forall j :: 0 <= j < |trials| ==> trials[k].loss <= trials[j].loss)
    && (forall j :: 0 <= j < k ==> trials[k].loss < trials[j].loss)
  }

  /** There is at most one first minimum. */
  lemma FirstMinimumUnique(trials: seq<Trial>, a: nat, b: nat)
    requires IsFirstMinimum(trials, a) && IsFirstMinimum(trials, b)
    ensures a == b
  {
    assert trials[a].loss <= trials[b].loss && trials[b].loss <= trials[a].loss;
  }

  /** The selection loop from index i on, `best` being the choice so far:
      a record replaces it only with a strictly smaller loss. */
  function BestFrom(trials: seq<Trial>, i: nat, best: Option<nat>): (r: Option<nat>)
    requires i <= |trials|
    requires best.None? <==> i == 0
    requires best.Some? ==> IsFirstMinimum(trials[..i], best.value)
    ensures r.None? <==> |trials| == 0
    ensures r.Some? ==> IsFirstMinimum(trials, r.value)
    decreases |trials| - i
  {
    if i == |trials| then
      assert trials[..i] == trials;
      best
    else
      var next :=
        if best.None? || trials[i].loss < trials[best.value].loss then Some(i) else best;
      assert trials[..i + 1][..i] == trials[..i];
      BestFrom(trials, i + 1, next)
  }

  /** The `bestResult` loop: None when the log holds no record. */
  function SelectBest(trials: seq<Trial>): (r: Option<nat>)
    ensures r.None? <==> |trials| == 0
    ensures r.Some? ==> IsFirstMinimum(trials, r.value)
  {
    BestFrom(trials, 0, None)
  }

  /** Among equal losses the earliest record wins. */
  lemma SelectBestExample()
    ensures SelectBest([Trial(0.3, map[]), Trial(0.1, map[]), Trial(0.5, map[]), Trial(0.1, map[])]) == Some(1)
  {
    var ts := [Trial(0.3, map[]), Trial(0.1, map[]), Trial(0.5, map[]), Trial(0.1, map[])];
    assert IsFirstMinimum(ts, 1);
    FirstMinimumUnique(ts, 1, SelectBest(ts).value);
  }

  // ---------------------------------------------------------------------------
  // Final instances

  /** What makes `createFinalInstances` throw: an empty log leaves
      `bestResult` null; a parameter without a value in the best record makes
      the map lookup fail. */
  datatype ResultError = NoTrials | MissingValue(key: string)

  /** The first parameter, in component order, whose unique name has no value. */
  function MissingKey(ps: seq<Parameter>, t: ParamType, params: map<string, string>): (r: Option<string>)
    ensures r.None? <==> forall p :: p in ps ==> ConvertToUniqueParamName(p.name, t) in params
    ensures r.Some? ==> exists j :: (0 <= j < |ps| && r.value == ConvertToUniqueParamName(ps[j].name, t)
      && r.value !in params && forall i :: 0 <= i < j ==> ConvertToUniqueParamName(ps[i].name, t) in params)
  {
    if |ps| == 0 then None
    else if ConvertToUniqueParamName(ps[0].name, t) !in params then Some(ConvertToUniqueParamName(ps[0].name, t))
    else
      var r := MissingKey(ps[1..], t, params);
      assert forall p :: p in ps <==> p == ps[0] || p in ps[1..];
      if r.Some? then
        var j :| 0 <= j < |ps[1..]| && r.value == ConvertToUniqueParamName(ps[1..][j].name, t)
          && r.value !in params && forall i :: 0 <= i < j ==> ConvertToUniqueParamName(ps[1..][i].name, t) in params;
        assert forall i :: 1 <= i < j + 1 ==> ps[i] == ps[1..][i - 1];
        assert ps[j + 1] == ps[1..][j];
        r
      else r
  }

  /** A stage's parameter map as `createFinalInstances` builds it: every bare
      name of the component, with the best record's value under its unique name. */
  predicate DecodedFrom(ps: seq<Parameter>, t: ParamType, params: map<string, string>, m: map<string, string>)
  {
    && m.Keys == NameSet(ps)
    && forall p :: p in ps ==> ConvertToUniqueParamName(p.name, t) in params && m[p.name] == params[ConvertToUniqueParamName(p.name, t)]
  }

  /** The per-component loop of `createFinalInstances`. */
  function DecodeStage(ps: seq<Parameter>, t: ParamType, params: map<string, string>): (r: Result<map<string, string>, ResultError>)
    ensures r.Ok? <==> forall p :: p in ps ==> ConvertToUniqueParamName(p.name, t) in params
    ensures r.Ok? ==> DecodedFrom(ps, t, params, r.value)
    ensures r.Err? ==> r.error == MissingValue(MissingKey(ps, t, params).value)
  {
    match MissingKey(ps, t, params)
    case Some(key) => Err(MissingValue(key))
    case None =>
      var m := map n | n in NameSet(ps) && ConvertToUniqueParamName(n, t) in params :: params[ConvertToUniqueParamName(n, t)];
      assert m.Keys == NameSet(ps);
      Ok(m)
  }

  /** `createFinalInstances`: picks the first record of minimal loss and reads
      each stage's values from it; the searcher and evaluator maps stay empty
      without a searcher. Values are taken as logged: no integer correction
      is applied. */
  function CreateFinalInstances(cfg: Config, trials: seq<Trial>): (r: Result<FinalInstances, ResultError>)
    requires cfg.Valid()
    ensures r.Err? && r.error == NoTrials <==> |trials| == 0
    ensures r.Ok? ==> exists b: nat :: IsFirstMinimum(trials, b) && StagesDecodedFrom(cfg, trials[b].params, r.value)
  {
    match SelectBest(trials)
    case None => Err(NoTrials)
    case Some(b) =>
      var params := trials[b].params;
      var searcherParameter :- if cfg.searcher.Some? then DecodeStage(cfg.searcher.value.params, Searcher, params) else Ok(map[]);
      var evaluatorParameter :- if cfg.searcher.Some? then DecodeStage(cfg.evaluator.value.params, Evaluator, params) else Ok(map[]);
      var classifierParameter :- DecodeStage(cfg.classifier.params, Classifier, params);
      Ok(FinalInstances(
        Leaf(cfg.searcher, searcherParameter),
        Leaf(cfg.evaluator, evaluatorParameter),
        Leaf(Some(cfg.classifier), classifierParameter)))
  }

  /** The three instances wrap the configured components, and their maps are
      decoded from the record's values (empty for searcher and evaluator when
      there is no searcher). */
  predicate StagesDecodedFrom(cfg: Config, params: map<string, string>, f: FinalInstances)
    requires cfg.Valid()
  {
    && f.searcher == Leaf(cfg.searcher, f.searcher.parameterValues)
    && f.evaluator == Leaf(cfg.evaluator, f.evaluator.parameterValues)
    && f.classifier == Leaf(Some(cfg.classifier), f.classifier.parameterValues)
    && (cfg.searcher.Some? ==> DecodedFrom(cfg.searcher.value.params, Searcher, params, f.searcher.parameterValues))
    && (cfg.searcher.Some? ==> DecodedFrom(cfg.evaluator.value.params, Evaluator, params, f.evaluator.parameterValues))
    && (cfg.searcher.None? ==> f.searcher.parameterValues == map[] && f.evaluator.parameterValues == map[])
    && DecodedFrom(cfg.classifier.params, Classifier, params, f.classifier.parameterValues)
  }

  /** A best record that holds a value for every key of the search space
      decodes; one that misses a key does not. */
  lemma DrawnTrialDecodes(cfg: Config, trials: seq<Trial>, b: nat)
    requires cfg.Valid()
    requires IsFirstMinimum(trials, b)
    ensures CreateFinalInstances(cfg, trials).Ok? <==> SpaceKeys(cfg) <= trials[b].params.Keys
  {
    FinalInstancesOk(cfg, trials, b);
    var params := trials[b].params;
    SpaceKeysByStage(cfg);
    StageKeysPresent(cfg.classifier.params, Classifier, params);
    if cfg.searcher.Some? {
      StageKeysPresent(cfg.searcher.value.params, Searcher, params);
      StageKeysPresent(cfg.evaluator.value.params, Evaluator, params);
    }
  }

  /** `createFinalInstances` succeeds exactly when every configured stage
      decodes from the first minimal record. */
  lemma FinalInstancesOk(cfg: Config, trials: seq<Trial>, b: nat)
    requires cfg.Valid() && IsFirstMinimum(trials, b)
    ensures CreateFinalInstances(cfg, trials).Ok? <==>
      && (cfg.searcher.Some? ==> DecodeStage(cfg.searcher.value.params, Searcher, trials[b].params).Ok?)
      && (cfg.searcher.Some? ==> DecodeStage(cfg.evaluator.value.params, Evaluator, trials[b].params).Ok?)
      && DecodeStage(cfg.classifier.params, Classifier, trials[b].params).Ok?
  {
    FirstMinimumUnique(trials, b, SelectBest(trials).value);
  }

  lemma StageKeysPresent(ps: seq<Parameter>, t: ParamType, params: map<string, string>)
    ensures StageKeys(ps, t) <= params.Keys <==> forall p :: p in ps ==> ConvertToUniqueParamName(p.name, t) in params
  {
  }

  // ---------------------------------------------------------------------------
  // Optimization run

  /** How `optimize` ends: with the three instances; without them when the
      trial log cannot be opened (the `IOException` is caught); or with the
      unchecked exception `createFinalInstances` throws. */
  datatype Outcome = Optimized(instances: FinalInstances) | NotOptimized | Failed(error: ResultError)

  /** `optimize` once the driver has finished: `log` is the parsed trial log,
      None when the file does not exist. */
  function Optimize(cfg: Config, log: Option<seq<Trial>>): (r: Outcome)
    requires cfg.Valid()
    ensures r.NotOptimized? <==> log.None?
    ensures r.Failed? && r.error == NoTrials <==> log == Some([])
    ensures r.Optimized? ==> exists b: nat :: IsFirstMinimum(log.value, b) && StagesDecodedFrom(cfg, log.value[b].params, r.instances)
  {
    match log
    case None => NotOptimized
    case Some(trials) =>
      match CreateFinalInstances(cfg, trials)
      case Ok(f) => Optimized(f)
      case Err(e) => Failed(e)
  }
}
