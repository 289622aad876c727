/** Optimizer.java: the state every optimizer shares, the merged parameter
    list, the run identifier, and the integer-domain correction. */
module Optimizer {
  import opened Wrappers
  import opened JavaText
  import opened Components
  import opened Util

  /** The constructor's arguments. File locations are absolute path strings. */
  datatype Config = Config(
    searcher: Option<Component>,
    evaluator: Option<Component>,
    classifier: Component,
    dataSet: string,
    environment: string,
    dataSetFolder: string,
    seed: Int32,
    maxRuntimeParam: Int32,
    maxRuntime: Int32)
  {
    /** What a successfully constructed optimizer satisfies: the constructor
        dereferences the evaluator whenever there is a searcher. */
    predicate Valid() {
      searcher.Some? ==> evaluator.Some?
    }
  }

  /** The constructor's `NullPointerException`. */
  datatype ConstructionError = NullComponent

  /** The `Optimizer` constructor: it reads the classifier's parameters, and
      the evaluator's whenever a searcher is given. */
  function NewOptimizer(
    searcher: Option<Component>, evaluator: Option<Component>, classifier: Option<Component>,
    dataSet: string, environment: string, dataSetFolder: string,
    seed: Int32, maxRuntimeParam: Int32, maxRuntime: Int32): (r: Result<Config, ConstructionError>)
    ensures r.Ok? <==> classifier.Some? && (searcher.Some? ==> evaluator.Some?)
    ensures r.Ok? ==> r.value.Valid()
    ensures r.Ok? ==> r.value.searcher == searcher && r.value.evaluator == evaluator && Some(r.value.classifier) == classifier
  {
    if searcher.Some? && evaluator.None? then Err(NullComponent)
    else if classifier.None? then Err(NullComponent)
    else Ok(Config(searcher, evaluator, classifier.value, dataSet, environment, dataSetFolder, seed, maxRuntimeParam, maxRuntime))
  }

  // ---------------------------------------------------------------------------
  // Merged parameter list

  /** One entry of `parameterList`: a parameter with the stage it came from. */
  datatype MergedParameter = MergedParameter(param: Parameter, paramType: ParamType)

  /** The entries one component contributes: its parameters in order, all
      tagged with one stage. */
  function Tagged(ps: seq<Parameter>, t: ParamType): (r: seq<MergedParameter>)
  {
    seq(|ps|, i requires 0 <= i < |ps| => MergedParameter(ps[i], t))
  }

  /** The constructor's `for ... parameterList.add(...)` loop over one component. */
  function AddAll(list: seq<MergedParameter>, ps: seq<Parameter>, t: ParamType): (r: seq<MergedParameter>)
    ensures r == list + Tagged(ps, t)
    decreases |ps|
  {
    if |ps| == 0 then list
    else
      var r := AddAll(list + [MergedParameter(ps[0], t)], ps[1..], t);
      assert [MergedParameter(ps[0], t)] + Tagged(ps[1..], t) == Tagged(ps, t);
      r
  }

  /** `parameterList`: the searcher's parameters, then the evaluator's (both
      only with a searcher), then the classifier's, each in component order and
      tagged with its stage. */
  function ParameterList(cfg: Config): (r: seq<MergedParameter>)
    requires cfg.Valid()
    ensures cfg.searcher.None? ==> r == Tagged(cfg.classifier.params, Classifier)
    ensures cfg.searcher.Some? ==>
      r == Tagged(cfg.searcher.value.params, Searcher)
           + Tagged(cfg.evaluator.value.params, Evaluator)
           + Tagged(cfg.classifier.params, Classifier)
  {
    var preprocessor :=
      if cfg.searcher.Some? then
        AddAll(AddAll([], cfg.searcher.value.params, Searcher), cfg.evaluator.value.params, Evaluator)
      else [];
    AddAll(preprocessor, cfg.classifier.params, Classifier)
  }

  /** Every entry of the merged list is a parameter of the component its stage
      names; without a searcher every entry is a classifier parameter. */
  lemma ParameterListRoles(cfg: Config, m: MergedParameter)
    requires cfg.Valid()
    requires m in ParameterList(cfg)
    ensures m.paramType == Searcher ==> cfg.searcher.Some? && m.param in cfg.searcher.value.params
    ensures m.paramType == Evaluator ==> cfg.searcher.Some? && m.param in cfg.evaluator.value.params
    ensures m.paramType == Classifier ==> m.param in cfg.classifier.params
    ensures cfg.searcher.None? ==> m.paramType == Classifier
  {
    var r := ParameterList(cfg);
    var k :| 0 <= k < |r| && r[k] == m;
    EntryAt(cfg, k);
  }

  /** `getUniqueParamName`: the unique name of a merged entry. Its bare name and
      stage can be decoded from it again. */
  function UniqueParamName(m: MergedParameter): (r: string)
    ensures |m.param.name| >= 1 ==> RevertFromUniqueParamName(r) == Ok(m.param.name)
    ensures GetTypeFromUniqueParamName(r) == Ok(m.paramType)
  {
    TypeOfConvert(m.param.name, m.paramType);
    ConvertToUniqueParamName(m.param.name, m.paramType)
  }

  /** Each component's parameter names are distinct. */
  predicate NamesDistinctPerComponent(cfg: Config)
  {
    && DistinctNames(cfg.classifier.params)
    && (cfg.searcher.Some? ==> DistinctNames(cfg.searcher.value.params))
    && (cfg.evaluator.Some? ==> DistinctNames(cfg.evaluator.value.params))
  }

  /** Indexing a three-part concatenation. */
  lemma ConcatAt<T>(a: seq<T>, b: seq<T>, c: seq<T>, k: nat)
    requires k < |a| + |b| + |c|
    ensures |a + b + c| == |a| + |b| + |c|
    ensures k < |a| ==> (a + b + c)[k] == a[k]
    ensures |a| <= k < |a| + |b| ==> (a + b + c)[k] == b[k - |a|]
    ensures |a| + |b| <= k ==> (a + b + c)[k] == c[k - |a| - |b|]
  {
  }

  /** Entry k of the merged list, located in its component's segment. */
  lemma EntryAt(cfg: Config, k: nat)
    requires cfg.Valid()
    requires k < |ParameterList(cfg)|
    ensures var r := ParameterList(cfg);
            var c := cfg.classifier.params;
            if cfg.searcher.None? then r[k] == MergedParameter(c[k], Classifier)
            else
              var s := cfg.searcher.value.params;
              var e := cfg.evaluator.value.params;
              if k < |s| then r[k] == MergedParameter(s[k], Searcher)
              else if k < |s| + |e| then r[k] == MergedParameter(e[k - |s|], Evaluator)
              else k - |s| - |e| < |c| && r[k] == MergedParameter(c[k - |s| - |e|], Classifier)
  {
    if cfg.searcher.Some? {
      var s := cfg.searcher.value.params;
      var e := cfg.evaluator.value.params;
      ConcatAt(Tagged(s, Searcher), Tagged(e, Evaluator), Tagged(cfg.classifier.params, Classifier), k);
    }
  }

  /** When names are distinct within each component, the unique names of the
      merged list are pairwise distinct: stages never collide. */
  lemma MergedNamesDistinct(cfg: Config, i: nat, j: nat)
    requires cfg.Valid() && NamesDistinctPerComponent(cfg)
    requires i < j < |ParameterList(cfg)|
    ensures UniqueParamName(ParameterList(cfg)[i]) != UniqueParamName(ParameterList(cfg)[j])
  {
    var r := ParameterList(cfg);
    ConvertInjective(r[i].param.name, r[i].paramType, r[j].param.name, r[j].paramType);
    EntryAt(cfg, i);
    EntryAt(cfg, j);
  }

  // ---------------------------------------------------------------------------
  // Run identifier

  /** `replaceAll("\\.", "")`. */
  function RemoveDots(s: string): (r: string)
    ensures |r| <= |s|
    ensures forall i :: 0 <= i < |r| ==> r[i] != '.'
    ensures forall c :: c != '.' ==> (c in r <==> c in s)
  {
    if |s| == 0 then ""
    else if s[0] == '.' then RemoveDots(s[1..])
    else
      var rest := RemoveDots(s[1..]);
      assert s == [s[0]] + s[1..];
      [s[0]] + rest
  }

  /** `replaceAll("-", "_")`. */
  function DashesToUnderscores(s: string): (r: string)
    ensures |r| == |s|
    ensures forall i :: 0 <= i < |s| ==> r[i] == (if s[i] == '-' then '_' else s[i])
  {
    if |s| == 0 then ""
    else [if s[0] == '-' then '_' else s[0]] + DashesToUnderscores(s[1..])
  }

  /** Text without `.` and `-`: the clean-up has nothing to do on it. */
  predicate NoDotOrDash(s: string)
  {
    forall i :: 0 <= i < |s| ==> s[i] != '.' && s[i] != '-'
  }

  /** A clean suffix keeps the run identifier free of `.` and `-`. */
  lemma BuildFileNameSuffixed(cfg: Config, suffix: string)
    requires cfg.Valid() && NoDotOrDash(suffix)
    ensures NoDotOrDash(BuildFileName(cfg) + suffix)
  {
    NoDotOrDashAppend(BuildFileName(cfg), suffix);
  }

  lemma NoDotOrDashAppend(a: string, b: string)
    requires NoDotOrDash(a) && NoDotOrDash(b)
    ensures NoDotOrDash(a + b)
  {
    forall i | |a| <= i < |a + b|
      ensures (a + b)[i] == b[i - |a|]
    {
    }
  }

  /** The character clean-up `buildFileName` applies to the joined name. */
  function Sanitize(s: string): (r: string)
    ensures NoDotOrDash(r)
  {
    DashesToUnderscores(RemoveDots(s))
  }

  /** `buildFileName`: `S_E_C_D_seed`, or `null_C_D_seed` without a searcher,
      with every `.` removed and every `-` turned into `_`. */
  function BuildFileName(cfg: Config): (r: string)
    requires cfg.Valid()
    ensures NoDotOrDash(r)
  {
    Sanitize(RunParts(cfg))
  }

  /** The clean-up brings in no character but `_`. */
  lemma SanitizeAddsOnlyUnderscores(s: string, c: char)
    requires c != '_' && c in Sanitize(s)
    ensures c in s
  {
    var t := RemoveDots(s);
    var i :| 0 <= i < |Sanitize(s)| && Sanitize(s)[i] == c;
    assert t[i] == c;
  }

  /** A character that is not `_`, `.`, `-` or a digit, and that none of the
      names and the dataset hold, is not in the run identifier. */
  lemma BuildFileNameLacks(cfg: Config, c: char)
    requires cfg.Valid() && c != '_' && c != '.' && c != '-' && !IsDigit(c) && c !in "null"
    requires c !in cfg.classifier.name && c !in cfg.dataSet
    requires cfg.searcher.Some? ==> c !in cfg.searcher.value.name && c !in cfg.evaluator.value.name
    ensures c !in BuildFileName(cfg)
  {
    IntToStringChars(cfg.seed, c);
    if c in BuildFileName(cfg) {
      SanitizeAddsOnlyUnderscores(RunParts(cfg), c);
    }
  }

  /** The joined name before clean-up. */
  function RunParts(cfg: Config): string
    requires cfg.Valid()
  {
    var prefix := if cfg.searcher.Some? then cfg.searcher.value.name + "_" + cfg.evaluator.value.name else "null";
    prefix + "_" + cfg.classifier.name + "_" + cfg.dataSet + "_" + IntToString(cfg.seed)
  }

  /** The clean-up works piecewise on a concatenation. */
  lemma {:induction false} SanitizeAppend(a: string, b: string)
    ensures Sanitize(a + b) == Sanitize(a) + Sanitize(b)
  {
    RemoveDotsAppend(a, b);
    DashesAppend(RemoveDots(a), RemoveDots(b));
  }

  lemma {:induction false} RemoveDotsAppend(a: string, b: string)
    ensures RemoveDots(a + b) == RemoveDots(a) + RemoveDots(b)
  {
    if |a| > 0 {
      assert (a + b)[1..] == a[1..] + b;
      RemoveDotsAppend(a[1..], b);
    } else {
      assert a + b == b;
    }
  }

  lemma DashesAppend(a: string, b: string)
    ensures DashesToUnderscores(a + b) == DashesToUnderscores(a) + DashesToUnderscores(b)
  {
  }

  /** Text without `.` and `-` passes through the clean-up unchanged. */
  lemma {:induction false} SanitizeKeepsPlainText(s: string)
    requires NoDotOrDash(s)
    ensures Sanitize(s) == s
  {
    RemoveDotsKeepsPlainText(s);
  }

  lemma {:induction false} RemoveDotsKeepsPlainText(s: string)
    requires forall i :: 0 <= i < |s| ==> s[i] != '.'
    ensures RemoveDots(s) == s
  {
    if |s| > 0 {
      RemoveDotsKeepsPlainText(s[1..]);
      assert s == [s[0]] + s[1..];
    }
  }

  /** For component names and a dataset without `.` and `-`, and a
      non-negative seed, the run identifier is the joined name itself:
      `S_E_C_D_seed`, or `null_C_D_seed` without a searcher. */
  lemma BuildFileNameOfPlainParts(cfg: Config)
    requires cfg.Valid() && cfg.seed >= 0
    requires NoDotOrDash(cfg.classifier.name) && NoDotOrDash(cfg.dataSet)
    requires cfg.searcher.Some? ==> NoDotOrDash(cfg.searcher.value.name) && NoDotOrDash(cfg.evaluator.value.name)
    ensures BuildFileName(cfg)
         == (if cfg.searcher.Some? then cfg.searcher.value.name + "_" + cfg.evaluator.value.name else "null")
            + "_" + cfg.classifier.name + "_" + cfg.dataSet + "_" + IntToString(cfg.seed)
  {
    var prefix := if cfg.searcher.Some? then cfg.searcher.value.name + "_" + cfg.evaluator.value.name else "null";
    if cfg.searcher.Some? {
      var a := cfg.searcher.value.name + "_";
      SanitizeAppend(cfg.searcher.value.name, "_");
      SanitizeAppend(a, cfg.evaluator.value.name);
      SanitizeKeepsPlainText(cfg.searcher.value.name);
      SanitizeKeepsPlainText(cfg.evaluator.value.name);
    }
    SanitizeKeepsPlainText("_");
    SanitizeKeepsPlainText("null");
    SanitizeKeepsPlainText(prefix);
    var seed := IntToString(cfg.seed);
    assert forall i :: 0 <= i < |seed| ==> IsDigit(seed[i]);
    SanitizeKeepsPlainText(seed);
    SanitizeKeepsPlainText(cfg.classifier.name);
    SanitizeKeepsPlainText(cfg.dataSet);
    var p1 := prefix + "_";
    var p2 := p1 + cfg.classifier.name;
    var p3 := p2 + "_";
    var p4 := p3 + cfg.dataSet;
    var p5 := p4 + "_";
    SanitizeAppend(prefix, "_");
    SanitizeAppend(p1, cfg.classifier.name);
    SanitizeAppend(p2, "_");
    SanitizeAppend(p3, cfg.dataSet);
    SanitizeAppend(p4, "_");
    SanitizeAppend(p5, seed);
  }

  /** The run identifier is not injective: a dash and an underscore in the
      dataset name give the same name for two different runs. */
  lemma FileNameCollision(classifier: Component)
    ensures var a := Config(None, None, classifier, "a-b", "/env", "/data", 0, 0, 0);
            var b := Config(None, None, classifier, "a_b", "/env", "/data", 0, 0, 0);
            a != b && BuildFileName(a) == BuildFileName(b)
  {
    var a := Config(None, None, classifier, "a-b", "/env", "/data", 0, 0, 0);
    var b := Config(None, None, classifier, "a_b", "/env", "/data", 0, 0, 0);
    var head := "null" + "_" + classifier.name + "_";
    var tail := "_" + IntToString(0);
    assert RunParts(a) == head + ("a-b" + tail);
    assert RunParts(b) == head + ("a_b" + tail);
    SanitizeAppend(head, "a-b" + tail);
    SanitizeAppend(head, "a_b" + tail);
    SanitizeAppend("a-b", tail);
    SanitizeAppend("a_b", tail);
    assert Sanitize("a-b") == "a_b";
    SanitizeKeepsPlainText("a_b");
  }

  // ---------------------------------------------------------------------------
  // Integer-domain correction

  /** The `NumberFormatException` of `Double.valueOf`. */
  datatype NumberFormatError = NumberFormatError(input: string)

  /** `getDoubleStringAsInt`: `(int) Double.valueOf(str)`. */
  function GetDoubleStringAsInt(str: string): (r: Result<Int32, NumberFormatError>)
    ensures r.Err? <==> ParseDecimal(str).None?
    ensures r.Ok? ==> var d := ParseDecimal(str).value;
                      var w: int := DigitsValue(d.whole);
                      r.value == Saturate(if d.negative then -w else w)
  {
    match ParseDecimal(str)
    case None => Err(NumberFormatError(str))
    case Some(d) =>
      TruncationKeepsWholePart(d);
      Ok(DoubleToInt(d.Value()))
  }

  /** `correctParameterSyntax`: integer-domain values become the decimal text
      of their truncated value; every other value is returned as given. */
  function CorrectParameterSyntax(input: string, pd: Domain): (r: Result<string, NumberFormatError>)
    ensures !(pd.Numeric? && pd.isInteger) ==> r == Ok(input)
    ensures pd.Numeric? && pd.isInteger ==>
      (r.Ok? <==> ParseDecimal(input).Some?)
      && (r.Ok? ==> ParseInt(r.value) == Some(DoubleToInt(ParseDecimal(input).value.Value())))
  {
    if pd.Numeric? && pd.isInteger then
      var n :- GetDoubleStringAsInt(input);
      ParseIntInvertsIntToString(n);
      Ok(IntToString(n))
    else Ok(input)
  }

  /** A value that is already integer text is left as it is. */
  lemma CorrectionKeepsIntegerText(n: Int32, pd: Domain)
    ensures CorrectParameterSyntax(IntToString(n), pd) == Ok(IntToString(n))
  {
    var s := IntToString(n);
    if pd.Numeric? && pd.isInteger {
      var d := ParseDecimal(s);
      if n >= 0 {
        assert IsDigit(s[0]);
        assert IndexOf(s, '.') == |s|;
        assert s[..|s|] == s;
        assert d == Some(Decimal(false, s, ""));
      } else {
        var body := s[1..];
        assert IndexOf(body, '.') == |body|;
        assert body[..|body|] == body;
        assert d == Some(Decimal(true, body, ""));
      }
      var m := GetDoubleStringAsInt(s).value;
      assert m == n;
    }
  }

  /** The float text the search driver emits for a non-negative integer value
      is corrected to the integer's own text whatever the fraction digits:
      "7.000000000" and "7.9" both become "7". */
  lemma CorrectionDropsFraction(n: nat, fraction: string, pd: Domain)
    requires pd.Numeric? && pd.isInteger && n <= INT_MAX && AllDigits(fraction)
    ensures CorrectParameterSyntax(NatToString(n) + "." + fraction, pd) == Ok(IntToString(n))
  {
    ParsePointLiteral(NatToString(n), fraction);
    assert GetDoubleStringAsInt(NatToString(n) + "." + fraction) == Ok(n);
  }

  // ---------------------------------------------------------------------------
  // Results

  /** `finalSearcher`, `finalEvaluator`, `finalClassifier`. */
  datatype FinalInstances = FinalInstances(
    searcher: ComponentInstance,
    evaluator: ComponentInstance,
    classifier: ComponentInstance)
}
