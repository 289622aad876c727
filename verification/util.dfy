/** Util.java: the role-tagged unique parameter names that merge the three
    pipeline stages into one search space, and the pipeline instance tree. */
module Util {
  import opened Wrappers
  import opened Components

  /** The pipeline stage a parameter belongs to (`Util.ParamType`). */
  datatype ParamType = Searcher | Evaluator | Classifier

  /** The one-character suffix each stage contributes to a unique name. */
  function Tag(t: ParamType): char
  {
    match t
    case Searcher => 's'
    case Evaluator => 'e'
    case Classifier => 'c'
  }

  /** `IllegalArgumentException` raised while decoding a unique name. */
  datatype IllegalArgument = NameTooShort(name: string) | NotAUniqueName(name: string)

  // ---------------------------------------------------------------------------
  // Unique names

  /** `convertToUniqueParamName`: `name_s`, `name_e` or `name_c`. */
  function ConvertToUniqueParamName(name: string, t: ParamType): string
  {
    match t
    case Searcher => name + "_s"
    case Evaluator => name + "_e"
    case Classifier => name + "_c"
  }

  /** A unique name is the bare name, the separator and the stage's tag. */
  lemma ConvertShape(name: string, t: ParamType)
    ensures var u := ConvertToUniqueParamName(name, t);
            |u| == |name| + 2 && u[..|name|] == name && u[|name|] == '_' && u[|name| + 1] == Tag(t)
  {
  }

  /** `revertFromUniqueParamName`: drops the last two characters; names of at
      most two characters are rejected. */
  function RevertFromUniqueParamName(name: string): (r: Result<string, IllegalArgument>)
    ensures r.Err? <==> |name| <= 2
    ensures r.Err? ==> r.error == NameTooShort(name)
    ensures r.Ok? ==> |r.value| == |name| - 2 && r.value == name[..|r.value|]
  {
    if |name| <= 2 then Err(NameTooShort(name))
    else Ok(name[..|name| - 2])
  }

  /** `getTypeFromUniqueParamName`: looks at the last character only. */
  function GetTypeFromUniqueParamName(name: string): (r: Result<ParamType, IllegalArgument>)
    ensures r.Ok? <==> |name| >= 1 && name[|name| - 1] in {'s', 'e', 'c'}
    ensures r.Ok? ==> Tag(r.value) == name[|name| - 1]
    ensures r.Err? ==> r.error == NotAUniqueName(name)
  {
    if |name| >= 1 && name[|name| - 1] == 's' then Ok(Searcher)
    else if |name| >= 1 && name[|name| - 1] == 'e' then Ok(Evaluator)
    else if |name| >= 1 && name[|name| - 1] == 'c' then Ok(Classifier)
    else Err(NotAUniqueName(name))
  }

  /** Distinct (name, stage) pairs never share a unique name. */
  lemma ConvertInjective(n1: string, t1: ParamType, n2: string, t2: ParamType)
    ensures ConvertToUniqueParamName(n1, t1) == ConvertToUniqueParamName(n2, t2) ==> n1 == n2 && t1 == t2
  {
    ConvertShape(n1, t1);
    ConvertShape(n2, t2);
  }

  /** Reverting a unique name gives the bare name back exactly when the bare
      name is non-empty; the empty name's unique form is too short. */
  lemma RevertInvertsConvert(name: string, t: ParamType)
    ensures |name| >= 1 ==> RevertFromUniqueParamName(ConvertToUniqueParamName(name, t)) == Ok(name)
    ensures |name| == 0 ==> RevertFromUniqueParamName(ConvertToUniqueParamName(name, t)).Err?
  {
  }

  /** The stage is recovered from every unique name, the empty bare name included. */
  lemma TypeOfConvert(name: string, t: ParamType)
    ensures GetTypeFromUniqueParamName(ConvertToUniqueParamName(name, t)) == Ok(t)
  {
    var u := ConvertToUniqueParamName(name, t);
    assert u[|u| - 1] == Tag(t);
  }

  /** The stage check ignores the separator: any text ending in a tag
      character is accepted, with or without the underscore before it. */
  lemma TypeCheckIgnoresSeparator(prefix: string, t: ParamType)
    ensures GetTypeFromUniqueParamName(prefix + [Tag(t)]) == Ok(t)
  {
    var u := prefix + [Tag(t)];
    assert u[|u| - 1] == Tag(t);
  }

  /** Every well-formed unique name is the encoding of its reverted name and
      its stage. */
  lemma ConvertInvertsDecode(u: string)
    requires |u| >= 3 && u[|u| - 2] == '_'
    requires GetTypeFromUniqueParamName(u).Ok?
    ensures ConvertToUniqueParamName(RevertFromUniqueParamName(u).value, GetTypeFromUniqueParamName(u).value) == u
  {
    var n := RevertFromUniqueParamName(u).value;
    var t := GetTypeFromUniqueParamName(u).value;
    var v := ConvertToUniqueParamName(n, t);
    assert |v| == |u|;
    forall i | 0 <= i < |u|
      ensures v[i] == u[i]
    {
      if i < |n| {
        assert v[i] == v[..|n|][i];
      }
    }
  }

  // ---------------------------------------------------------------------------
  // Pipeline instances

  /** hasco's `ComponentInstance`: a (possibly null) component, its parameter
      values, and the instances satisfying its required interfaces. */
  datatype ComponentInstance = ComponentInstance(
    component: Option<Component>,
    parameterValues: map<string, string>,
    satisfactionOfRequiredInterfaces: map<string, ComponentInstance>)

  /** An instance of `component` with `values` and no required interfaces. */
  function Leaf(component: Option<Component>, values: map<string, string>): ComponentInstance
  {
    ComponentInstance(component, values, map[])
  }

  const PIPELINE: Component := Component("pipeline", [])
  const PREPROCESSOR: Component := Component("preprocessor", [])

  /** The node shape `createPipeline` builds when there is a searcher. */
  predicate IsPipelineNode(ci: ComponentInstance)
  {
    && ci.component == Some(PIPELINE)
    && ci.parameterValues == map[]
    && ci.satisfactionOfRequiredInterfaces.Keys == {"preprocessor", "classifier"}
    && var pre := ci.satisfactionOfRequiredInterfaces["preprocessor"];
       && pre.component == Some(PREPROCESSOR)
       && pre.parameterValues == map[]
       && pre.satisfactionOfRequiredInterfaces.Keys == {"eval", "search"}
  }

  /** The three stages of a pipeline node, or of a bare classifier instance. */
  datatype Stages = Stages(searcher: Option<ComponentInstance>, evaluator: Option<ComponentInstance>, classifier: ComponentInstance)

  /** Reads the stages back out of a pipeline tree. */
  function StagesOf(ci: ComponentInstance): Stages
  {
    if IsPipelineNode(ci) then
      var pre := ci.satisfactionOfRequiredInterfaces["preprocessor"];
      Stages(Some(pre.satisfactionOfRequiredInterfaces["search"]),
             Some(pre.satisfactionOfRequiredInterfaces["eval"]),
             ci.satisfactionOfRequiredInterfaces["classifier"])
    else Stages(None, None, ci)
  }

  /** `createPipeline(ComponentInstance, ComponentInstance, ComponentInstance)`:
      the classifier instance itself when there is no searcher instance,
      otherwise a `pipeline` node whose `preprocessor` child holds `eval` and
      `search` and whose `classifier` child is the classifier instance. */
  function CreatePipelineFromInstances(
    searcherInstance: Option<ComponentInstance>,
    evaluatorInstance: ComponentInstance,
    classifierInstance: ComponentInstance): (r: ComponentInstance)
    ensures searcherInstance.None? ==> r == classifierInstance
    ensures searcherInstance.Some? ==>
      IsPipelineNode(r) && StagesOf(r) == Stages(searcherInstance, Some(evaluatorInstance), classifierInstance)
  {
    match searcherInstance
    case None => classifierInstance
    case Some(searcher) =>
      var preprocessor := ComponentInstance(Some(PREPROCESSOR), map[], map["eval" := evaluatorInstance, "search" := searcher]);
      ComponentInstance(Some(PIPELINE), map[], map["preprocessor" := preprocessor, "classifier" := classifierInstance])
  }

  /** `createPipeline(Component, Map, Component, Map, Component, Map)`: wraps
      each component with its parameter map and builds the same tree. */
  function CreatePipeline(
    searcher: Option<Component>, searcherParameter: map<string, string>,
    evaluator: Option<Component>, evaluatorParameter: map<string, string>,
    classifier: Option<Component>, classifierParameter: map<string, string>): (r: ComponentInstance)
    ensures r == CreatePipelineFromInstances(
                   if searcher.Some? then Some(Leaf(searcher, searcherParameter)) else None,
                   Leaf(evaluator, evaluatorParameter),
                   Leaf(classifier, classifierParameter))
  {
    if searcher.Some? then
      var searcherInstance := ComponentInstance(searcher, searcherParameter, map[]);
      var evaluatorInstance := ComponentInstance(evaluator, evaluatorParameter, map[]);
      var classifierInstance := ComponentInstance(classifier, classifierParameter, map[]);
      var preprocessor := ComponentInstance(Some(Component("preprocessor", [])), map[],
                                            map["eval" := evaluatorInstance, "search" := searcherInstance]);
      ComponentInstance(Some(Component("pipeline", [])), map[],
                        map["preprocessor" := preprocessor, "classifier" := classifierInstance])
    else ComponentInstance(classifier, classifierParameter, map[])
  }

  /** Reading the stages back out of a built pipeline returns what went in,
      provided the classifier instance is not itself shaped like a pipeline. */
  lemma StagesOfCreatePipeline(
    searcherInstance: Option<ComponentInstance>,
    evaluatorInstance: ComponentInstance,
    classifierInstance: ComponentInstance)
    requires !IsPipelineNode(classifierInstance)
    ensures StagesOf(CreatePipelineFromInstances(searcherInstance, evaluatorInstance, classifierInstance))
         == Stages(searcherInstance, if searcherInstance.Some? then Some(evaluatorInstance) else None, classifierInstance)
  {
  }
}
