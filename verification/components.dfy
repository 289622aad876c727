/** The component catalog the optimizers read (hasco's `Component`,
    `Parameter` and parameter domains), reduced to what the optimizers use. */
module Components {
  import opened Wrappers

  /** A parameter's default domain. Bounds are doubles in the catalog. */
  datatype Domain =
    | Numeric(min: real, max: real, isInteger: bool)
    | Boolean
    | Categorical(values: seq<string>)

  datatype Parameter = Parameter(name: string, domain: Domain)

  /** A pipeline component: its name and its ordered parameters. */
  datatype Component = Component(name: string, params: seq<Parameter>)

  /** The bare names of a parameter sequence. */
  function NameSet(ps: seq<Parameter>): set<string>
  {
    set p | p in ps :: p.name
  }

  predicate DistinctNames(ps: seq<Parameter>)
  {
    forall i, j :: 0 <= i < j < |ps| ==> ps[i].name != ps[j].name
  }

  /** `Component.getParameter(name)`: the first parameter with that name, or
      None where the catalog would fail. */
  function FindParameter(ps: seq<Parameter>, name: string): (r: Option<Parameter>)
    ensures r.Some? ==> r.value in ps && r.value.name == name
  {
    if |ps| == 0 then None
    else if ps[0].name == name then Some(ps[0])
    else FindParameter(ps[1..], name)
  }

  /** The lookup fails exactly for names no parameter carries. */
  lemma {:induction false} FindParameterMisses(ps: seq<Parameter>, name: string)
    ensures FindParameter(ps, name).None? <==> name !in NameSet(ps)
    decreases |ps|
  {
    if |ps| > 0 {
      assert NameSet(ps) == {ps[0].name} + NameSet(ps[1..]) by {
        assert ps == [ps[0]] + ps[1..];
      }
      FindParameterMisses(ps[1..], name);
    }
  }

  /** With distinct names, looking a parameter's name up finds that parameter. */
  lemma FindParameterFindsItself(ps: seq<Parameter>, p: Parameter)
    requires DistinctNames(ps)
    requires p in ps
    ensures FindParameter(ps, p.name) == Some(p)
  {
    FindParameterMisses(ps, p.name);
    var q := FindParameter(ps, p.name).value;
    var i :| 0 <= i < |ps| && ps[i] == p;
    var j :| 0 <= j < |ps| && ps[j] == q;
  }
}
