/**
 The generic optional-parameter machinery every storage request shares: a
 closed set of well-known parameter kinds, one typed parameter value per kind,
 and a request's optional parameters stored as a map from kind to parameter
 (at most one per kind, the last one set wins). The set of kinds a request
 type accepts is fixed per request type; here it is a set of kinds.
 Also holds the debug rendering shared by the requests' stream operators.
 */
module RequestParameters {
  import opened Text

  /** The well-known optional parameter kinds the modelled requests use. */
  datatype ParamKind = MaxResultsKind | PrefixKind | ProjectionKind | UserProjectKind | GenerationKind

  /** A typed optional parameter; its constructor determines its kind. */
  datatype Parameter =
    | MaxResults(maxResults: int)
    | Prefix(prefix: string)
    | Projection(projection: string)
    | UserProject(userProject: string)
    | Generation(generation: int)

  function Kind(p: Parameter): ParamKind
  {
    match p
    case MaxResults(_) => MaxResultsKind
    case Prefix(_) => PrefixKind
    case Projection(_) => ProjectionKind
    case UserProject(_) => UserProjectKind
    case Generation(_) => GenerationKind
  }

  /** The query-string key of each kind. */
  function Key(k: ParamKind): string
  {
    match k
    case MaxResultsKind => "maxResults"
    case PrefixKind => "prefix"
    case ProjectionKind => "projection"
    case UserProjectKind => "userProject"
    case GenerationKind => "generation"
  }

  /** No two kinds share a key. */
  lemma KeyInjective(k1: ParamKind, k2: ParamKind)
    requires Key(k1) == Key(k2)
    ensures k1 == k2
  {
  }

  /** The rendering of a parameter's value. */
  function ValueText(p: Parameter): string
  {
    match p
    case MaxResults(n) => IntToDecimal(n)
    case Prefix(s) => s
    case Projection(s) => s
    case UserProject(s) => s
    case Generation(n) => IntToDecimal(n)
  }

  /** The `key=value` entry of a present parameter. */
  function Entry(p: Parameter): string
  {
    Key(Kind(p)) + "=" + ValueText(p)
  }

  /** Every kind, in the fixed order in which present parameters are rendered. */
  const AllKinds: seq<ParamKind> := [MaxResultsKind, PrefixKind, ProjectionKind, UserProjectKind, GenerationKind]

  lemma AllKindsListsEveryKind(k: ParamKind)
    ensures k in AllKinds
  {
  }

  /** Stored parameters sit under their own kind. */
  ghost predicate WellKeyed(params: map<ParamKind, Parameter>)
  {
    forall k :: k in params ==> Kind(params[k]) == k
  }

  /** Every parameter in `ps` is of a kind in `accepted`. */
  ghost predicate AllAccepted(ps: seq<Parameter>, accepted: set<ParamKind>)
  {
    forall i :: 0 <= i < |ps| ==> Kind(ps[i]) in accepted
  }

  /** The kinds mentioned in `ps`. */
  function KindsOf(ps: seq<Parameter>): (ks: set<ParamKind>)
    ensures forall i :: 0 <= i < |ps| ==> Kind(ps[i]) in ks
    ensures forall k :: k in ks ==> exists i :: 0 <= i < |ps| && Kind(ps[i]) == k
    decreases |ps|
  {
    if ps == [] then {}
    else
      var rest := KindsOf(ps[1..]);
      assert forall k :: k in rest ==> exists i :: 1 <= i < |ps| && Kind(ps[i]) == k by {
        forall k | k in rest ensures exists i :: 1 <= i < |ps| && Kind(ps[i]) == k {
          var j :| 0 <= j < |ps[1..]| && Kind(ps[1..][j]) == k;
          assert Kind(ps[j + 1]) == k;
        }
      }
      {Kind(ps[0])} + rest
  }

  /** `ps[i]` is the last parameter of its kind in `ps`. */
  ghost predicate LastOfKind(ps: seq<Parameter>, i: int)
    requires 0 <= i < |ps|
  {
    forall j :: i < j < |ps| ==> Kind(ps[j]) != Kind(ps[i])
  }

  /**
   The stored parameters after `set_multiple_parameters(ps...)`: each
   parameter is set in turn, left to right, so a later one of the same kind
   overwrites an earlier one.
   */
  function WithParameters(params: map<ParamKind, Parameter>, ps: seq<Parameter>): map<ParamKind, Parameter>
    decreases |ps|
  {
    if ps == [] then params else WithParameters(params[Kind(ps[0]) := ps[0]], ps[1..])
  }

  /** Kinds not mentioned are untouched; the set of keys grows by exactly the kinds mentioned. */
  lemma {:induction false} WithParametersFrame(params: map<ParamKind, Parameter>, ps: seq<Parameter>)
    ensures WithParameters(params, ps).Keys == params.Keys + KindsOf(ps)
    ensures forall k :: k in params && k !in KindsOf(ps) ==> WithParameters(params, ps)[k] == params[k]
    decreases |ps|
  {
    if ps != [] {
      WithParametersFrame(params[Kind(ps[0]) := ps[0]], ps[1..]);
    }
  }

  /** The last parameter of each kind is the one stored. */
  lemma {:induction false} WithParametersLastWins(params: map<ParamKind, Parameter>, ps: seq<Parameter>, i: int)
    requires 0 <= i < |ps| && LastOfKind(ps, i)
    ensures Kind(ps[i]) in WithParameters(params, ps)
    ensures WithParameters(params, ps)[Kind(ps[i])] == ps[i]
    decreases |ps|
  {
    var next := params[Kind(ps[0]) := ps[0]];
    if i == 0 {
      WithParametersFrame(next, ps[1..]);
    } else {
      assert LastOfKind(ps[1..], i - 1) by {
        forall j | i - 1 < j < |ps[1..]| ensures Kind(ps[1..][j]) != Kind(ps[1..][i - 1]) {
          assert Kind(ps[j + 1]) != Kind(ps[i]);
        }
      }
      WithParametersLastWins(next, ps[1..], i - 1);
    }
  }

  /** Setting only accepted, well-typed parameters keeps a request's store well formed. */
  lemma {:induction false} WithParametersKeepsAccepted(params: map<ParamKind, Parameter>, ps: seq<Parameter>, accepted: set<ParamKind>)
    requires WellKeyed(params) && params.Keys <= accepted && AllAccepted(ps, accepted)
    ensures WellKeyed(WithParameters(params, ps))
    ensures WithParameters(params, ps).Keys <= accepted
    decreases |ps|
  {
    if ps != [] {
      WithParametersKeepsAccepted(params[Kind(ps[0]) := ps[0]], ps[1..], accepted);
    }
  }

  /** `set_multiple_parameters(a, b)` with two distinct kinds stores both. */
  lemma SetTwoDistinctStoresBoth(params: map<ParamKind, Parameter>, a: Parameter, b: Parameter)
    requires Kind(a) != Kind(b)
    ensures Kind(a) in WithParameters(params, [a, b]) && WithParameters(params, [a, b])[Kind(a)] == a
    ensures Kind(b) in WithParameters(params, [a, b]) && WithParameters(params, [a, b])[Kind(b)] == b
  {
    WithParametersLastWins(params, [a, b], 0);
    WithParametersLastWins(params, [a, b], 1);
  }

  /** A mandatory field rendered as `label=value`. */
  function FieldEntry(field: (string, string)): string
  {
    field.0 + "=" + field.1
  }

  /** The mandatory fields, comma separated, in the order given. */
  function RenderFields(fields: seq<(string, string)>): string
    decreases |fields|
  {
    if fields == [] then ""
    else if |fields| == 1 then FieldEntry(fields[0])
    else FieldEntry(fields[0]) + ", " + RenderFields(fields[1..])
  }

  lemma {:induction false} RenderFieldsMentions(fields: seq<(string, string)>, i: int)
    requires 0 <= i < |fields|
    ensures Contains(RenderFields(fields), fields[i].1)
    decreases |fields|
  {
    if i == 0 {
      ContainsSuffix(fields[0].0 + "=", fields[0].1);
      if |fields| > 1 {
        ContainsInLeft(FieldEntry(fields[0]), ", " + RenderFields(fields[1..]), fields[0].1);
        assert RenderFields(fields) == FieldEntry(fields[0]) + (", " + RenderFields(fields[1..]));
      }
    } else {
      RenderFieldsMentions(fields[1..], i - 1);
      ContainsInRight(FieldEntry(fields[0]) + ", ", RenderFields(fields[1..]), fields[i].1);
    }
  }

  /** The present parameters among `kinds`, each as `, key=value`, in the order of `kinds`. */
  function RenderParams(params: map<ParamKind, Parameter>, kinds: seq<ParamKind>): string
    decreases |kinds|
  {
    if kinds == [] then ""
    else
      (if kinds[0] in params then ", " + Entry(params[kinds[0]]) else "")
      + RenderParams(params, kinds[1..])
  }

  lemma {:induction false} RenderParamsMentions(params: map<ParamKind, Parameter>, kinds: seq<ParamKind>, k: ParamKind)
    requires k in params && k in kinds
    ensures Contains(RenderParams(params, kinds), Entry(params[k]))
    decreases |kinds|
  {
    var head := if kinds[0] in params then ", " + Entry(params[kinds[0]]) else "";
    if kinds[0] == k {
      ContainsSuffix(", ", Entry(params[k]));
      ContainsInLeft(head, RenderParams(params, kinds[1..]), Entry(params[k]));
    } else {
      RenderParamsMentions(params, kinds[1..], k);
      ContainsInRight(head, RenderParams(params, kinds[1..]), Entry(params[k]));
    }
  }

  /**
   The debug rendering of a request named `name`: its mandatory fields first,
   then its present optional parameters in the fixed kind order.
   */
  function Describe(name: string, fields: seq<(string, string)>, params: map<ParamKind, Parameter>): (s: string)
    ensures forall i :: 0 <= i < |fields| ==> Contains(s, fields[i].1)
    ensures forall k :: k in params ==> Contains(s, Entry(params[k]))
  {
    var prefix := name + "={";
    var f := RenderFields(fields);
    var p := RenderParams(params, AllKinds);
    var s := prefix + f + p + "}";
    assert forall i :: 0 <= i < |fields| ==> Contains(s, fields[i].1) by {
      forall i | 0 <= i < |fields| ensures Contains(s, fields[i].1) {
        RenderFieldsMentions(fields, i);
        ContainsInRight(prefix, f, fields[i].1);
        ContainsInLeft(prefix + f, p, fields[i].1);
        ContainsInLeft(prefix + f + p, "}", fields[i].1);
      }
    }
    assert forall k :: k in params ==> Contains(s, Entry(params[k])) by {
      forall k | k in params ensures Contains(s, Entry(params[k])) {
        AllKindsListsEveryKind(k);
        RenderParamsMentions(params, AllKinds, k);
        ContainsInRight(prefix + f, p, Entry(params[k]));
        ContainsInLeft(prefix + f + p, "}", Entry(params[k]));
      }
    }
    s
  }
}
