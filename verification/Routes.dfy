/**
 The typed route registry: conflict detection between templates, the indexes, matching, and typed parameters.
 */
module Routes {
  import opened Prelude
  import opened RouteText
  import Codec = DescriptorCodec

  datatype Verb = Get | Post | Put | Patch | Delete

  datatype Segment = Literal(text: string) | Param(name: string)

  type Template = seq<Segment>

  datatype RouteParam = RouteParam(name: string, valueType: ParamType)

  datatype Route = Route(id: string, verb: Verb, path: Template, params: seq<RouteParam>)

  datatype TypedParam = TypedParam(name: string, value: ParamValue)

  // ---- templates ----

  predicate SegmentMatches(t: Segment, s: string) { t.Literal? ==> t.text == s }

  predicate Matches(t: Template, segments: seq<string>) {
    |t| == |segments| && forall k :: 0 <= k < |t| ==> SegmentMatches(t[k], segments[k])
  }

  predicate LiteralsValid(t: Template) {
    forall k :: 0 <= k < |t| && t[k].Literal? ==> ValidSegment(t[k].text)
  }

  /** No position holds two different literals. */
  predicate Detect(a: Template, b: Template) {
    |a| == |b| && forall k :: 0 <= k < |a| ==> !(a[k].Literal? && b[k].Literal?) || a[k] == b[k]
  }

  /** A sequence of segments both templates match. */
  function CommonPath(a: Template, b: Template): seq<string>
    requires |a| == |b|
  {
    seq(|a|, k requires 0 <= k < |a| => if a[k].Literal? then a[k].text else if b[k].Literal? then b[k].text else "x")
  }

  predicate BothMatch(a: Template, b: Template, segments: seq<string>) { Matches(a, segments) && Matches(b, segments) }

  /** Over segments alone detection is exact: it reports a conflict when and only when some sequence of valid
      segments matches both templates. */
  lemma DetectIsExactOnSegments(a: Template, b: Template)
    requires LiteralsValid(a) && LiteralsValid(b)
    ensures Detect(a, b) <==>
      exists segments :: BothMatch(a, b, segments) && forall k :: 0 <= k < |segments| ==> ValidSegment(segments[k])
  {
    if Detect(a, b) { CommonPathIsValid(a, b); }
    if segments :| BothMatch(a, b, segments) { MatchedTogether(a, b, segments); }
  }

  lemma CommonPathIsValid(a: Template, b: Template)
    requires LiteralsValid(a) && LiteralsValid(b) && Detect(a, b)
    ensures
      var segments := CommonPath(a, b);
      BothMatch(a, b, segments) && forall k :: 0 <= k < |segments| ==> ValidSegment(segments[k])
  {
    assert forall c :: c in "x" ==> c == 'x';
  }

  lemma MatchedTogether(a: Template, b: Template, segments: seq<string>)
    requires BothMatch(a, b, segments)
    ensures Detect(a, b)
  {
    forall k | 0 <= k < |a| ensures !(a[k].Literal? && b[k].Literal?) || a[k] == b[k] {
      assert SegmentMatches(a[k], segments[k]) && SegmentMatches(b[k], segments[k]);
    }
  }

  lemma {:induction false} JoinIsMonotone(a: seq<string>, b: seq<string>)
    requires |a| == |b| && forall k :: 0 <= k < |a| ==> Bytes(a[k]) <= Bytes(b[k])
    ensures Bytes(Join(a)) <= Bytes(Join(b))
  {
    if a != [] {
      forall k | 0 <= k < |a| - 1 ensures Bytes(a[1..][k]) <= Bytes(b[1..][k]) {
        assert a[1..][k] == a[k + 1] && b[1..][k] == b[k + 1];
      }
      JoinIsMonotone(a[1..], b[1..]);
      JoinBytes(a);
      JoinBytes(b);
    }
  }

  /** No path that matches both templates is shorter than their common path. */
  lemma CommonPathIsShortest(a: Template, b: Template, segments: seq<string>)
    requires BothMatch(a, b, segments) && forall k :: 0 <= k < |segments| ==> ValidSegment(segments[k])
    ensures Bytes(Join(CommonPath(a, b))) <= Bytes(Join(segments))
  {
    var common := CommonPath(a, b);
    forall k | 0 <= k < |common| ensures Bytes(common[k]) <= Bytes(segments[k]) {
      assert SegmentMatches(a[k], segments[k]) && SegmentMatches(b[k], segments[k]);
      assert Bytes("x") == 1;
      assert ValidSegment(segments[k]);
    }
    JoinIsMonotone(common, segments);
  }

  /** When detection means what it says: some path the host accepts matches both templates if and only if a conflict
      is reported, the templates are not empty, and their shortest common path is within the length limit. */
  lemma DetectIsExact(a: Template, b: Template)
    requires LiteralsValid(a) && LiteralsValid(b)
    ensures
      (exists path, segments :: IsPathOf(path, segments) && BothMatch(a, b, segments))
      <==> Detect(a, b) && a != [] && Bytes(Join(CommonPath(a, b))) <= MAX_PATH
  {
    if path, segments :| IsPathOf(path, segments) && BothMatch(a, b, segments) {
      MatchedTogether(a, b, segments);
      CommonPathIsShortest(a, b, segments);
    }
    if Detect(a, b) && a != [] && Bytes(Join(CommonPath(a, b))) <= MAX_PATH {
      CommonPathIsValid(a, b);
      assert IsPathOf(Join(CommonPath(a, b)), CommonPath(a, b));
    }
  }

  /** A template as it is written, which is what the limit on templates counts. */
  function TemplateText(t: Template): string { Join(SegmentTexts(t)) }

  function SegmentTexts(t: Template): seq<string> {
    seq(|t|, k requires 0 <= k < |t| => if t[k].Literal? then t[k].text else "{" + t[k].name + "}")
  }

  function Repeated(c: char, n: nat): string { seq(n, _ => c) }

  lemma RepeatedIsSegment(c: char, n: nat)
    requires 'a' <= c <= 'z' && n >= 3
    ensures ValidSegment(Repeated(c, n)) && Bytes(Repeated(c, n)) == n
  {
    AsciiBytes(Repeated(c, n));
  }

  /** `/x/{p}` and `/{p}/y`. */
  lemma LongLiterals(x: string, y: string)
    requires ValidSegment(x) && ValidSegment(y) && Bytes(x) + Bytes(y) + 2 > MAX_PATH
    ensures
      var a, b := [Literal(x), Param("p")], [Param("p"), Literal(y)];
      && LiteralsValid(a) && LiteralsValid(b) && Detect(a, b)
      && forall path, segments :: !(IsPathOf(path, segments) && BothMatch(a, b, segments))
  {
    var a, b := [Literal(x), Param("p")], [Param("p"), Literal(y)];
    assert CommonPath(a, b) == [x, y];
    TwoSegments(x, y);
    DetectIsExact(a, b);
  }

  lemma LongTexts(x: string, y: string)
    ensures Bytes(TemplateText([Literal(x), Param("p")])) == Bytes(x) + 5
    ensures Bytes(TemplateText([Param("p"), Literal(y)])) == Bytes(y) + 5
  {
    AsciiBytes("{p}");
    assert "{" + "p" + "}" == "{p}";
    TwoSegments(x, "{p}");
    TwoSegments("{p}", y);
    assert SegmentTexts([Literal(x), Param("p")]) == [x, "{p}"];
    assert SegmentTexts([Param("p"), Literal(y)]) == ["{p}", y];
  }

  /** Two templates, each well within its own limit, that are reported as a conflict although no path the host
      accepts matches both. */
  lemma DetectCanBeWrong() returns (a: Template, b: Template)
    ensures LiteralsValid(a) && LiteralsValid(b)
    ensures Bytes(TemplateText(a)) <= MAX_PATH && Bytes(TemplateText(b)) <= MAX_PATH
    ensures Detect(a, b)
    ensures forall path, segments :: !(IsPathOf(path, segments) && BothMatch(a, b, segments))
  {
    var x, y := Repeated('a', 4000), Repeated('b', 4000);
    RepeatedIsSegment('a', 4000);
    RepeatedIsSegment('b', 4000);
    LongLiterals(x, y);
    LongTexts(x, y);
    a, b := [Literal(x), Param("p")], [Param("p"), Literal(y)];
  }

  lemma TwoSegments(x: string, y: string)
    ensures Bytes(Join([x, y])) == 2 + Bytes(x) + Bytes(y)
  {
    JoinBytes([x, y]);
    JoinBytes([y]);
    assert [x, y][1..] == [y] && [y][1..] == [];
  }

  predicate NoConflicts(routes: seq<Route>) {
    forall i, j :: 0 <= i < j < |routes| && routes[i].verb == routes[j].verb ==>
      !Detect(routes[i].path, routes[j].path)
  }

  /** The quadratic check over a declaration. */
  method CheckConflicts(routes: seq<Route>) returns (ok: bool)
    ensures ok <==> NoConflicts(routes)
  {
    for i := 0 to |routes|
      invariant forall p, q :: 0 <= p < i && p < q < |routes| && routes[p].verb == routes[q].verb ==>
        !Detect(routes[p].path, routes[q].path)
    {
      for j := i + 1 to |routes|
        invariant forall q :: i < q < j && routes[i].verb == routes[q].verb ==> !Detect(routes[i].path, routes[q].path)
      {
        if routes[i].verb == routes[j].verb && Detect(routes[i].path, routes[j].path) { return false; }
      }
    }
    ok := true;
  }

  ghost predicate Overlap(a: Template, b: Template) {
    exists segments :: BothMatch(a, b, segments) && forall k :: 0 <= k < |segments| ==> ValidSegment(segments[k])
  }

  /** A declaration is free of conflicts exactly when no two of its routes with the same method can be matched by the same
      valid segments; routes of different methods never conflict. */
  lemma NoConflictsExactly(routes: seq<Route>)
    requires forall i :: 0 <= i < |routes| ==> LiteralsValid(routes[i].path)
    ensures NoConflicts(routes) <==>
              forall i, j :: 0 <= i < j < |routes| && routes[i].verb == routes[j].verb ==>
                !Overlap(routes[i].path, routes[j].path)
  {
    forall i, j | 0 <= i < j < |routes|
      ensures Detect(routes[i].path, routes[j].path) <==> Overlap(routes[i].path, routes[j].path)
    {
      DetectIsExactOnSegments(routes[i].path, routes[j].path);
    }
  }

  /** In a declaration without conflicts a path matches at most one route of a method. */
  lemma AtMostOneMatch(routes: seq<Route>, i: nat, j: nat, segments: seq<string>)
    requires NoConflicts(routes) && i < |routes| && j < |routes|
    requires routes[i].verb == routes[j].verb
    requires Matches(routes[i].path, segments) && Matches(routes[j].path, segments)
    ensures i == j
  {
  }

  // ---- captured values and typed parameters ----

  predicate ParamNamesUnique(t: Template) {
    forall i, j :: 0 <= i < j < |t| && t[i].Param? && t[j].Param? ==> t[i].name != t[j].name
  }

  /** A route whose declared parameters are exactly those of its template, each once. */
  predicate RouteOk(r: Route) {
    && LiteralsValid(r.path) && ParamNamesUnique(r.path)
    && (forall i, j :: 0 <= i < j < |r.params| ==> r.params[i].name != r.params[j].name)
    && (forall k :: 0 <= k < |r.path| && r.path[k].Param? ==> Declares(r, r.path[k].name))
    && (forall p :: 0 <= p < |r.params| ==> PositionOf(r.path, r.params[p].name) < |r.path|)
  }

  predicate Declares(r: Route, name: string) { exists p :: 0 <= p < |r.params| && r.params[p].name == name }

  /** Where a parameter stands in the template, or the template's length. */
  function PositionOf(t: Template, name: string): (k: nat)
    ensures k <= |t|
    ensures k < |t| ==> t[k] == Param(name)
    ensures forall j :: 0 <= j < k ==> t[j] != Param(name)
  {
    if t == [] then 0
    else if t[0] == Param(name) then 0
    else
      var k := PositionOf(t[1..], name);
      assert forall j :: 0 < j < k + 1 ==> t[j] == t[1..][j - 1];
      k + 1
  }

  /** The captured values: each parameter of the template with the segment it stands at. */
  ghost predicate Captures(t: Template, segments: seq<string>, captured: map<string, string>)
    requires |t| == |segments|
  {
    forall name :: if PositionOf(t, name) < |t| then name in captured && captured[name] == segments[PositionOf(t, name)]
                   else name !in captured
  }

  method MatchTemplate(t: Template, segments: seq<string>) returns (r: Option<map<string, string>>)
    requires ParamNamesUnique(t)
    ensures r.Some? <==> Matches(t, segments)
    ensures r.Some? ==> Captures(t, segments, r.value)
  {
    if |t| != |segments| { return None; }
    var captured: map<string, string> := map[];
    for k := 0 to |t|
      invariant forall j :: 0 <= j < k ==> SegmentMatches(t[j], segments[j])
      invariant forall name :: name in captured <==> PositionOf(t, name) < k
      invariant forall name :: name in captured ==> captured[name] == segments[PositionOf(t, name)]
    {
      match t[k] {
        case Literal(text) => if text != segments[k] { return None; }
        case Param(name) =>
          assert PositionOf(t, name) == k;
          captured := captured[name := segments[k]];
      }
    }
    r := Some(captured);
  }

  datatype RouteError = BadPath | NotMatched | InvalidParamValue(name: string)

  /** The value of each declared parameter, in declaration order. */
  ghost predicate Typed(route: Route, segments: seq<string>, params: seq<TypedParam>) {
    && |params| == |route.params|
    && forall p :: 0 <= p < |params| ==> TypedAt(route, segments, p, params[p])
  }

  ghost predicate TypedAt(route: Route, segments: seq<string>, p: nat, param: TypedParam)
    requires p < |route.params|
  {
    var declared := route.params[p];
    var k := PositionOf(route.path, declared.name);
    k < |segments| && param.name == declared.name && Reads(declared.valueType, segments[k], param.value)
  }

  ghost predicate BadAt(route: Route, segments: seq<string>, p: nat)
    requires p < |route.params|
  {
    var k := PositionOf(route.path, route.params[p].name);
    k < |segments| && forall v :: !Reads(route.params[p].valueType, segments[k], v)
  }

  /** The first declared parameter whose segment is no value of its type. */
  ghost predicate FirstBadAt(route: Route, segments: seq<string>, p: nat)
    requires p < |route.params|
  {
    BadAt(route, segments, p) && forall q :: 0 <= q < p ==> !BadAt(route, segments, q)
  }

  method BuildTypedParams(route: Route, ghost segments: seq<string>, captured: map<string, string>)
      returns (r: Result<seq<TypedParam>, RouteError>)
    requires RouteOk(route) && |route.path| == |segments| && Captures(route.path, segments, captured)
    ensures r.Ok? ==> Typed(route, segments, r.value)
    ensures r.Err? ==> exists p :: 0 <= p < |route.params| && FirstBadAt(route, segments, p)
                        && r.error == InvalidParamValue(route.params[p].name)
  {
    var params := [];
    for p := 0 to |route.params|
      invariant |params| == p && forall q :: 0 <= q < p ==> TypedAt(route, segments, q, params[q])
    {
      var declared := route.params[p];
      var value := ParseValue(declared.valueType, captured[declared.name]);
      forall v ensures value == Some(v) <==> Reads(declared.valueType, captured[declared.name], v) {
        ParsesExactly(declared.valueType, captured[declared.name], v);
      }
      if value.None? {
        forall q | 0 <= q < p ensures !BadAt(route, segments, q) { assert TypedAt(route, segments, q, params[q]); }
        assert FirstBadAt(route, segments, p);
        return Err(InvalidParamValue(declared.name));
      }
      params := params + [TypedParam(declared.name, value.value)];
    }
    r := Ok(params);
  }

  // ---- the registry ----

  datatype Resolution = Resolution(routeId: string, params: seq<TypedParam>)

  /** What resolving means, said by the routes alone: neither their order nor any index appears. */
  ghost predicate Resolves(routes: set<Route>, m: Verb, path: string, r: Result<Resolution, RouteError>) {
    if forall segments :: !IsPathOf(path, segments) then r == Err(BadPath)
    else
      exists segments :: IsPathOf(path, segments) &&
        if forall route :: route in routes && route.verb == m ==> !Matches(route.path, segments) then r == Err(NotMatched)
        else exists route :: route in routes && route.verb == m && Matches(route.path, segments)
                             && Answers(route, segments, r)
  }

  ghost predicate Answers(route: Route, segments: seq<string>, r: Result<Resolution, RouteError>) {
    match r
    case Ok(found) => found.routeId == route.id && Typed(route, segments, found.params)
    case Err(e) => exists p :: 0 <= p < |route.params| && FirstBadAt(route, segments, p)
                               && e == InvalidParamValue(route.params[p].name)
  }

  predicate Declaration(routes: seq<Route>) {
    && NoConflicts(routes)
    && (forall i :: 0 <= i < |routes| ==> RouteOk(routes[i]))
    && DistinctIds(routes)
  }

  function RouteSet(routes: seq<Route>): set<Route> { set route | route in routes }

  /** The indexes list each of the first `n` routes under its identifier and its method, and nothing else. */
  predicate IdIndex(routes: seq<Route>, byId: map<string, nat>, n: nat)
    requires n <= |routes|
  {
    && (forall id :: id in byId ==> byId[id] < n && routes[byId[id]].id == id)
    && (forall i :: 0 <= i < n ==> routes[i].id in byId && byId[routes[i].id] == i)
  }

  predicate ListedUnder(routes: seq<Route>, listed: seq<nat>, m: Verb, n: nat)
    requires n <= |routes|
  {
    && (forall k :: 0 <= k < |listed| ==> listed[k] < n && routes[listed[k]].verb == m)
    && (forall i :: 0 <= i < n && routes[i].verb == m ==> i in listed)
  }

  function Candidates(byMethod: map<Verb, seq<nat>>, m: Verb): seq<nat> {
    if m in byMethod then byMethod[m] else []
  }

  predicate MethodIndex(routes: seq<Route>, byMethod: map<Verb, seq<nat>>, n: nat)
    requires n <= |routes|
  {
    forall m: Verb :: ListedUnder(routes, Candidates(byMethod, m), m, n)
  }

  lemma ListOne(routes: seq<Route>, byMethod: map<Verb, seq<nat>>, n: nat)
    requires n < |routes| && MethodIndex(routes, byMethod, n)
    ensures
      var m := routes[n].verb;
      MethodIndex(routes, byMethod[m := Candidates(byMethod, m) + [n]], n + 1)
  {
    var m := routes[n].verb;
    var after := byMethod[m := Candidates(byMethod, m) + [n]];
    forall v: Verb ensures ListedUnder(routes, Candidates(after, v), v, n + 1) {
      assert ListedUnder(routes, Candidates(byMethod, v), v, n);
      if v == m {
        var listed := Candidates(after, v);
        assert listed[|listed| - 1] == n;
      }
    }
  }

  predicate DistinctIds(routes: seq<Route>) {
    forall i, j :: 0 <= i < j < |routes| ==> routes[i].id != routes[j].id
  }

  lemma IndexOne(routes: seq<Route>, byId: map<string, nat>, n: nat)
    requires n < |routes| && DistinctIds(routes) && IdIndex(routes, byId, n)
    ensures IdIndex(routes, byId[routes[n].id := n], n + 1)
  {
  }

  method BuildIndexes(routes: seq<Route>) returns (byId: map<string, nat>, byMethod: map<Verb, seq<nat>>)
    requires DistinctIds(routes)
    ensures IdIndex(routes, byId, |routes|) && MethodIndex(routes, byMethod, |routes|)
  {
    byId, byMethod := map[], map[];
    for index := 0 to |routes|
      invariant IdIndex(routes, byId, index) && MethodIndex(routes, byMethod, index)
    {
      IndexOne(routes, byId, index);
      ListOne(routes, byMethod, index);
      byId := byId[routes[index].id := index];
      var m := routes[index].verb;
      byMethod := byMethod[m := Candidates(byMethod, m) + [index]];
    }
  }

  class RouteRegistry {
    const routes: seq<Route>
    var byId: map<string, nat>
    var byMethod: map<Verb, seq<nat>>

    ghost predicate Valid()
      reads this
    {
      Declaration(routes) && IdIndex(routes, byId, |routes|) && MethodIndex(routes, byMethod, |routes|)
    }

    constructor (declared: seq<Route>)
      requires Declaration(declared)
      ensures Valid() && routes == declared
    {
      routes := declared;
      var ids, methods := BuildIndexes(declared);
      byId, byMethod := ids, methods;
    }

    method RouteById(id: string) returns (r: Option<Route>)
      requires Valid()
      ensures r.Some? ==> r.value in routes && r.value.id == id
      ensures r.None? ==> forall route :: route in routes ==> route.id != id
    {
      r := if id in byId then Some(routes[byId[id]]) else None;
    }

    method Resolve(m: Verb, path: string) returns (r: Result<Resolution, RouteError>)
      requires Valid()
      ensures Resolves(RouteSet(routes), m, path, r)
    {
      var normalized := NormalizeRequestPath(path);
      if normalized.Err? { return Err(BadPath); }
      r := Search(m, path, normalized.value);
    }

    method Search(m: Verb, ghost path: string, segments: seq<string>) returns (r: Result<Resolution, RouteError>)
      requires Valid() && IsPathOf(path, segments)
      ensures Resolves(RouteSet(routes), m, path, r)
    {
      var candidates := Candidates(byMethod, m);
      assert ListedUnder(routes, candidates, m, |routes|);
      for k := 0 to |candidates|
        invariant forall q :: 0 <= q < k ==> !Matches(routes[candidates[q]].path, segments)
      {
        var route := routes[candidates[k]];
        assert RouteOk(route);
        var captured := MatchTemplate(route.path, segments);
        if captured.Some? {
          r := Answer(route, segments, captured.value);
          return;
        }
      }
      r := Err(NotMatched);
    }
  }

  method Answer(route: Route, ghost segments: seq<string>, captured: map<string, string>)
      returns (r: Result<Resolution, RouteError>)
    requires RouteOk(route) && |route.path| == |segments| && Captures(route.path, segments, captured)
    ensures Answers(route, segments, r)
  {
    var params := BuildTypedParams(route, segments, captured);
    r := if params.Ok? then Ok(Resolution(route.id, params.value)) else Err(params.error);
  }

  // ---- resolution is determined by the declaration ----

  lemma TypedOnce(route: Route, segments: seq<string>, a: seq<TypedParam>, b: seq<TypedParam>)
    requires Typed(route, segments, a) && Typed(route, segments, b)
    ensures a == b
  {
    forall p | 0 <= p < |a| ensures a[p] == b[p] {
      assert TypedAt(route, segments, p, a[p]) && TypedAt(route, segments, p, b[p]);
      var k := PositionOf(route.path, route.params[p].name);
      ReadsOnce(route.params[p].valueType, segments[k], a[p].value, b[p].value);
    }
  }

  ghost predicate NoConflictsIn(routes: set<Route>) {
    forall a, b :: a in routes && b in routes && a != b && a.verb == b.verb ==> !Detect(a.path, b.path)
  }

  /** The declaration check compares each pair once; that is enough for every pair. */
  lemma DeclaredRoutesHaveNoConflicts(routes: seq<Route>)
    requires NoConflicts(routes)
    ensures NoConflictsIn(RouteSet(routes))
  {
  }

  /** Whatever resolves a path answers for the route that matches it. */
  lemma TheMatchAnswers(routes: set<Route>, m: Verb, path: string, s: seq<string>, route: Route,
                        r: Result<Resolution, RouteError>)
    requires NoConflictsIn(routes) && Resolves(routes, m, path, r)
    requires IsPathOf(path, s) && route in routes && route.verb == m && Matches(route.path, s)
    ensures Answers(route, s, r)
  {
    forall t | IsPathOf(path, t) ensures t == s { PathHasOneReading(path, s, t); }
    var other :| other in routes && other.verb == m && Matches(other.path, s) && Answers(other, s, r);
  }

  lemma AnswersOnce(route: Route, s: seq<string>, a: Result<Resolution, RouteError>, b: Result<Resolution, RouteError>)
    requires Answers(route, s, a) && Answers(route, s, b)
    ensures a == b
  {
    match (a, b)
    case (Ok(found), Ok(other)) => TypedOnce(route, s, found.params, other.params);
    case (Ok(found), Err(_)) => TypedIsNotRefused(route, s, found.params);
    case (Err(_), Ok(found)) => TypedIsNotRefused(route, s, found.params);
    case (Err(_), Err(_)) =>
      var p :| 0 <= p < |route.params| && FirstBadAt(route, s, p) && a.error == InvalidParamValue(route.params[p].name);
      var q :| 0 <= q < |route.params| && FirstBadAt(route, s, q) && b.error == InvalidParamValue(route.params[q].name);
      assert p == q;
  }

  lemma TypedIsNotRefused(route: Route, s: seq<string>, params: seq<TypedParam>)
    requires Typed(route, s, params)
    ensures forall p :: 0 <= p < |route.params| ==> !FirstBadAt(route, s, p)
  {
    forall p | 0 <= p < |route.params| ensures !BadAt(route, s, p) { TypedIsNotBad(route, s, params, p); }
  }

  lemma TypedIsNotBad(route: Route, s: seq<string>, params: seq<TypedParam>, p: nat)
    requires Typed(route, s, params) && p < |params|
    ensures !BadAt(route, s, p)
  {
    assert TypedAt(route, s, p, params[p]);
  }

  /** A path that matches a route with a text that is no value of its parameter's type is refused, naming the first such
      parameter in declaration order. */
  lemma MalformedIsRefused(routes: set<Route>, m: Verb, path: string, s: seq<string>, route: Route, p: nat,
                           r: Result<Resolution, RouteError>) returns (q: nat)
    requires NoConflictsIn(routes) && Resolves(routes, m, path, r)
    requires IsPathOf(path, s) && route in routes && route.verb == m && Matches(route.path, s)
    requires p < |route.params| && BadAt(route, s, p)
    ensures q <= p && FirstBadAt(route, s, q) && r == Err(InvalidParamValue(route.params[q].name))
  {
    TheMatchAnswers(routes, m, path, s, route, r);
    if r.Ok? {
      TypedIsNotBad(route, s, r.value.params, p);
      assert false;
    }
    q :| 0 <= q < |route.params| && FirstBadAt(route, s, q) && r.error == InvalidParamValue(route.params[q].name);
  }

  predicate SomeMatch(routes: set<Route>, m: Verb, s: seq<string>) {
    exists route :: route in routes && route.verb == m && Matches(route.path, s)
  }

  lemma NoMatchAnswers(routes: set<Route>, m: Verb, path: string, s: seq<string>, r: Result<Resolution, RouteError>)
    requires Resolves(routes, m, path, r) && IsPathOf(path, s) && !SomeMatch(routes, m, s)
    ensures r == Err(NotMatched)
  {
    forall t | IsPathOf(path, t) ensures t == s { PathHasOneReading(path, s, t); }
  }

  /** Resolution has one result, error included, whatever order the routes were declared in. */
  lemma ResolutionIsUnique(routes: set<Route>, m: Verb, path: string, a: Result<Resolution, RouteError>,
                           b: Result<Resolution, RouteError>)
    requires NoConflictsIn(routes) && Resolves(routes, m, path, a) && Resolves(routes, m, path, b)
    ensures a == b
  {
    if s :| IsPathOf(path, s) {
      if SomeMatch(routes, m, s) {
        var route :| route in routes && route.verb == m && Matches(route.path, s);
        TheMatchAnswers(routes, m, path, s, route, a);
        TheMatchAnswers(routes, m, path, s, route, b);
        AnswersOnce(route, s, a, b);
      } else {
        NoMatchAnswers(routes, m, path, s, a);
        NoMatchAnswers(routes, m, path, s, b);
      }
    }
  }

  // ---- rendering and resolving ----

  /** Values for the declared parameters that can stand as segments. */
  predicate Renderable(route: Route, values: seq<ParamValue>) {
    && |values| == |route.params|
    && forall p :: 0 <= p < |values| ==>
         HasType(values[p], route.params[p].valueType) && (values[p].TextValue? ==> ValidSegment(values[p].text))
  }

  function ParamIndex(params: seq<RouteParam>, name: string): (p: nat)
    ensures p <= |params| && (p < |params| ==> params[p].name == name)
    ensures p == |params| ==> forall q :: 0 <= q < |params| ==> params[q].name != name
  {
    if params == [] then 0
    else if params[|params| - 1].name == name then |params| - 1
    else
      var p := ParamIndex(params[..|params| - 1], name);
      if p == |params| - 1 then |params| else p
  }

  function RenderSegment(route: Route, values: seq<ParamValue>, s: Segment): string
    requires |values| == |route.params|
  {
    match s
    case Literal(text) => text
    case Param(name) =>
      var p := ParamIndex(route.params, name);
      if p < |values| then Render(values[p]) else ""
  }

  function RenderSegments(route: Route, values: seq<ParamValue>): seq<string>
    requires |values| == |route.params|
  {
    seq(|route.path|, k requires 0 <= k < |route.path| => RenderSegment(route, values, route.path[k]))
  }

  function TypedParams(route: Route, values: seq<ParamValue>): seq<TypedParam>
    requires |values| == |route.params|
  {
    seq(|values|, p requires 0 <= p < |values| => TypedParam(route.params[p].name, values[p]))
  }

  lemma RenderedSegmentsAreValid(route: Route, values: seq<ParamValue>)
    requires RouteOk(route) && Renderable(route, values)
    ensures Matches(route.path, RenderSegments(route, values))
    ensures forall k :: 0 <= k < |route.path| ==> ValidSegment(RenderSegments(route, values)[k])
  {
    forall k | 0 <= k < |route.path| ensures ValidSegment(RenderSegments(route, values)[k]) {
      if route.path[k].Param? {
        assert Declares(route, route.path[k].name);
        var p := ParamIndex(route.params, route.path[k].name);
        RenderedIsSegment(route.params[p].valueType, values[p]);
      }
    }
  }

  lemma RenderedParamsAreTyped(route: Route, values: seq<ParamValue>)
    requires RouteOk(route) && Renderable(route, values)
    ensures Typed(route, RenderSegments(route, values), TypedParams(route, values))
  {
    var segments, params := RenderSegments(route, values), TypedParams(route, values);
    forall p | 0 <= p < |params| ensures TypedAt(route, segments, p, params[p]) {
      var name := route.params[p].name;
      assert PositionOf(route.path, name) < |route.path|;
      assert ParamIndex(route.params, name) == p;
      RenderThenParse(route.params[p].valueType, values[p]);
      ParsesExactly(route.params[p].valueType, segments[PositionOf(route.path, name)], values[p]);
    }
  }

  const MAX_REQUEST_PARAMS: nat := 64

  predicate TypeOf(v: ParamValue, t: ParamType) {
    match t
    case Text => v.TextValue?
    case Integer => v.IntegerValue?
    case Unsigned => v.UnsignedValue?
    case Boolean => v.BooleanValue?
  }

  /** The parameters agree with the declaration in order, name and type. */
  predicate ParamsAgree(route: Route, params: seq<TypedParam>) {
    && |params| == |route.params|
    && forall p :: 0 <= p < |params| ==>
         params[p].name == route.params[p].name && TypeOf(params[p].value, route.params[p].valueType)
  }

  predicate PassesValidation(route: Route, params: seq<TypedParam>) {
    ParamsAgree(route, params) && |params| <= MAX_REQUEST_PARAMS
  }

  function KindOf(v: ParamValue): ParamType {
    match v
    case TextValue(_) => Text
    case IntegerValue(_) => Integer
    case UnsignedValue(_) => Unsigned
    case BooleanValue(_) => Boolean
  }

  method ValidateRequestParams(route: Route, params: seq<TypedParam>) returns (ok: bool)
    ensures ok <==> PassesValidation(route, params)
    ensures ok <==>
      && |params| <= 64 && |params| == |route.params|
      && forall p :: 0 <= p < |params| ==>
           params[p].name == route.params[p].name && KindOf(params[p].value) == route.params[p].valueType
  {
    if |params| > MAX_REQUEST_PARAMS || |params| != |route.params| { return false; }
    for p := 0 to |params|
      invariant forall q :: 0 <= q < p ==>
        params[q].name == route.params[q].name && TypeOf(params[q].value, route.params[q].valueType)
    {
      if params[p].name != route.params[p].name { return false; }
      if !TypeOf(params[p].value, route.params[p].valueType) { return false; }
    }
    ok := true;
  }

  /** Rendering values into a route's template and resolving gives back that route with exactly those values in
      declaration order; the parameters pass request validation exactly when the route declares no more than the
      host allows in a request. */
  lemma RenderThenResolve(routes: set<Route>, route: Route, values: seq<ParamValue>, r: Result<Resolution, RouteError>)
    requires NoConflictsIn(routes) && route in routes && RouteOk(route) && Renderable(route, values)
    requires route.path != [] && Bytes(Join(RenderSegments(route, values))) <= MAX_PATH
    requires Resolves(routes, route.verb, Join(RenderSegments(route, values)), r)
    ensures r == Ok(Resolution(route.id, TypedParams(route, values)))
    ensures PassesValidation(route, TypedParams(route, values)) <==> |route.params| <= MAX_REQUEST_PARAMS
  {
    var segments := RenderSegments(route, values);
    RenderedAnswer(route, values);
    TheMatchAnswers(routes, route.verb, Join(segments), segments, route, r);
    AnswersOnce(route, segments, Ok(Resolution(route.id, TypedParams(route, values))), r);
    RenderedPasses(route, values);
  }

  lemma RenderedPasses(route: Route, values: seq<ParamValue>)
    requires Renderable(route, values)
    ensures PassesValidation(route, TypedParams(route, values)) <==> |route.params| <= MAX_REQUEST_PARAMS
  {
  }

  /** The route was assembled from this declaration: the same parameters in the same order. */
  predicate AssembledFrom(route: Route, decl: Codec.RouteDecl) {
    && route.id == decl.routeId && |route.params| == |decl.params|
    && forall p :: 0 <= p < |route.params| ==> route.params[p].name == decl.params[p].name
  }

  /** So for the routes of any descriptor the parser accepts, rendered parameters always pass: the limit on declared
      parameters is the limit on request parameters. */
  lemma DeclaredRoutesAlwaysPass(v: Codec.Val, k: nat, route: Route, values: seq<ParamValue>)
    requires Codec.ParseDescriptor(v).Ok? && k < |Codec.ParseDescriptor(v).value.routes|
    requires AssembledFrom(route, Codec.ParseDescriptor(v).value.routes[k]) && Renderable(route, values)
    ensures PassesValidation(route, TypedParams(route, values))
  {
    Codec.ParsedFits(v);
    assert Codec.RouteFits(Codec.ParseDescriptor(v).value.routes[k]);
  }

  lemma RenderedAnswer(route: Route, values: seq<ParamValue>)
    requires RouteOk(route) && Renderable(route, values)
    requires route.path != [] && Bytes(Join(RenderSegments(route, values))) <= MAX_PATH
    ensures
      var segments := RenderSegments(route, values);
      && IsPathOf(Join(segments), segments) && Matches(route.path, segments)
      && Answers(route, segments, Ok(Resolution(route.id, TypedParams(route, values))))
  {
    RenderedSegmentsAreValid(route, values);
    RenderedParamsAreTyped(route, values);
  }

}
