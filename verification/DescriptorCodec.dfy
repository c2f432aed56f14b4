/**
 The app-descriptor codec: component values, the encoder, and the positional parser with its host limits.
 Lengths of text are UTF-8 lengths.
 */
module DescriptorCodec {
  import opened Prelude
  import opened RouteText

  datatype Val =
    | StringVal(text: string)
    | EnumVal(name: string)
    | FlagsVal(names: seq<string>)
    | ListVal(items: seq<Val>)
    | RecordVal(fields: seq<(string, Val)>)
    | OptionVal(payload: Option<Val>)
    | OkVal(payload: Option<Val>)
    | ErrVal(payload: Option<Val>)
    | OtherVal

  datatype ContractError =
    | MissingField(field: string)
    | ShapeMismatch(field: string, expected: string)
    | ValueTooLarge(field: string, limit: nat)

  type Parsed<T> = Result<T, ContractError>

  const MAX_ID: nat := 255
  const MAX_DISPLAY_TEXT: nat := 2048
  const MAX_ASSET_PATH: nat := 4096
  const MAX_PERMISSIONS: nat := 256
  const MAX_PAGES: nat := 512
  const MAX_ROUTES: nat := 1024
  const MAX_ROUTE_PARAMS: nat := 64

  datatype Features = Features(
    staticAssets: bool,
    backendActions: bool,
    navigation: bool,
    typedRoutes: bool,
    permissions: bool)

  datatype Permission = Permission(name: string, description: Option<string>)

  datatype Page = Page(pageId: string, path: string, displayName: Option<string>, required: Option<string>)

  datatype ParamDecl = ParamDecl(name: string, valueType: string)

  datatype RouteDecl = RouteDecl(
    routeId: string,
    verb: string,
    path: string,
    params: seq<ParamDecl>,
    required: Option<string>)

  datatype Descriptor = Descriptor(
    entry: string,
    features: Features,
    displayName: Option<string>,
    permissions: seq<Permission>,
    pages: seq<Page>,
    routes: seq<RouteDecl>,
    defaultPage: Option<string>)

  // ---- the encoder ----

  function Wrapped(text: string): Val { RecordVal([("value", StringVal(text))]) }

  function OptText(text: Option<string>): Val {
    OptionVal(if text.Some? then Some(StringVal(text.value)) else None)
  }

  function OptName(name: Option<string>): Val {
    OptionVal(if name.Some? then Some(Wrapped(name.value)) else None)
  }

  /** The names of the flags that are on. */
  function Flags(flags: seq<(bool, string)>): seq<string> {
    if flags == [] then [] else (if flags[0].0 then [flags[0].1] else []) + Flags(flags[1..])
  }

  function FeatureFlags(f: Features): seq<(bool, string)> {
    [(f.staticAssets, "static-assets"),
     (f.backendActions, "backend-actions"),
     (f.navigation, "navigation"),
     (f.typedRoutes, "typed-routes"),
     (f.permissions, "permissions")]
  }

  function BuildFeatures(f: Features): Val { FlagsVal(Flags(FeatureFlags(f))) }

  function BuildPermission(p: Permission): Val {
    RecordVal([("name", Wrapped(p.name)), ("description", OptText(p.description))])
  }

  function BuildPage(p: Page): Val {
    RecordVal([
      ("page-id", Wrapped(p.pageId)),
      ("path", Wrapped(p.path)),
      ("display-name", OptText(p.displayName)),
      ("required-permission", OptName(p.required))])
  }

  function BuildParam(p: ParamDecl): Val {
    RecordVal([("name", StringVal(p.name)), ("value-type", EnumVal(p.valueType))])
  }

  function BuildRoute(r: RouteDecl): Val {
    RecordVal([
      ("route-id", Wrapped(r.routeId)),
      ("method", EnumVal(r.verb)),
      ("path", Wrapped(r.path)),
      ("params", ListVal(BuildEach(r.params, BuildParam))),
      ("required-permission", OptName(r.required))])
  }

  function BuildEach<T>(items: seq<T>, build: T -> Val): seq<Val> {
    seq(|items|, i requires 0 <= i < |items| => build(items[i]))
  }

  function BuildDescriptor(d: Descriptor): Val {
    OkVal(Some(RecordVal([
      ("entry", Wrapped(d.entry)),
      ("features", BuildFeatures(d.features)),
      ("display-name", OptText(d.displayName)),
      ("permissions", ListVal(BuildEach(d.permissions, BuildPermission))),
      ("pages", ListVal(BuildEach(d.pages, BuildPage))),
      ("routes", ListVal(BuildEach(d.routes, BuildRoute))),
      ("default-page", OptName(d.defaultPage))])))
  }

  // ---- accessors ----

  function AsRecord(v: Val, what: string): Parsed<seq<(string, Val)>> {
    if v.RecordVal? then Ok(v.fields) else Err(ShapeMismatch(what, "record"))
  }

  function AsString(v: Val, what: string): Parsed<string> {
    if v.StringVal? then Ok(v.text) else Err(ShapeMismatch(what, "string"))
  }

  function AsEnum(v: Val, what: string): Parsed<string> {
    if v.EnumVal? then Ok(v.name) else Err(ShapeMismatch(what, "enum"))
  }

  function AsList(v: Val, what: string): Parsed<seq<Val>> {
    if v.ListVal? then Ok(v.items) else Err(ShapeMismatch(what, "list"))
  }

  /** Fields are found by position, and the name is checked as well. */
  function Field(fields: seq<(string, Val)>, index: nat, name: string): Parsed<Val> {
    if index < |fields| && fields[index].0 == name then Ok(fields[index].1) else Err(MissingField(name))
  }

  function Limited(text: string, name: string, limit: nat): Parsed<string> {
    if Bytes(text) > limit then Err(ValueTooLarge(name, limit)) else Ok(text)
  }

  function StringField(fields: seq<(string, Val)>, index: nat, name: string, limit: nat): Parsed<string> {
    var value :- Field(fields, index, name);
    var text :- AsString(value, name);
    Limited(text, name, limit)
  }

  function OptionField(fields: seq<(string, Val)>, index: nat, name: string): Parsed<Option<Val>> {
    var value :- Field(fields, index, name);
    if value.OptionVal? then Ok(value.payload) else Err(ShapeMismatch(name, "option"))
  }

  /** A record that wraps one string. */
  function WrappedField(fields: seq<(string, Val)>, index: nat, name: string, what: string, limit: nat): Parsed<string> {
    var value :- Field(fields, index, name);
    var inner :- AsRecord(value, what);
    StringField(inner, 0, "value", limit)
  }

  function OptTextField(fields: seq<(string, Val)>, index: nat, name: string, what: string): Parsed<Option<string>> {
    var value :- OptionField(fields, index, name);
    if value.None? then Ok(None)
    else
      var text :- AsString(value.value, what);
      var limited :- Limited(text, name, MAX_DISPLAY_TEXT);
      Ok(Some(limited))
  }

  function OptNameField(fields: seq<(string, Val)>, index: nat, name: string, what: string): Parsed<Option<string>> {
    var value :- OptionField(fields, index, name);
    if value.None? then Ok(None)
    else
      var inner :- AsRecord(value.value, what);
      var text :- StringField(inner, 0, "value", MAX_ID);
      Ok(Some(text))
  }

  /** What each reading complains about: a field that is not there under its name, a value of another kind, or a text
      above its limit. */
  lemma ReadingErrors(v: Val, fields: seq<(string, Val)>, index: nat, name: string, what: string, limit: nat, text: string)
    ensures Field(fields, index, name).Err? <==> !(index < |fields| && fields[index].0 == name)
    ensures Field(fields, index, name).Err? ==> Field(fields, index, name) == Err(MissingField(name))
    ensures !v.RecordVal? ==> AsRecord(v, what) == Err(ShapeMismatch(what, "record"))
    ensures !v.StringVal? ==> AsString(v, what) == Err(ShapeMismatch(what, "string"))
    ensures !v.EnumVal? ==> AsEnum(v, what) == Err(ShapeMismatch(what, "enum"))
    ensures !v.ListVal? ==> AsList(v, what) == Err(ShapeMismatch(what, "list"))
    ensures Bytes(text) > limit <==> Limited(text, name, limit) == Err(ValueTooLarge(name, limit))
  {
  }

  // ---- the parser ----

  function ParsePermission(v: Val): Parsed<Permission> {
    var fields :- AsRecord(v, "permission-declaration");
    var name :- WrappedField(fields, 0, "name", "permission-name", MAX_ID);
    var description :- OptTextField(fields, 1, "description", "permission-declaration.description");
    Ok(Permission(name, description))
  }

  function ParsePage(v: Val): Parsed<Page> {
    var fields :- AsRecord(v, "page-declaration");
    var pageId :- WrappedField(fields, 0, "page-id", "page-id", MAX_ID);
    var path :- WrappedField(fields, 1, "path", "page-path", MAX_ASSET_PATH);
    var displayName :- OptTextField(fields, 2, "display-name", "page-declaration.display-name");
    var required :- OptNameField(fields, 3, "required-permission", "permission-name");
    Ok(Page(pageId, path, displayName, required))
  }

  function ParseParam(v: Val): Parsed<ParamDecl> {
    var fields :- AsRecord(v, "route-param");
    var name :- StringField(fields, 0, "name", MAX_ID);
    var value :- Field(fields, 1, "value-type");
    var valueType :- AsEnum(value, "value-type");
    Ok(ParamDecl(name, valueType))
  }

  function ParseRoute(v: Val): Parsed<RouteDecl> {
    var fields :- AsRecord(v, "route-declaration");
    var routeId :- WrappedField(fields, 0, "route-id", "route-id", MAX_ID);
    var verbValue :- Field(fields, 1, "method");
    var verb :- AsEnum(verbValue, "method");
    var path :- WrappedField(fields, 2, "path", "path-template", MAX_ASSET_PATH);
    var paramList :- Field(fields, 3, "params");
    var params :- ParseList(paramList, "params", "params", MAX_ROUTE_PARAMS, ParseParam);
    var required :- OptNameField(fields, 4, "required-permission", "permission-name");
    Ok(RouteDecl(routeId, verb, path, params, required))
  }

  /** The items in order, up to the first that does not parse. */
  function ParseEach<T>(items: seq<Val>, parse: Val -> Parsed<T>): Parsed<seq<T>> {
    if items == [] then Ok([])
    else
      var init :- ParseEach(items[..|items| - 1], parse);
      var last :- parse(items[|items| - 1]);
      Ok(init + [last])
  }

  /** The list limit is checked before any item is looked at. */
  function ParseList<T>(v: Val, what: string, name: string, limit: nat, parse: Val -> Parsed<T>): Parsed<seq<T>> {
    var items :- AsList(v, what);
    if |items| > limit then Err(ValueTooLarge(name, limit)) else ParseEach(items, parse)
  }

  /** The loop of the list parsers: it pushes each parsed item and returns at the first error. */
  method ParseItems<T>(v: Val, what: string, name: string, limit: nat, parse: Val -> Parsed<T>)
      returns (r: Parsed<seq<T>>)
    ensures r == ParseList(v, what, name, limit, parse)
  {
    if !v.ListVal? { return Err(ShapeMismatch(what, "list")); }
    if |v.items| > limit { return Err(ValueTooLarge(name, limit)); }
    var parsed: seq<T> := [];
    for k := 0 to |v.items|
      invariant ParseEach(v.items[..k], parse) == Ok(parsed)
    {
      assert v.items[..k + 1][..k] == v.items[..k];
      var one := parse(v.items[k]);
      if one.Err? {
        ErrorIsFirst(v.items, parse, k + 1);
        return Err(one.error);
      }
      parsed := parsed + [one.value];
    }
    assert v.items[..|v.items|] == v.items;
    r := Ok(parsed);
  }

  lemma {:induction false} ErrorIsFirst<T>(items: seq<Val>, parse: Val -> Parsed<T>, k: nat)
    requires k <= |items| && ParseEach(items[..k], parse).Err?
    ensures ParseEach(items, parse) == ParseEach(items[..k], parse)
  {
    if k < |items| {
      assert items[..|items| - 1][..k] == items[..k];
      ErrorIsFirst(items[..|items| - 1], parse, k);
    } else {
      assert items[..k] == items;
    }
  }

  function ParseFeatures(v: Val): Parsed<Features> {
    if !v.FlagsVal? then Err(ShapeMismatch("app-features", "flags"))
    else
      Ok(Features("static-assets" in v.names, "backend-actions" in v.names, "navigation" in v.names,
                  "typed-routes" in v.names, "permissions" in v.names))
  }

  datatype Declarations = Declarations(permissions: seq<Permission>, pages: seq<Page>, routes: seq<RouteDecl>)

  function ParseDeclarations(fields: seq<(string, Val)>): Parsed<Declarations> {
    var permissionList :- Field(fields, 3, "permissions");
    var permissions :-
      ParseList(permissionList, "permission-declaration list", "permissions", MAX_PERMISSIONS, ParsePermission);
    var pageList :- Field(fields, 4, "pages");
    var pages :- ParseList(pageList, "page-declaration list", "pages", MAX_PAGES, ParsePage);
    var routeList :- Field(fields, 5, "routes");
    var routes :- ParseList(routeList, "route-declaration list", "routes", MAX_ROUTES, ParseRoute);
    Ok(Declarations(permissions, pages, routes))
  }

  function ParseDescriptor(v: Val): Parsed<Descriptor> {
    if !(v.OkVal? && v.payload.Some?) then Err(ShapeMismatch("get-app-descriptor", "result with Ok payload"))
    else
      var fields :- AsRecord(v.payload.value, "app-descriptor");
      var entry :- WrappedField(fields, 0, "entry", "asset-path", MAX_ASSET_PATH);
      var featuresValue :- Field(fields, 1, "features");
      var features :- ParseFeatures(featuresValue);
      var displayName :- OptTextField(fields, 2, "display-name", "app-descriptor.display-name");
      var declared :- ParseDeclarations(fields);
      var defaultPage :- OptNameField(fields, 6, "default-page", "page-id");
      Ok(Descriptor(entry, features, displayName, declared.permissions, declared.pages, declared.routes, defaultPage))
  }

  // ---- the limits ----

  predicate IdFits(s: string) { Bytes(s) <= MAX_ID }

  predicate OptIdFits(s: Option<string>) { s.Some? ==> IdFits(s.value) }

  predicate OptTextFits(s: Option<string>) { s.Some? ==> Bytes(s.value) <= MAX_DISPLAY_TEXT }

  predicate PermissionFits(p: Permission) { IdFits(p.name) && OptTextFits(p.description) }

  predicate PageFits(p: Page) {
    IdFits(p.pageId) && Bytes(p.path) <= MAX_ASSET_PATH && OptTextFits(p.displayName) && OptIdFits(p.required)
  }

  predicate ParamFits(p: ParamDecl) { IdFits(p.name) }

  predicate RouteFits(r: RouteDecl) {
    && IdFits(r.routeId) && Bytes(r.path) <= MAX_ASSET_PATH && OptIdFits(r.required)
    && |r.params| <= MAX_ROUTE_PARAMS && forall k :: 0 <= k < |r.params| ==> ParamFits(r.params[k])
  }

  predicate DeclarationsFit(d: Declarations) {
    && |d.permissions| <= MAX_PERMISSIONS && (forall k :: 0 <= k < |d.permissions| ==> PermissionFits(d.permissions[k]))
    && |d.pages| <= MAX_PAGES && (forall k :: 0 <= k < |d.pages| ==> PageFits(d.pages[k]))
    && |d.routes| <= MAX_ROUTES && (forall k :: 0 <= k < |d.routes| ==> RouteFits(d.routes[k]))
  }

  predicate Fits(d: Descriptor) {
    && Bytes(d.entry) <= MAX_ASSET_PATH && OptTextFits(d.displayName) && OptIdFits(d.defaultPage)
    && DeclarationsFit(Declarations(d.permissions, d.pages, d.routes))
  }

  // ---- the grammar ----

  /** A record whose first fields have these names, in this order. */
  predicate FieldsAre(v: Val, names: seq<string>) {
    v.RecordVal? && |v.fields| >= |names| && forall k :: 0 <= k < |names| ==> v.fields[k].0 == names[k]
  }

  predicate IsWrapped(v: Val, text: string) { FieldsAre(v, ["value"]) && v.fields[0].1 == StringVal(text) }

  predicate IsOptText(v: Val, text: Option<string>) {
    v.OptionVal? && v.payload == if text.Some? then Some(StringVal(text.value)) else None
  }

  predicate IsOptName(v: Val, name: Option<string>) {
    v.OptionVal? && if name.Some? then v.payload.Some? && IsWrapped(v.payload.value, name.value) else v.payload.None?
  }

  predicate IsPermission(v: Val, p: Permission) {
    FieldsAre(v, ["name", "description"]) && IsWrapped(v.fields[0].1, p.name) && IsOptText(v.fields[1].1, p.description)
  }

  predicate IsPage(v: Val, p: Page) {
    && FieldsAre(v, ["page-id", "path", "display-name", "required-permission"])
    && IsWrapped(v.fields[0].1, p.pageId) && IsWrapped(v.fields[1].1, p.path)
    && IsOptText(v.fields[2].1, p.displayName) && IsOptName(v.fields[3].1, p.required)
  }

  predicate IsParam(v: Val, p: ParamDecl) {
    FieldsAre(v, ["name", "value-type"]) && v.fields[0].1 == StringVal(p.name) && v.fields[1].1 == EnumVal(p.valueType)
  }

  predicate IsRoute(v: Val, r: RouteDecl) {
    && FieldsAre(v, ["route-id", "method", "path", "params", "required-permission"])
    && IsWrapped(v.fields[0].1, r.routeId) && v.fields[1].1 == EnumVal(r.verb) && IsWrapped(v.fields[2].1, r.path)
    && (v.fields[3].1.ListVal? && |v.fields[3].1.items| == |r.params|
        && forall k :: 0 <= k < |r.params| ==> IsParam(v.fields[3].1.items[k], r.params[k]))
    && IsOptName(v.fields[4].1, r.required)
  }

  predicate IsFeatures(v: Val, f: Features) {
    && v.FlagsVal?
    && (f.staticAssets <==> "static-assets" in v.names) && (f.backendActions <==> "backend-actions" in v.names)
    && (f.navigation <==> "navigation" in v.names) && (f.typedRoutes <==> "typed-routes" in v.names)
    && (f.permissions <==> "permissions" in v.names)
  }

  predicate IsList<T>(v: Val, items: seq<T>, isOne: (Val, T) -> bool) {
    v.ListVal? && |v.items| == |items| && forall k :: 0 <= k < |items| ==> isOne(v.items[k], items[k])
  }

  predicate IsDescriptor(v: Val, d: Descriptor) {
    && v.OkVal? && v.payload.Some?
    && var record := v.payload.value;
       && FieldsAre(record, ["entry", "features", "display-name", "permissions", "pages", "routes", "default-page"])
       && IsWrapped(record.fields[0].1, d.entry) && IsFeatures(record.fields[1].1, d.features)
       && IsOptText(record.fields[2].1, d.displayName)
       && IsList(record.fields[3].1, d.permissions, IsPermission) && IsList(record.fields[4].1, d.pages, IsPage)
       && IsList(record.fields[5].1, d.routes, IsRoute) && IsOptName(record.fields[6].1, d.defaultPage)
  }

  lemma {:induction false} ParseEachExactly<T>(items: seq<Val>, parse: Val -> Parsed<T>, xs: seq<T>)
    ensures ParseEach(items, parse) == Ok(xs) <==>
              |xs| == |items| && forall k :: 0 <= k < |items| ==> parse(items[k]) == Ok(xs[k])
    decreases |items|
  {
    if items != [] && xs != [] {
      var init, last := items[..|items| - 1], xs[..|xs| - 1];
      ParseEachExactly(init, parse, last);
      assert xs == last + [xs[|xs| - 1]];
    }
  }

  lemma PermissionExactly(v: Val, p: Permission)
    ensures ParsePermission(v) == Ok(p) <==> IsPermission(v, p) && PermissionFits(p)
  {
  }

  lemma PageExactly(v: Val, p: Page)
    ensures ParsePage(v) == Ok(p) <==> IsPage(v, p) && PageFits(p)
  {
  }

  lemma ParamExactly(v: Val, p: ParamDecl)
    ensures ParseParam(v) == Ok(p) <==> IsParam(v, p) && ParamFits(p)
  {
  }

  lemma ListExactly<T>(v: Val, what: string, name: string, limit: nat, parse: Val -> Parsed<T>, xs: seq<T>)
    ensures ParseList(v, what, name, limit, parse) == Ok(xs) <==>
              && v.ListVal? && |v.items| == |xs| <= limit
              && forall k :: 0 <= k < |xs| ==> parse(v.items[k]) == Ok(xs[k])
  {
    if v.ListVal? { ParseEachExactly(v.items, parse, xs); }
  }

  predicate At(fields: seq<(string, Val)>, index: nat, name: string) { index < |fields| && fields[index].0 == name }

  lemma WrappedExactly(fields: seq<(string, Val)>, index: nat, name: string, what: string, limit: nat, text: string)
    ensures WrappedField(fields, index, name, what, limit) == Ok(text) <==>
              At(fields, index, name) && IsWrapped(fields[index].1, text) && Bytes(text) <= limit
  {
  }

  lemma OptTextExactly(fields: seq<(string, Val)>, index: nat, name: string, what: string, text: Option<string>)
    ensures OptTextField(fields, index, name, what) == Ok(text) <==>
              At(fields, index, name) && IsOptText(fields[index].1, text) && OptTextFits(text)
  {
  }

  lemma OptNameExactly(fields: seq<(string, Val)>, index: nat, name: string, what: string, text: Option<string>)
    ensures OptNameField(fields, index, name, what) == Ok(text) <==>
              At(fields, index, name) && IsOptName(fields[index].1, text) && OptIdFits(text)
  {
  }

  lemma FieldsByName(v: Val, names: seq<string>)
    ensures FieldsAre(v, names) <==> v.RecordVal? && forall k :: 0 <= k < |names| ==> At(v.fields, k, names[k])
  {
    if v.RecordVal? && (forall k :: 0 <= k < |names| ==> At(v.fields, k, names[k])) && names != [] {
      assert At(v.fields, |names| - 1, names[|names| - 1]);
    }
  }

  lemma RouteExactly(v: Val, r: RouteDecl)
    ensures ParseRoute(v) == Ok(r) <==> IsRoute(v, r) && RouteFits(r)
  {
    FieldsByName(v, ["route-id", "method", "path", "params", "required-permission"]);
    if v.RecordVal? {
      WrappedExactly(v.fields, 0, "route-id", "route-id", MAX_ID, r.routeId);
      WrappedExactly(v.fields, 2, "path", "path-template", MAX_ASSET_PATH, r.path);
      OptNameExactly(v.fields, 4, "required-permission", "permission-name", r.required);
      if At(v.fields, 3, "params") {
        ListExactly(v.fields[3].1, "params", "params", MAX_ROUTE_PARAMS, ParseParam, r.params);
        if v.fields[3].1.ListVal? {
          forall k | 0 <= k < |r.params| && k < |v.fields[3].1.items|
            ensures ParseParam(v.fields[3].1.items[k]) == Ok(r.params[k]) <==>
                      IsParam(v.fields[3].1.items[k], r.params[k]) && ParamFits(r.params[k])
          {
            ParamExactly(v.fields[3].1.items[k], r.params[k]);
          }
        }
      }
    }
  }

  lemma PermissionListExactly(v: Val, xs: seq<Permission>)
    ensures ParseList(v, "permission-declaration list", "permissions", MAX_PERMISSIONS, ParsePermission) == Ok(xs) <==>
              IsList(v, xs, IsPermission) && |xs| <= MAX_PERMISSIONS
              && forall k :: 0 <= k < |xs| ==> PermissionFits(xs[k])
  {
    ListExactly(v, "permission-declaration list", "permissions", MAX_PERMISSIONS, ParsePermission, xs);
    forall x: Val, p ensures ParsePermission(x) == Ok(p) <==> IsPermission(x, p) && PermissionFits(p) {
      PermissionExactly(x, p);
    }
  }

  lemma PageListExactly(v: Val, xs: seq<Page>)
    ensures ParseList(v, "page-declaration list", "pages", MAX_PAGES, ParsePage) == Ok(xs) <==>
              IsList(v, xs, IsPage) && |xs| <= MAX_PAGES && forall k :: 0 <= k < |xs| ==> PageFits(xs[k])
  {
    ListExactly(v, "page-declaration list", "pages", MAX_PAGES, ParsePage, xs);
    forall x: Val, p ensures ParsePage(x) == Ok(p) <==> IsPage(x, p) && PageFits(p) { PageExactly(x, p); }
  }

  lemma RouteListExactly(v: Val, xs: seq<RouteDecl>)
    ensures ParseList(v, "route-declaration list", "routes", MAX_ROUTES, ParseRoute) == Ok(xs) <==>
              IsList(v, xs, IsRoute) && |xs| <= MAX_ROUTES && forall k :: 0 <= k < |xs| ==> RouteFits(xs[k])
  {
    ListExactly(v, "route-declaration list", "routes", MAX_ROUTES, ParseRoute, xs);
    forall x: Val, r ensures ParseRoute(x) == Ok(r) <==> IsRoute(x, r) && RouteFits(r) { RouteExactly(x, r); }
  }

  lemma DeclarationsExactly(fields: seq<(string, Val)>, d: Declarations)
    ensures ParseDeclarations(fields) == Ok(d) <==>
              && At(fields, 3, "permissions") && IsList(fields[3].1, d.permissions, IsPermission)
              && At(fields, 4, "pages") && IsList(fields[4].1, d.pages, IsPage)
              && At(fields, 5, "routes") && IsList(fields[5].1, d.routes, IsRoute)
              && DeclarationsFit(d)
  {
    if At(fields, 3, "permissions") { PermissionListExactly(fields[3].1, d.permissions); }
    if At(fields, 4, "pages") { PageListExactly(fields[4].1, d.pages); }
    if At(fields, 5, "routes") { RouteListExactly(fields[5].1, d.routes); }
  }

  predicate DescriptorFields(fields: seq<(string, Val)>, d: Descriptor) {
    && At(fields, 0, "entry") && IsWrapped(fields[0].1, d.entry)
    && At(fields, 1, "features") && IsFeatures(fields[1].1, d.features)
    && At(fields, 2, "display-name") && IsOptText(fields[2].1, d.displayName)
    && At(fields, 3, "permissions") && IsList(fields[3].1, d.permissions, IsPermission)
    && At(fields, 4, "pages") && IsList(fields[4].1, d.pages, IsPage)
    && At(fields, 5, "routes") && IsList(fields[5].1, d.routes, IsRoute)
    && At(fields, 6, "default-page") && IsOptName(fields[6].1, d.defaultPage)
  }

  lemma DescriptorByName(v: Val, d: Descriptor)
    ensures IsDescriptor(v, d) <==>
              v.OkVal? && v.payload.Some? && v.payload.value.RecordVal? && DescriptorFields(v.payload.value.fields, d)
  {
    var names := ["entry", "features", "display-name", "permissions", "pages", "routes", "default-page"];
    if v.OkVal? && v.payload.Some? { FieldsByName(v.payload.value, names); }
  }

  lemma RecordExactly(fields: seq<(string, Val)>, d: Descriptor)
    ensures ParseDescriptor(OkVal(Some(RecordVal(fields)))) == Ok(d) <==> DescriptorFields(fields, d) && Fits(d)
  {
    WrappedExactly(fields, 0, "entry", "asset-path", MAX_ASSET_PATH, d.entry);
    OptTextExactly(fields, 2, "display-name", "app-descriptor.display-name", d.displayName);
    OptNameExactly(fields, 6, "default-page", "page-id", d.defaultPage);
    DeclarationsExactly(fields, Declarations(d.permissions, d.pages, d.routes));
  }

  /** The parser accepts exactly the values of the grammar, field names and positions included, that are within the host
      limits, and reads each as what the grammar says it is. */
  lemma ParserIsGrammar(v: Val, d: Descriptor)
    ensures ParseDescriptor(v) == Ok(d) <==> IsDescriptor(v, d) && Fits(d)
  {
    DescriptorByName(v, d);
    if v.OkVal? && v.payload.Some? && v.payload.value.RecordVal? { RecordExactly(v.payload.value.fields, d); }
  }

  /** Either the value or the complaint that something is too large. */
  predicate Faithful<T(==)>(r: Parsed<T>, value: T, fits: bool) {
    if fits then r == Ok(value) else r.Err? && r.error.ValueTooLarge?
  }

  // ---- encoding, then parsing ----

  lemma WrappedRoundTrip(fields: seq<(string, Val)>, index: nat, name: string, what: string, limit: nat, text: string)
    requires index < |fields| && fields[index] == (name, Wrapped(text))
    ensures Faithful(WrappedField(fields, index, name, what, limit), text, Bytes(text) <= limit)
  {
  }

  lemma OptTextRoundTrip(fields: seq<(string, Val)>, index: nat, name: string, what: string, text: Option<string>)
    requires index < |fields| && fields[index] == (name, OptText(text))
    ensures Faithful(OptTextField(fields, index, name, what), text, OptTextFits(text))
  {
  }

  lemma OptNameRoundTrip(fields: seq<(string, Val)>, index: nat, name: string, what: string, text: Option<string>)
    requires index < |fields| && fields[index] == (name, OptName(text))
    ensures Faithful(OptNameField(fields, index, name, what), text, OptIdFits(text))
  {
  }

  lemma {:induction false} FlagsMember(flags: seq<(bool, string)>, name: string)
    ensures name in Flags(flags) <==> exists k :: 0 <= k < |flags| && flags[k] == (true, name)
  {
    if flags != [] {
      FlagsMember(flags[1..], name);
      assert flags == [flags[0]] + flags[1..];
      assert (true, name) in flags <==> flags[0] == (true, name) || (true, name) in flags[1..];
      assert name in Flags(flags) <==> (flags[0].0 && flags[0].1 == name) || name in Flags(flags[1..]);
    }
  }

  /** With different names, each flag is in the list exactly when it is on. */
  lemma FlagsTellApart(flags: seq<(bool, string)>, k: nat)
    requires k < |flags| && forall i, j :: 0 <= i < j < |flags| ==> flags[i].1 != flags[j].1
    ensures flags[k].1 in Flags(flags) <==> flags[k].0
  {
    FlagsMember(flags, flags[k].1);
    if flags[k].0 {
      assert flags[k] == (true, flags[k].1);
    } else {
      forall j | 0 <= j < |flags| && flags[j].1 == flags[k].1 ensures j == k {
      }
    }
  }

  lemma FeaturesRoundTrip(f: Features)
    ensures ParseFeatures(BuildFeatures(f)) == Ok(f)
  {
    var flags := FeatureFlags(f);
    FlagNamesDiffer();
    forall k | 0 <= k < |flags| ensures flags[k].1 in Flags(flags) <==> flags[k].0 { FlagsTellApart(flags, k); }
    assert flags[0].1 in Flags(flags) <==> f.staticAssets;
    assert flags[1].1 in Flags(flags) <==> f.backendActions;
    assert flags[2].1 in Flags(flags) <==> f.navigation;
    assert flags[3].1 in Flags(flags) <==> f.typedRoutes;
    assert flags[4].1 in Flags(flags) <==> f.permissions;
  }

  lemma FlagNamesDiffer()
    ensures "static-assets" != "backend-actions" && "static-assets" != "navigation" && "static-assets" != "typed-routes"
    ensures "static-assets" != "permissions" && "backend-actions" != "navigation" && "backend-actions" != "typed-routes"
    ensures "backend-actions" != "permissions" && "navigation" != "typed-routes" && "navigation" != "permissions"
    ensures "typed-routes" != "permissions"
  {
  }

  lemma PermissionRoundTrip(p: Permission)
    ensures Faithful(ParsePermission(BuildPermission(p)), p, PermissionFits(p))
  {
  }

  lemma PageRoundTrip(p: Page)
    ensures Faithful(ParsePage(BuildPage(p)), p, PageFits(p))
  {
  }

  lemma ParamRoundTrip(p: ParamDecl)
    ensures Faithful(ParseParam(BuildParam(p)), p, ParamFits(p))
  {
  }

  /** Item by item, a list parses to what was encoded exactly when every item fits. */
  lemma {:induction false} EachRoundTrip<T>(items: seq<T>, build: T -> Val, parse: Val -> Parsed<T>, fits: T -> bool)
    requires forall k :: 0 <= k < |items| ==> Faithful(parse(build(items[k])), items[k], fits(items[k]))
    ensures Faithful(ParseEach(BuildEach(items, build), parse), items, forall k :: 0 <= k < |items| ==> fits(items[k]))
  {
    if items != [] {
      var init, last := items[..|items| - 1], items[|items| - 1];
      EachRoundTrip(init, build, parse, fits);
      assert BuildEach(items, build)[..|items| - 1] == BuildEach(init, build);
      assert items == init + [last];
      assert forall k :: 0 <= k < |init| ==> init[k] == items[k];
    }
  }

  lemma ListRoundTrip<T>(items: seq<T>, what: string, name: string, limit: nat, build: T -> Val,
                         parse: Val -> Parsed<T>, fits: T -> bool)
    requires forall k :: 0 <= k < |items| ==> Faithful(parse(build(items[k])), items[k], fits(items[k]))
    ensures Faithful(ParseList(ListVal(BuildEach(items, build)), what, name, limit, parse), items,
                     |items| <= limit && forall k :: 0 <= k < |items| ==> fits(items[k]))
  {
    EachRoundTrip(items, build, parse, fits);
  }

  lemma RouteRoundTrip(r: RouteDecl)
    ensures Faithful(ParseRoute(BuildRoute(r)), r, RouteFits(r))
  {
    var fields := BuildRoute(r).fields;
    WrappedRoundTrip(fields, 0, "route-id", "route-id", MAX_ID, r.routeId);
    WrappedRoundTrip(fields, 2, "path", "path-template", MAX_ASSET_PATH, r.path);
    forall k | 0 <= k < |r.params|
      ensures Faithful(ParseParam(BuildParam(r.params[k])), r.params[k], ParamFits(r.params[k]))
    {
      ParamRoundTrip(r.params[k]);
    }
    ListRoundTrip(r.params, "params", "params", MAX_ROUTE_PARAMS, BuildParam, ParseParam, ParamFits);
    OptNameRoundTrip(fields, 4, "required-permission", "permission-name", r.required);
  }

  lemma PermissionsRoundTrip(items: seq<Permission>)
    ensures Faithful(
      ParseList(ListVal(BuildEach(items, BuildPermission)), "permission-declaration list", "permissions",
                MAX_PERMISSIONS, ParsePermission),
      items, |items| <= MAX_PERMISSIONS && forall k :: 0 <= k < |items| ==> PermissionFits(items[k]))
  {
    forall k | 0 <= k < |items|
      ensures Faithful(ParsePermission(BuildPermission(items[k])), items[k], PermissionFits(items[k]))
    {
      PermissionRoundTrip(items[k]);
    }
    ListRoundTrip(items, "permission-declaration list", "permissions", MAX_PERMISSIONS, BuildPermission,
                  ParsePermission, PermissionFits);
  }

  lemma PagesRoundTrip(items: seq<Page>)
    ensures Faithful(
      ParseList(ListVal(BuildEach(items, BuildPage)), "page-declaration list", "pages", MAX_PAGES, ParsePage),
      items, |items| <= MAX_PAGES && forall k :: 0 <= k < |items| ==> PageFits(items[k]))
  {
    forall k | 0 <= k < |items| ensures Faithful(ParsePage(BuildPage(items[k])), items[k], PageFits(items[k])) {
      PageRoundTrip(items[k]);
    }
    ListRoundTrip(items, "page-declaration list", "pages", MAX_PAGES, BuildPage, ParsePage, PageFits);
  }

  lemma RoutesRoundTrip(items: seq<RouteDecl>)
    ensures Faithful(
      ParseList(ListVal(BuildEach(items, BuildRoute)), "route-declaration list", "routes", MAX_ROUTES, ParseRoute),
      items, |items| <= MAX_ROUTES && forall k :: 0 <= k < |items| ==> RouteFits(items[k]))
  {
    forall k | 0 <= k < |items| ensures Faithful(ParseRoute(BuildRoute(items[k])), items[k], RouteFits(items[k])) {
      RouteRoundTrip(items[k]);
    }
    ListRoundTrip(items, "route-declaration list", "routes", MAX_ROUTES, BuildRoute, ParseRoute, RouteFits);
  }

  lemma DeclarationsRoundTrip(d: Descriptor)
    ensures
      var declared := Declarations(d.permissions, d.pages, d.routes);
      Faithful(ParseDeclarations(BuildDescriptor(d).payload.value.fields), declared, DeclarationsFit(declared))
  {
    PermissionsRoundTrip(d.permissions);
    PagesRoundTrip(d.pages);
    RoutesRoundTrip(d.routes);
  }

  /** Parsing an encoded descriptor gives the descriptor back exactly when all its lists and strings are within
      the host limits, and is refused as too large otherwise. */
  lemma DescriptorRoundTrip(d: Descriptor)
    ensures Fits(d) ==> ParseDescriptor(BuildDescriptor(d)) == Ok(d)
    ensures !Fits(d) ==>
      ParseDescriptor(BuildDescriptor(d)).Err? && ParseDescriptor(BuildDescriptor(d)).error.ValueTooLarge?
  {
    var fields := BuildDescriptor(d).payload.value.fields;
    WrappedRoundTrip(fields, 0, "entry", "asset-path", MAX_ASSET_PATH, d.entry);
    FeaturesRoundTrip(d.features);
    OptTextRoundTrip(fields, 2, "display-name", "app-descriptor.display-name", d.displayName);
    assert Field(fields, 1, "features") == Ok(BuildFeatures(d.features));
    DeclarationsRoundTrip(d);
    OptNameRoundTrip(fields, 6, "default-page", "page-id", d.defaultPage);
  }

  // ---- parsing, then encoding ----

  /** Each parsed item comes from the value in its place. */
  lemma {:induction false} ParsedFromItems<T>(items: seq<Val>, parse: Val -> Parsed<T>)
    requires ParseEach(items, parse).Ok?
    ensures
      var r := ParseEach(items, parse).value;
      |r| == |items| && forall k :: 0 <= k < |items| ==> parse(items[k]) == Ok(r[k])
  {
    if items != [] { ParsedFromItems(items[..|items| - 1], parse); }
  }

  lemma ParsedListFits<T>(v: Val, what: string, name: string, limit: nat, parse: Val -> Parsed<T>, fits: T -> bool)
    requires ParseList(v, what, name, limit, parse).Ok?
    requires forall item: Val :: parse(item).Ok? ==> fits(parse(item).value)
    ensures
      var r := ParseList(v, what, name, limit, parse).value;
      |r| <= limit && forall k :: 0 <= k < |r| ==> fits(r[k])
  {
    ParsedFromItems(v.items, parse);
  }

  lemma ParsedRouteFits(v: Val)
    requires ParseRoute(v).Ok?
    ensures RouteFits(ParseRoute(v).value)
  {
    var paramList := v.fields[3].1;
    ParsedListFits(paramList, "params", "params", MAX_ROUTE_PARAMS, ParseParam, ParamFits);
  }

  lemma ParsedPermissionsFit(v: Val)
    requires ParseList(v, "permission-declaration list", "permissions", MAX_PERMISSIONS, ParsePermission).Ok?
    ensures
      var r := ParseList(v, "permission-declaration list", "permissions", MAX_PERMISSIONS, ParsePermission).value;
      |r| <= MAX_PERMISSIONS && forall k :: 0 <= k < |r| ==> PermissionFits(r[k])
  {
    ParsedListFits(v, "permission-declaration list", "permissions", MAX_PERMISSIONS, ParsePermission, PermissionFits);
  }

  lemma ParsedPagesFit(v: Val)
    requires ParseList(v, "page-declaration list", "pages", MAX_PAGES, ParsePage).Ok?
    ensures
      var r := ParseList(v, "page-declaration list", "pages", MAX_PAGES, ParsePage).value;
      |r| <= MAX_PAGES && forall k :: 0 <= k < |r| ==> PageFits(r[k])
  {
    ParsedListFits(v, "page-declaration list", "pages", MAX_PAGES, ParsePage, PageFits);
  }

  lemma ParsedRoutesFit(v: Val)
    requires ParseList(v, "route-declaration list", "routes", MAX_ROUTES, ParseRoute).Ok?
    ensures
      var r := ParseList(v, "route-declaration list", "routes", MAX_ROUTES, ParseRoute).value;
      |r| <= MAX_ROUTES && forall k :: 0 <= k < |r| ==> RouteFits(r[k])
  {
    forall item: Val | ParseRoute(item).Ok? ensures RouteFits(ParseRoute(item).value) { ParsedRouteFits(item); }
    ParsedListFits(v, "route-declaration list", "routes", MAX_ROUTES, ParseRoute, RouteFits);
  }

  lemma ParsedDeclarationsFit(fields: seq<(string, Val)>)
    requires ParseDeclarations(fields).Ok?
    ensures DeclarationsFit(ParseDeclarations(fields).value)
  {
    ParsedPermissionsFit(fields[3].1);
    ParsedPagesFit(fields[4].1);
    ParsedRoutesFit(fields[5].1);
  }

  lemma WrappedFits(fields: seq<(string, Val)>, index: nat, name: string, what: string, limit: nat)
    ensures
      var r := WrappedField(fields, index, name, what, limit);
      r.Ok? ==> Bytes(r.value) <= limit
  {
  }

  lemma OptTextFieldFits(fields: seq<(string, Val)>, index: nat, name: string, what: string)
    ensures
      var r := OptTextField(fields, index, name, what);
      r.Ok? ==> OptTextFits(r.value)
  {
  }

  lemma OptNameFieldFits(fields: seq<(string, Val)>, index: nat, name: string, what: string)
    ensures
      var r := OptNameField(fields, index, name, what);
      r.Ok? ==> OptIdFits(r.value)
  {
  }

  lemma ParsedFits(v: Val)
    requires ParseDescriptor(v).Ok?
    ensures Fits(ParseDescriptor(v).value)
  {
    var fields := v.payload.value.fields;
    ParsedDeclarationsFit(fields);
    WrappedFits(fields, 0, "entry", "asset-path", MAX_ASSET_PATH);
    OptTextFieldFits(fields, 2, "display-name", "app-descriptor.display-name");
    OptNameFieldFits(fields, 6, "default-page", "page-id");
  }

  /** Whatever the parser accepts, with extra record fields and unknown flags, re-encodes to something it parses
      to the same descriptor. */
  lemma ReencodingIsStable(v: Val)
    requires ParseDescriptor(v).Ok?
    ensures ParseDescriptor(BuildDescriptor(ParseDescriptor(v).value)) == ParseDescriptor(v)
  {
    ParsedFits(v);
    DescriptorRoundTrip(ParseDescriptor(v).value);
  }
}
