/**
 * The HAL view's URI resolution and value conversion: route values with
 * the `@action`, `@controller`, `@package` and `@subpackage` keys taken
 * out, `{placeholder}` substitution from the view variables, the binding of
 * the rendered instance, and the `string` type coercion.
 *
 * The framework collaborators (property access, the persistence manager,
 * the URI builder, iteration over a collection object) are the function
 * fields of `Env`; nothing is assumed about them.
 */
module ViewUris {
  import opened OrderedDicts
  import opened PhpValues
  import opened PropertyDefinitions
  import opened ResourceDefinitions

  /** What `uriFor` receives: action, arguments, controller, package, subpackage, and the absolute flag. */
  datatype UriRequest = UriRequest(
    action: Value,
    arguments: Dict<Key, Value>,
    controller: Value,
    package: Value,
    subpackage: Value,
    absolute: Value)

  datatype Env = Env(
    /** The view variables, in assignment order. */
    variables: Dict<string, Value>,
    /** `ObjectAccess::getProperty`. */
    getProperty: (Value, string) -> Value,
    /** `ObjectAccess::getPropertyPath`. */
    getPropertyPath: (Value, string) -> Value,
    /** `getIdentifierByObject`: NULL for an object the persistence layer does not know. */
    identifierOf: Value -> Value,
    /** The elements `foreach` visits in a collection object. */
    iterate: Value -> seq<Value>,
    /** The URI builder's `uriFor`; None when no route matches. */
    uriFor: UriRequest -> Option<string>)

  datatype ViewError =
    | ResourceUriFailed(resourceName: string)         // exception code 1383496975
    | LinkUriFailed(rel: string, resourceName: string) // exception code 1383496970
    | MissingLinkTarget(rel: string)                  // a link without route values or resource definition
    | LinkNotStringable(rel: string)                  // a link definition cast to a string: it has no `__toString`
    | NotAnArray                                      // `routeValues` that is not an array
  {
    function Code(): int
    {
      match this
      case ResourceUriFailed(_) => 1383496975
      case LinkUriFailed(_, _) => 1383496970
      case _ => 0
    }
  }

  /** The elements `foreach` visits: the values of an array, the elements of a collection object, else none. */
  function Elements(env: Env, v: Value): seq<Value>
  {
    if v.Arr? then Values(v.entries) else if v.Obj? then env.iterate(v) else []
  }

  /** The view variables as one array value, for property paths. */
  function VariablesValue(variables: Dict<string, Value>): Value
  {
    Arr(seq(|variables|, i requires 0 <= i < |variables| => (Name(variables[i].0), variables[i].1)))
  }

  /**
   * `extractRouteValue`: a set key is removed and its value returned; an
   * absent or NULL key gives NULL and leaves the route values as they are.
   */
  function ExtractRouteValue(routeValues: Dict<Key, Value>, key: string): (r: (Value, Dict<Key, Value>))
    ensures Get(routeValues, Name(key)).Some? && Get(routeValues, Name(key)).value != Null ==>
      r.0 == Get(routeValues, Name(key)).value && Get(r.1, Name(key)) == None
    ensures !(Get(routeValues, Name(key)).Some? && Get(routeValues, Name(key)).value != Null) ==>
      r.0 == Null && r.1 == routeValues
    ensures forall k :: k != Name(key) ==> Get(r.1, k) == Get(routeValues, k)
  {
    match Get(routeValues, Name(key))
    case Some(v) => if v != Null then (v, Remove(routeValues, Name(key))) else (Null, routeValues)
    case None => (Null, routeValues)
  }

  /** What `substr($s, 1, -1)` keeps of a placeholder: everything but the first and last character. */
  function PlaceholderName(s: string): string
  {
    if |s| >= 2 then s[1..|s| - 1] else ""
  }

  /** `replacePlaceholders`: a string starting with `{` becomes the variable it names; anything else stays. */
  function ReplacePlaceholders(env: Env, v: Value): (r: Value)
    ensures !(v.Str? && StartsWith(v.s, "{")) ==> r == v
  {
    if v.Str? && StartsWith(v.s, "{") then env.getPropertyPath(VariablesValue(env.variables), PlaceholderName(v.s))
    else v
  }

  /** `{name}` is replaced by the value at the property path `name` of the view variables. */
  lemma PlaceholderRoundTrip(env: Env, name: string)
    ensures ReplacePlaceholders(env, Str("{" + name + "}")) ==
      env.getPropertyPath(VariablesValue(env.variables), name)
  {
    var s := "{" + name + "}";
    assert StartsWith(s, "{") by {
      assert s[..1] == "{";
    }
    assert s[1..|s| - 1] == name;
  }

  /** The route values left after the four special keys are extracted, in that order. */
  function RemainingRouteValues(routeValues: Dict<Key, Value>): Dict<Key, Value>
  {
    var r1 := ExtractRouteValue(routeValues, "@action").1;
    var r2 := ExtractRouteValue(r1, "@controller").1;
    var r3 := ExtractRouteValue(r2, "@package").1;
    ExtractRouteValue(r3, "@subpackage").1
  }

  /** The request `buildUriFromRouteValues` hands to the URI builder. */
  function UriRequestFor(env: Env, routeValues: Dict<Key, Value>, absolute: Value): UriRequest
  {
    var r1 := ExtractRouteValue(routeValues, "@action").1;
    var r2 := ExtractRouteValue(r1, "@controller").1;
    var r3 := ExtractRouteValue(r2, "@package").1;
    UriRequest(
      ExtractRouteValue(routeValues, "@action").0,
      MapValues(RemainingRouteValues(routeValues), v => ReplacePlaceholders(env, v)),
      ExtractRouteValue(r1, "@controller").0,
      ExtractRouteValue(r2, "@package").0,
      ExtractRouteValue(r3, "@subpackage").0,
      absolute)
  }

  predicate IsRouteKey(k: Key)
  {
    k in {Name("@action"), Name("@controller"), Name("@package"), Name("@subpackage")}
  }

  /** The route value under `key`, as `isset` sees it. */
  function RouteValue(routeValues: Dict<Key, Value>, key: string): Value
  {
    match Get(routeValues, Name(key)) case Some(v) => v case None => Null
  }

  /**
   * The four special keys go to their own parameters and never reach the
   * arguments with a value (a key holding NULL is not extracted and stays,
   * as NULL); every other route value reaches the arguments, with
   * placeholders replaced.
   */
  lemma UriRequestParameters(env: Env, routeValues: Dict<Key, Value>, absolute: Value)
    ensures var req := UriRequestFor(env, routeValues, absolute);
      && req.action == RouteValue(routeValues, "@action")
      && req.controller == RouteValue(routeValues, "@controller")
      && req.package == RouteValue(routeValues, "@package")
      && req.subpackage == RouteValue(routeValues, "@subpackage")
      && req.absolute == absolute
  {
    var r1 := ExtractRouteValue(routeValues, "@action").1;
    var r2 := ExtractRouteValue(r1, "@controller").1;
    var r3 := ExtractRouteValue(r2, "@package").1;
    assert Get(r3, Name("@subpackage")) == Get(routeValues, Name("@subpackage"));
  }

  /** See `UriRequestParameters`: what is left for the arguments. */
  lemma RemainingRouteKeys(routeValues: Dict<Key, Value>, k: Key)
    ensures IsRouteKey(k) ==>
      Get(RemainingRouteValues(routeValues), k) == None || Get(RemainingRouteValues(routeValues), k) == Some(Null)
    ensures !IsRouteKey(k) ==> Get(RemainingRouteValues(routeValues), k) == Get(routeValues, k)
  {
  }

  /** The arguments are the remaining route values with placeholders replaced, key by key. */
  lemma UriRequestArguments(env: Env, routeValues: Dict<Key, Value>, absolute: Value, k: Key)
    ensures var req := UriRequestFor(env, routeValues, absolute);
      && (IsRouteKey(k) ==> Get(req.arguments, k) == None || Get(req.arguments, k) == Some(Null))
      && (!IsRouteKey(k) ==>
            Get(req.arguments, k) ==
              match Get(routeValues, k) case Some(v) => Some(ReplacePlaceholders(env, v)) case None => None)
  {
    RemainingRouteKeys(routeValues, k);
    var rest := RemainingRouteValues(routeValues);
    assert k in Keys(rest) <==> Get(rest, k).Some?;
  }

  /** `buildUriFromRouteValues`: None when no route matches. */
  function BuildUri(env: Env, routeValues: Dict<Key, Value>, absolute: Value): Option<string>
  {
    env.uriFor(UriRequestFor(env, routeValues, absolute))
  }

  /** The name the instance is bound under: the definition's, or for an alias its target's. */
  function BoundName(reg: Registry, h: Handle): string
    requires AliasChain(reg, h, {})
  {
    var n := reg[h];
    if n.IsAlias() then
      assert AliasChain(reg, n.aliasFor.value, {} + {h});
      reg[n.aliasFor.value].name
    else n.name
  }

  /** The route values with the rendered instance bound, unless the definition is a collection or the instance an array. */
  function BoundRouteValues(reg: Registry, h: Handle, routeValues: Dict<Key, Value>, resource: Value): Dict<Key, Value>
    requires AliasChain(reg, h, {})
  {
    var n := reg[h];
    if !IsCollection(reg, h) && !resource.Arr? then
      Put(routeValues, StringKey(BoundName(reg, h)), resource)
    else routeValues
  }

  /**
   * `getResourceUri`: no URI when the effective options have no
   * `routeValues`; otherwise the URI built from them with the instance
   * bound.
   */
  function ResourceUri(env: Env, reg: Registry, h: Handle, resource: Value): (r: Result<Option<string>, ViewError>)
    requires OptionsChain(reg, h, {})
    ensures !IsSet(GetOptions(reg, h), "routeValues") ==> r == Success(None)
    ensures r.Success? && r.value.Some? ==>
      var rv := Field(GetOptions(reg, h), "routeValues");
      rv.Arr? && BuildUri(env, BoundRouteValues(reg, h, rv.entries, resource), Bool(false)) == r.value
    ensures r.Failure? ==>
      var rv := Field(GetOptions(reg, h), "routeValues");
      r.error == (if rv.Arr? then ResourceUriFailed(reg[h].name) else NotAnArray)
      && (rv.Arr? ==> BuildUri(env, BoundRouteValues(reg, h, rv.entries, resource), Bool(false)).None?)
  {
    var options := GetOptions(reg, h);
    if !IsSet(options, "routeValues") then Success(None)
    else
      var rv := Field(options, "routeValues");
      if !rv.Arr? then Failure(NotAnArray)
      else match BuildUri(env, BoundRouteValues(reg, h, rv.entries, resource), Bool(false))
        case Some(uri) => Success(Some(uri))
        case None => Failure(ResourceUriFailed(reg[h].name))
  }

  /**
   * The instance is bound under the definition's own name, or under the
   * name of the alias target for an alias, replacing a route value of
   * that name; nothing else changes. A collection or an array instance
   * binds nothing.
   */
  lemma BindingName(reg: Registry, h: Handle, routeValues: Dict<Key, Value>, resource: Value, k: Key)
    requires AliasChain(reg, h, {})
    ensures var bound := BoundRouteValues(reg, h, routeValues, resource);
      var n := reg[h];
      && (IsCollection(reg, h) || resource.Arr? ==> bound == routeValues)
      && (!IsCollection(reg, h) && !resource.Arr? ==>
            && Get(bound, StringKey(BoundName(reg, h))) == Some(resource)
            && (k != StringKey(BoundName(reg, h)) ==> Get(bound, k) == Get(routeValues, k)))
      && (n.IsAlias() ==> AliasChain(reg, n.aliasFor.value, {}) && BoundName(reg, h) == reg[n.aliasFor.value].name)
      && (!n.IsAlias() ==> BoundName(reg, h) == n.name)
  {
    if reg[h].IsAlias() {
      var none: set<Handle> := {};
      AliasChainSeen(reg, reg[h].aliasFor.value, none + {h}, none);
    }
  }

  /**
   * `convertPropertyValue`: identity unless the property is typed
   * `string`; then an object without `__toString` becomes its identifier
   * as a string, and anything else its string cast.
   */
  function ConvertPropertyValue(env: Env, v: Value, pd: PropertyDef): Value
  {
    if !pd.HasType() then v
    else if pd.propertyType == Str("string") then
      if v.Obj? && v.toStr.None? then Str(PhpString(env.identifierOf(v))) else Str(PhpString(v))
    else v
  }

  /**
   * Only the type `string` converts: the result is then always a string,
   * a string stays as it is, an object without `__toString` gives its
   * identifier and anything else its string cast.
   */
  lemma ConvertPropertyValueCases(env: Env, v: Value, pd: PropertyDef)
    ensures var r := ConvertPropertyValue(env, v, pd);
      && (pd.propertyType != Str("string") ==> r == v)
      && (pd.propertyType == Str("string") ==> r.Str?)
      && (pd.propertyType == Str("string") && v.Str? ==> r == v)
      && (pd.propertyType == Str("string") && v.Obj? && v.toStr.None? ==> r == Str(PhpString(env.identifierOf(v))))
      && (pd.propertyType == Str("string") && !(v.Obj? && v.toStr.None?) ==> r == Str(PhpString(v)))
  {
  }

  /** Converting a converted value changes nothing. */
  lemma ConvertIdempotent(env: Env, v: Value, pd: PropertyDef)
    ensures ConvertPropertyValue(env, ConvertPropertyValue(env, v, pd), pd) == ConvertPropertyValue(env, v, pd)
  {
  }

  /** A variable that can name the resource: not `settings`, not starting with `_`. */
  predicate IsResourceVariable(name: string)
  {
    name != "settings" && !StartsWith(name, "_")
  }

  /** The first resource variable, or the empty string when there is none. */
  function ResourceNameOf(variables: Dict<string, Value>): (r: string)
    ensures (exists i :: 0 <= i < |variables| && IsResourceVariable(variables[i].0)) ==>
      exists i :: 0 <= i < |variables| && variables[i].0 == r && IsResourceVariable(r)
        && forall j :: 0 <= j < i ==> !IsResourceVariable(variables[j].0)
    ensures (forall i :: 0 <= i < |variables| ==> !IsResourceVariable(variables[i].0)) ==> r == ""
  {
    if variables == [] then ""
    else if IsResourceVariable(variables[0].0) then variables[0].0
    else
      var r := ResourceNameOf(variables[1..]);
      assert forall i :: 1 <= i < |variables| ==> variables[i] == variables[1..][i - 1];
      r
  }

  /** `getResourceName`: scans the view variables in order. */
  method GetResourceName(variables: Dict<string, Value>) returns (name: string)
    ensures name == ResourceNameOf(variables)
  {
    for i := 0 to |variables|
      invariant forall j :: 0 <= j < i ==> !IsResourceVariable(variables[j].0)
      invariant ResourceNameOf(variables) == ResourceNameOf(variables[i..])
    {
      if IsResourceVariable(variables[i].0) {
        return variables[i].0;
      }
      assert variables[i..][1..] == variables[i + 1..];
    }
    return "";
  }

  /** `getResource`: the variable named by the resource name, NULL when it is not set. */
  function ResourceOf(variables: Dict<string, Value>): Value
  {
    match Get(variables, ResourceNameOf(variables)) case Some(v) => v case None => Null
  }
}
