/**
 * What the HAL view renders for a resource definition: the root data, the
 * embedded resources (one abbreviated resource per collection element, or
 * one per set embedded property) and the links. The output of the HAL
 * library is modelled as plain records in the order the view adds them.
 */
module ViewRender {
  import opened OrderedDicts
  import opened PhpValues
  import opened PropertyDefinitions
  import opened LinkDefinitions
  import opened ResourceDefinitions
  import opened ViewUris

  /** A link as the view creates it; the fifth constructor argument is always NULL and not kept. */
  datatype Link = Link(href: Option<string>, rel: string, title: Value, name: Value, templated: Value)

  /** The abbreviated form of an embedded resource: self URI and data. */
  datatype EmbeddedResource = EmbeddedResource(uri: Option<string>, data: Dict<string, Value>)

  /** One `setEmbedded` call; `single` is the extra TRUE argument passed for a singular embed. */
  datatype Embed = Embed(rel: string, resource: EmbeddedResource, single: bool)

  datatype HalResource = HalResource(uri: Option<string>, data: Dict<string, Value>, embedded: seq<Embed>, links: seq<Link>)

  /** Both results in order, or the first failure. */
  function Append<T, E>(head: Result<seq<T>, E>, tail: Result<seq<T>, E>): Result<seq<T>, E>
  {
    match head
    case Failure(e) => Failure(e)
    case Success(xs) => match tail case Failure(e) => Failure(e) case Success(ys) => Success(xs + ys)
  }

  function Prepend<T, E>(xs: seq<T>, r: Result<seq<T>, E>): Result<seq<T>, E>
  {
    match r case Failure(e) => Failure(e) case Success(ys) => Success(xs + ys)
  }

  lemma PrependNil<T, E>(r: Result<seq<T>, E>)
    ensures Prepend([], r) == r
  {
    match r
    case Success(ys) => assert [] + ys == ys;
    case Failure(_) =>
  }

  /** Adding the head's results to the prefix before the tail's. */
  lemma PrependAppend<T, E>(xs: seq<T>, head: Result<seq<T>, E>, tail: Result<seq<T>, E>)
    ensures Prepend(xs, Append(head, tail)) ==
      match head case Failure(e) => Failure(e) case Success(ys) => Prepend(xs + ys, tail)
  {
    match head
    case Failure(_) =>
    case Success(ys) =>
      match tail
      case Failure(_) =>
      case Success(zs) => assert xs + (ys + zs) == (xs + ys) + zs;
  }

  /** The property names the abbreviated form includes: `includeProperties`, else none. */
  predicate Included(options: Value, name: string)
  {
    var listed := if IsSet(options, IncludeProperties) then Field(options, IncludeProperties) else Arr([]);
    Str(name) in Values(EntriesOf(listed))
  }

  /** A property of the abbreviated form: its static value as it is, else the converted path read. */
  function AbbreviatedValue(env: Env, resource: Value, pd: PropertyDef): Value
  {
    if pd.HasStaticValue() then pd.staticValue
    else ConvertPropertyValue(env, env.getPropertyPath(resource, pd.name), pd)
  }

  predicate DistinctNames(props: Dict<string, PropertyDef>)
  {
    forall i, j :: 0 <= i < j < |props| ==> props[i].1.name != props[j].1.name
  }

  lemma DistinctNamesInit(props: Dict<string, PropertyDef>)
    requires DistinctNames(props) && props != []
    ensures DistinctNames(props[..|props| - 1])
  {
    var init := props[..|props| - 1];
    forall a, b | 0 <= a < b < |init| ensures init[a].1.name != init[b].1.name {
      assert init[a] == props[a] && init[b] == props[b];
    }
  }

  /**
   * The entries `acc` has after the value of each kept property is stored
   * under its name, in definition order.
   */
  function PutEach(acc: Dict<string, Value>, props: Dict<string, PropertyDef>, keep: PropertyDef -> bool, f: PropertyDef -> Value)
    : Dict<string, Value>
  {
    if props == [] then acc
    else
      var pd := props[|props| - 1].1;
      var init := PutEach(acc, props[..|props| - 1], keep, f);
      if keep(pd) then Put(init, pd.name, f(pd)) else init
  }

  /** Some kept property is named p. */
  predicate Kept(props: Dict<string, PropertyDef>, keep: PropertyDef -> bool, p: string)
  {
    exists i :: 0 <= i < |props| && props[i].1.name == p && keep(props[i].1)
  }

  lemma KeptInit(props: Dict<string, PropertyDef>, keep: PropertyDef -> bool, p: string)
    requires props != []
    ensures var last := props[|props| - 1].1;
      Kept(props, keep, p) <==> Kept(props[..|props| - 1], keep, p) || (last.name == p && keep(last))
  {
    var init := props[..|props| - 1];
    if Kept(init, keep, p) {
      var j :| 0 <= j < |init| && init[j].1.name == p && keep(init[j].1);
      assert props[j] == init[j];
    }
    if Kept(props, keep, p) {
      var j :| 0 <= j < |props| && props[j].1.name == p && keep(props[j].1);
      if j < |init| {
        assert init[j] == props[j];
      }
    }
  }

  /** The keys already in `acc` keep their place at the front. */
  lemma {:induction false} PutEachPrefix(acc: Dict<string, Value>, props: Dict<string, PropertyDef>, keep: PropertyDef -> bool, f: PropertyDef -> Value)
    ensures |Keys(acc)| <= |Keys(PutEach(acc, props, keep, f))|
    ensures Keys(PutEach(acc, props, keep, f))[..|Keys(acc)|] == Keys(acc)
  {
    if props != [] {
      var init := props[..|props| - 1];
      var last := props[|props| - 1].1;
      PutEachPrefix(acc, init, keep, f);
      var before := Keys(PutEach(acc, init, keep, f));
      assert before[..|Keys(acc)|] == Keys(acc);
      assert (before + [last.name])[..|Keys(acc)|] == before[..|Keys(acc)|];
    }
  }

  /** A key is present iff it was already or some kept property is named so. */
  lemma {:induction false} PutEachMembers(acc: Dict<string, Value>, props: Dict<string, PropertyDef>, keep: PropertyDef -> bool, f: PropertyDef -> Value, p: string)
    ensures p in Keys(PutEach(acc, props, keep, f)) <==> p in Keys(acc) || Kept(props, keep, p)
  {
    if props != [] {
      PutEachMembers(acc, props[..|props| - 1], keep, f, p);
      KeptInit(props, keep, p);
    }
  }

  /** With distinct names, every kept property's entry holds that property's value. */
  lemma {:induction false} PutEachValues(acc: Dict<string, Value>, props: Dict<string, PropertyDef>, keep: PropertyDef -> bool, f: PropertyDef -> Value, i: nat)
    requires DistinctNames(props) && i < |props| && keep(props[i].1)
    ensures Get(PutEach(acc, props, keep, f), props[i].1.name) == Some(f(props[i].1))
  {
    var n := |props| - 1;
    var init := props[..n];
    var last := props[n].1;
    var before := PutEach(acc, init, keep, f);
    if i < n {
      DistinctNamesInit(props);
      assert init[i] == props[i];
      PutEachValues(acc, init, keep, f, i);
      assert props[i].1.name != last.name;
      if keep(last) {
        assert PutEach(acc, props, keep, f) == Put(before, last.name, f(last));
      } else {
        assert PutEach(acc, props, keep, f) == before;
      }
    } else {
      assert PutEach(acc, props, keep, f) == Put(before, last.name, f(last));
    }
  }

  /** The test `includeProperties` applies to each property of the abbreviated form. */
  function IncludedBy(options: Value): PropertyDef -> bool
  {
    (pd: PropertyDef) => Included(options, pd.name)
  }

  function AbbreviatedValueOf(env: Env, resource: Value): PropertyDef -> Value
  {
    (pd: PropertyDef) => AbbreviatedValue(env, resource, pd)
  }

  /** The data of the abbreviated form: `id`, then the included properties in definition order. */
  function AbbreviatedData(env: Env, resource: Value, options: Value, props: Dict<string, PropertyDef>): Dict<string, Value>
  {
    PutEach([("id", env.identifierOf(resource))], props, IncludedBy(options), AbbreviatedValueOf(env, resource))
  }

  /** The abbreviated form has `id` first, and besides `id` exactly the included property names. */
  lemma AbbreviatedDataKeys(env: Env, resource: Value, options: Value, props: Dict<string, PropertyDef>, p: string)
    ensures var data := AbbreviatedData(env, resource, options, props);
      && |Keys(data)| > 0 && Keys(data)[0] == "id"
      && (p in Keys(data) <==> p == "id" || (Included(options, p) && exists i :: 0 <= i < |props| && props[i].1.name == p))
  {
    var base := [("id", env.identifierOf(resource))];
    assert Keys(base) == ["id"];
    PutEachPrefix(base, props, IncludedBy(options), AbbreviatedValueOf(env, resource));
    PutEachMembers(base, props, IncludedBy(options), AbbreviatedValueOf(env, resource), p);
    if Kept(props, IncludedBy(options), p) {
      var j :| 0 <= j < |props| && props[j].1.name == p && IncludedBy(options)(props[j].1);
    }
    if Included(options, p) && exists i :: 0 <= i < |props| && props[i].1.name == p {
      var j :| 0 <= j < |props| && props[j].1.name == p;
      assert IncludedBy(options)(props[j].1);
    }
  }

  /**
   * The abbreviated form always has `id`, first; it has a key besides `id`
   * exactly for the included property names, and with distinct names each
   * included property other than `id` holds its own value.
   */
  lemma AbbreviatedDataShape(env: Env, resource: Value, options: Value, props: Dict<string, PropertyDef>, p: string)
    ensures var data := AbbreviatedData(env, resource, options, props);
      && |Keys(data)| > 0 && Keys(data)[0] == "id"
      && (p in Keys(data) <==> p == "id" || (Included(options, p) && exists i :: 0 <= i < |props| && props[i].1.name == p))
    ensures DistinctNames(props) && p != "id" ==>
      forall i :: 0 <= i < |props| && props[i].1.name == p && Included(options, p) ==>
        Get(AbbreviatedData(env, resource, options, props), p) == Some(AbbreviatedValue(env, resource, props[i].1))
  {
    AbbreviatedDataKeys(env, resource, options, props, p);
    if DistinctNames(props) && p != "id" {
      forall i | 0 <= i < |props| && props[i].1.name == p && Included(options, p)
        ensures Get(AbbreviatedData(env, resource, options, props), p) == Some(AbbreviatedValue(env, resource, props[i].1))
      {
        PutEachValues([("id", env.identifierOf(resource))], props, IncludedBy(options), AbbreviatedValueOf(env, resource), i);
      }
    }
  }

  /** A root property: its static value or the property read, converted. */
  function RootValue(env: Env, resource: Value, pd: PropertyDef): Value
  {
    ConvertPropertyValue(env, if pd.HasStaticValue() then pd.staticValue else env.getProperty(resource, pd.name), pd)
  }

  /** The `id` the root data starts with: only for an object with an identifier. */
  function RootId(env: Env, resource: Value): Dict<string, Value>
  {
    if resource.Obj? && env.identifierOf(resource) != Null then [("id", env.identifierOf(resource))] else []
  }

  /** Every property of the root data is kept. */
  function All(): PropertyDef -> bool
  {
    (pd: PropertyDef) => true
  }

  function RootValueOf(env: Env, resource: Value): PropertyDef -> Value
  {
    pd => RootValue(env, resource, pd)
  }

  /** The root data: the identifier when known, then every property in definition order. */
  function RootData(env: Env, resource: Value, props: Dict<string, PropertyDef>): Dict<string, Value>
  {
    PutEach(RootId(env, resource), props, All(), RootValueOf(env, resource))
  }

  /**
   * `id` comes first when the resource is an object with a non-NULL
   * identifier; with no property named `id` it is there only then. Every
   * property has an entry, and with distinct names its own value.
   */
  lemma RootDataShape(env: Env, resource: Value, props: Dict<string, PropertyDef>, p: string)
    ensures var data := RootData(env, resource, props);
      && (resource.Obj? && env.identifierOf(resource) != Null ==> |Keys(data)| > 0 && Keys(data)[0] == "id")
      && (p in Keys(data) <==>
            (p == "id" && resource.Obj? && env.identifierOf(resource) != Null)
            || exists i :: 0 <= i < |props| && props[i].1.name == p)
    ensures DistinctNames(props) ==>
      forall i :: 0 <= i < |props| ==>
        Get(RootData(env, resource, props), props[i].1.name) == Some(RootValue(env, resource, props[i].1))
  {
    var base := RootId(env, resource);
    PutEachPrefix(base, props, All(), RootValueOf(env, resource));
    PutEachMembers(base, props, All(), RootValueOf(env, resource), p);
    assert Keys(base) == if resource.Obj? && env.identifierOf(resource) != Null then ["id"] else [];
    if exists i :: 0 <= i < |props| && props[i].1.name == p {
      var j :| 0 <= j < |props| && props[j].1.name == p;
      assert All()(props[j].1);
    }
    if DistinctNames(props) {
      forall i | 0 <= i < |props|
        ensures Get(RootData(env, resource, props), props[i].1.name) == Some(RootValue(env, resource, props[i].1))
      {
        PutEachValues(base, props, All(), RootValueOf(env, resource), i);
      }
    }
  }

  /** `createEmbeddedResource`: the self URI of the instance and the abbreviated data. */
  function EmbeddedResourceOf(env: Env, reg: Registry, h: Handle, resource: Value, options: Value): Result<EmbeddedResource, ViewError>
    requires OptionsChain(reg, h, {})
  {
    match ResourceUri(env, reg, h, resource)
    case Failure(e) => Failure(e)
    case Success(uri) => Success(EmbeddedResource(uri, AbbreviatedData(env, resource, options, reg[h].properties)))
  }

  /** A collection whose elements can be rendered: its element definition's options resolve. */
  predicate ElementsRenderable(reg: Registry, h: Handle)
  {
    && OptionsChain(reg, h, {})
    && GetCollectionOf(reg, h).Some?
    && OptionsChain(reg, GetCollectionOf(reg, h).value, {})
  }

  /** `createCollectionResource`: the element in the abbreviated form of the element definition, with the collection's options. */
  function CollectionResourceOf(env: Env, reg: Registry, h: Handle, element: Value): Result<EmbeddedResource, ViewError>
    requires ElementsRenderable(reg, h)
  {
    EmbeddedResourceOf(env, reg, GetCollectionOf(reg, h).value, element, GetOptions(reg, h))
  }

  /** The embed of one element, under the collection's link name. */
  function ElementEmbed(env: Env, reg: Registry, h: Handle, element: Value): Result<seq<Embed>, ViewError>
    requires ElementsRenderable(reg, h)
  {
    match CollectionResourceOf(env, reg, h, element)
    case Failure(e) => Failure(e)
    case Success(er) => Success([Embed(GetLinkName(reg[h]), er, false)])
  }

  /** One embed per element, under the collection's link name. */
  function CollectionEmbeds(env: Env, reg: Registry, h: Handle, elements: seq<Value>): Result<seq<Embed>, ViewError>
    requires ElementsRenderable(reg, h)
  {
    if elements == [] then Success([])
    else Append(ElementEmbed(env, reg, h, elements[0]), CollectionEmbeds(env, reg, h, elements[1..]))
  }

  /**
   * A collection yields exactly one embed per element, in order, each
   * under the collection's link name and holding that element's
   * abbreviated resource.
   */
  lemma {:induction false} CollectionEmbedsCount(env: Env, reg: Registry, h: Handle, elements: seq<Value>)
    requires ElementsRenderable(reg, h)
    ensures CollectionEmbeds(env, reg, h, elements).Success? ==>
      var es := CollectionEmbeds(env, reg, h, elements).value;
      && |es| == |elements|
      && forall i :: 0 <= i < |es| ==>
           && es[i].rel == GetLinkName(reg[h]) && !es[i].single
           && CollectionResourceOf(env, reg, h, elements[i]) == Success(es[i].resource)
  {
    if elements != [] {
      CollectionEmbedsCount(env, reg, h, elements[1..]);
      var r := CollectionEmbeds(env, reg, h, elements);
      if r.Success? {
        var rest := CollectionEmbeds(env, reg, h, elements[1..]).value;
        assert r.value[1..] == rest;
        forall i | 1 <= i < |r.value|
          ensures CollectionResourceOf(env, reg, h, elements[i]) == Success(r.value[i].resource)
        {
          assert elements[1..][i - 1] == elements[i];
          assert rest[i - 1] == r.value[i];
        }
      }
    }
  }

  /** An embedded definition that can be rendered, as a single resource or as a collection. */
  predicate EmbedRenderable(reg: Registry, eh: Handle)
  {
    OptionsChain(reg, eh, {}) && (IsCollection(reg, eh) ==> ElementsRenderable(reg, eh))
  }

  /**
   * The embeds for the embedded definition `eh` under the property path
   * `propertyName`: one per element for a collection; for a single
   * resource one, flagged, unless the value read is NULL.
   */
  function EntryEmbeds(env: Env, reg: Registry, resource: Value, propertyName: string, eh: Handle): Result<seq<Embed>, ViewError>
    requires EmbedRenderable(reg, eh)
  {
    var value := env.getPropertyPath(resource, propertyName);
    if IsCollection(reg, eh) then CollectionEmbeds(env, reg, eh, Elements(env, value))
    else if value == Null then Success([])
    else match EmbeddedResourceOf(env, reg, eh, value, GetOptions(reg, eh))
      case Failure(e) => Failure(e)
      case Success(er) => Success([Embed(GetLinkName(reg[eh]), er, true)])
  }

  /** A NULL singular embed is left out; a set one gives exactly one flagged embed under its link name. */
  lemma SingularEmbed(env: Env, reg: Registry, resource: Value, propertyName: string, eh: Handle)
    requires EmbedRenderable(reg, eh) && !IsCollection(reg, eh)
    ensures env.getPropertyPath(resource, propertyName) == Null ==>
      EntryEmbeds(env, reg, resource, propertyName, eh) == Success([])
    ensures env.getPropertyPath(resource, propertyName) != Null && EntryEmbeds(env, reg, resource, propertyName, eh).Success? ==>
      var es := EntryEmbeds(env, reg, resource, propertyName, eh).value;
      && |es| == 1 && es[0].single && es[0].rel == GetLinkName(reg[eh])
      && EmbeddedResourceOf(env, reg, eh, env.getPropertyPath(resource, propertyName), GetOptions(reg, eh)) == Success(es[0].resource)
  {
  }

  predicate EntriesRenderable(reg: Registry, entries: Dict<string, Handle>)
  {
    forall i :: 0 <= i < |entries| ==> EmbedRenderable(reg, entries[i].1)
  }

  /** The embeds for the embedded definitions, in definition order. */
  function DefinitionEmbeds(env: Env, reg: Registry, resource: Value, entries: Dict<string, Handle>): Result<seq<Embed>, ViewError>
    requires EntriesRenderable(reg, entries)
  {
    if entries == [] then Success([])
    else
      assert EntriesRenderable(reg, entries[1..]) by {
        forall i | 0 <= i < |entries[1..]| ensures EmbedRenderable(reg, entries[1..][i].1) {
          assert entries[1..][i] == entries[i + 1];
        }
      }
      Append(EntryEmbeds(env, reg, resource, entries[0].0, entries[0].1), DefinitionEmbeds(env, reg, resource, entries[1..]))
  }

  /** What is concatenated to a link's href: its append string, when it has one. */
  function Appended(ld: LinkDef): string
  {
    if ld.HasAppendQueryString() then PhpString(ld.appendQueryString) else ""
  }

  /** A link that can be rendered: its route values are an array, or its target's options resolve. */
  predicate LinkRenderable(reg: Registry, ld: LinkDef)
  {
    && (ld.HasRouteValues() ==> ld.routeValues.Arr?)
    && (!ld.HasRouteValues() && ld.resourceDefinition.Some? ==> OptionsChain(reg, ld.resourceDefinition.value, {}))
  }

  /**
   * The href of a link as intended (`LinkHrefAsWritten` is the source's):
   * built from its route values when it has them, a failed route giving
   * exception 1383496970; otherwise the URI of the
   * linked definition with no instance. A non-empty append string is
   * concatenated as it is (to the empty string when there is no URI).
   */
  function LinkHref(env: Env, reg: Registry, owner: string, ld: LinkDef): (r: Result<Option<string>, ViewError>)
    requires LinkRenderable(reg, ld)
    ensures ld.HasRouteValues() && BuildUri(env, ld.routeValues.entries, ld.absolute).None? ==>
      r.Failure? && r.error.Code() == 1383496970
    ensures ld.HasRouteValues() && BuildUri(env, ld.routeValues.entries, ld.absolute).Some? ==>
      r == Success(Some(BuildUri(env, ld.routeValues.entries, ld.absolute).value + Appended(ld)))
    ensures !ld.HasRouteValues() && ld.resourceDefinition.None? ==> r == Failure(MissingLinkTarget(ld.rel))
    ensures !ld.HasRouteValues() && ld.resourceDefinition.Some? && !ld.HasAppendQueryString() ==>
      r == ResourceUri(env, reg, ld.resourceDefinition.value, Null)
    ensures !ld.HasRouteValues() && ld.resourceDefinition.Some? && ld.HasAppendQueryString() ==>
      var target := ResourceUri(env, reg, ld.resourceDefinition.value, Null);
      && (target.Failure? ==> r == Failure(target.error))
      && (target.Success? ==> r == Success(Some((if target.value.Some? then target.value.value else "") + Appended(ld))))
    ensures r.Success? && ld.HasAppendQueryString() ==>
      r.value.Some? && |r.value.value| >= |PhpString(ld.appendQueryString)| > 0
  {
    if ld.HasRouteValues() then
      match BuildUri(env, ld.routeValues.entries, ld.absolute)
      case Some(uri) => Success(Some(uri + Appended(ld)))
      case None => Failure(LinkUriFailed(ld.rel, owner))
    else if ld.resourceDefinition.None? then Failure(MissingLinkTarget(ld.rel))
    else
      match ResourceUri(env, reg, ld.resourceDefinition.value, Null)
      case Failure(e) => Failure(e)
      case Success(href) =>
        if ld.HasAppendQueryString() then Success(Some((if href.Some? then href.value else "") + Appended(ld)))
        else Success(href)
  }

  /**
   * The href as the source computes it: the message of exception 1383496970
   * casts the link definition, which has no `__toString`, to a string, so a
   * failed route ends in that cast's error instead of the exception.
   */
  function LinkHrefAsWritten(env: Env, reg: Registry, owner: string, ld: LinkDef): Result<Option<string>, ViewError>
    requires LinkRenderable(reg, ld)
  {
    if ld.HasRouteValues() && BuildUri(env, ld.routeValues.entries, ld.absolute).None? then Failure(LinkNotStringable(ld.rel))
    else LinkHref(env, reg, owner, ld)
  }

  /**
   * A link whose route matches nothing: as written it never yields exception
   * 1383496970; the intended href does. On every other link the two agree.
   */
  lemma LinkRouteFailureAsWritten(env: Env, reg: Registry, owner: string, ld: LinkDef)
    requires LinkRenderable(reg, ld)
    ensures ld.HasRouteValues() && BuildUri(env, ld.routeValues.entries, ld.absolute).None? ==>
      && LinkHrefAsWritten(env, reg, owner, ld) == Failure(LinkNotStringable(ld.rel))
      && LinkHrefAsWritten(env, reg, owner, ld).error.Code() != 1383496970
      && LinkHref(env, reg, owner, ld).error.Code() == 1383496970
    ensures !(ld.HasRouteValues() && BuildUri(env, ld.routeValues.entries, ld.absolute).None?) ==>
      LinkHrefAsWritten(env, reg, owner, ld) == LinkHref(env, reg, owner, ld)
  {
  }

  predicate LinksRenderable(reg: Registry, links: Dict<string, LinkDef>)
  {
    forall i :: 0 <= i < |links| ==> LinkRenderable(reg, links[i].1)
  }

  /** The link for one link definition. */
  function LinkOf(env: Env, reg: Registry, owner: string, ld: LinkDef): Result<seq<Link>, ViewError>
    requires LinkRenderable(reg, ld)
  {
    match LinkHref(env, reg, owner, ld)
    case Failure(e) => Failure(e)
    case Success(href) => Success([Link(href, ld.rel, ld.title, ld.name, ld.templated)])
  }

  /** The links, in definition order. */
  function LinksOf(env: Env, reg: Registry, owner: string, links: Dict<string, LinkDef>): Result<seq<Link>, ViewError>
    requires LinksRenderable(reg, links)
  {
    if links == [] then Success([])
    else
      assert LinksRenderable(reg, links[1..]) by {
        forall i | 0 <= i < |links[1..]| ensures LinkRenderable(reg, links[1..][i].1) {
          assert links[1..][i] == links[i + 1];
        }
      }
      Append(LinkOf(env, reg, owner, links[0].1), LinksOf(env, reg, owner, links[1..]))
  }

  /**
   * One link per link definition, in definition order, each carrying the
   * definition's relation, title, name and templated flag and its href.
   */
  lemma {:induction false} LinksInOrder(env: Env, reg: Registry, owner: string, links: Dict<string, LinkDef>)
    requires LinksRenderable(reg, links)
    ensures LinksOf(env, reg, owner, links).Success? ==>
      var ls := LinksOf(env, reg, owner, links).value;
      && |ls| == |links|
      && forall i :: 0 <= i < |ls| ==>
           var ld := links[i].1;
           && ls[i] == Link(ls[i].href, ld.rel, ld.title, ld.name, ld.templated)
           && LinkHref(env, reg, owner, ld) == Success(ls[i].href)
  {
    if links != [] {
      assert LinksRenderable(reg, links[1..]) by {
        forall i | 0 <= i < |links[1..]| ensures LinkRenderable(reg, links[1..][i].1) {
          assert links[1..][i] == links[i + 1];
        }
      }
      LinksInOrder(env, reg, owner, links[1..]);
      var r := LinksOf(env, reg, owner, links);
      if r.Success? {
        var rest := LinksOf(env, reg, owner, links[1..]).value;
        assert r.value[1..] == rest;
        forall i | 1 <= i < |r.value|
          ensures var ld := links[i].1;
            && r.value[i] == Link(r.value[i].href, ld.rel, ld.title, ld.name, ld.templated)
            && LinkHref(env, reg, owner, ld) == Success(r.value[i].href)
        {
          assert links[1..][i - 1] == links[i];
          assert rest[i - 1] == r.value[i];
        }
      }
    }
  }

  /** What the view can render from the definition h. */
  predicate RootRenderable(reg: Registry, h: Handle)
  {
    && OptionsChain(reg, h, {})
    && (IsCollection(reg, h) ==> ElementsRenderable(reg, h))
    && (!IsCollection(reg, h) ==> EntriesRenderable(reg, reg[h].embedded))
    && LinksRenderable(reg, reg[h].links)
  }

  /** The embeds of the root: per element for a collection, else per embedded definition. */
  function RootEmbeds(env: Env, reg: Registry, h: Handle, resource: Value): Result<seq<Embed>, ViewError>
    requires RootRenderable(reg, h)
  {
    if IsCollection(reg, h) then CollectionEmbeds(env, reg, h, Elements(env, resource))
    else DefinitionEmbeds(env, reg, resource, reg[h].embedded)
  }

  /** `buildHalResource`: the self URI, the data, the embeds and the links, failing at the first failure. */
  function HalResourceOf(env: Env, reg: Registry, h: Handle): Result<HalResource, ViewError>
    requires RootRenderable(reg, h)
  {
    var resource := ResourceOf(env.variables);
    match ResourceUri(env, reg, h, resource)
    case Failure(e) => Failure(e)
    case Success(uri) =>
      match RootEmbeds(env, reg, h, resource)
      case Failure(e) => Failure(e)
      case Success(embedded) =>
        match LinksOf(env, reg, reg[h].name, reg[h].links)
        case Failure(e) => Failure(e)
        case Success(links) => Success(HalResource(uri, RootData(env, resource, reg[h].properties), embedded, links))
  }

  /**
   * A rendered resource: its data is the root data; a collection embeds
   * one abbreviated resource per element and none of its embedded
   * definitions; there is one link per link definition.
   */
  lemma HalResourceShape(env: Env, reg: Registry, h: Handle)
    requires RootRenderable(reg, h)
    ensures HalResourceOf(env, reg, h).Success? ==>
      var hal := HalResourceOf(env, reg, h).value;
      var resource := ResourceOf(env.variables);
      && ResourceUri(env, reg, h, resource) == Success(hal.uri)
      && hal.data == RootData(env, resource, reg[h].properties)
      && (IsCollection(reg, h) ==>
            && |hal.embedded| == |Elements(env, resource)|
            && forall i :: 0 <= i < |hal.embedded| ==> hal.embedded[i].rel == GetLinkName(reg[h]))
      && |hal.links| == |reg[h].links|
  {
    var resource := ResourceOf(env.variables);
    if IsCollection(reg, h) {
      CollectionEmbedsCount(env, reg, h, Elements(env, resource));
    }
    LinksInOrder(env, reg, reg[h].name, reg[h].links);
  }
}
