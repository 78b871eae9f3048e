/**
 * The resource definition factory: builds `ResourceDefinition` objects from
 * the API configuration and memoises them by resource name, registering a
 * definition before resolving the definitions it refers to, so that cyclic
 * references terminate.
 */
module Factory {
  import opened OrderedDicts
  import opened PhpValues
  import opened PropertyDefinitions
  import opened LinkDefinitions
  import opened ResourceDefinitions
  import opened PropertyNames
  import opened FactorySpec

  datatype FactoryError =
    | ResourceNotDefined(resourceName: string)   // exception code 1374759094
    | NoResourcesDefined                         // exception code 1374760304
    | NoResourceForClass(className: string)      // exception code 1374760307
    | ClassNotFound(className: string)           // the class reflection cannot load the class
    | NotAnArray                                 // an `array`-typed parameter receives something else

  /**
   * The errors that building a definition by name can raise, at any depth
   * of references; a name reported as undefined was not among the cached
   * names when the build started.
   */
  predicate IsBuildError(e: FactoryError, cached: set<string>)
  {
    && (e.ResourceNotDefined? || e.ClassNotFound? || e.NotAnArray?)
    && (e.ResourceNotDefined? ==> e.resourceName !in cached)
  }

  /** Every old cache entry is still there, as the same object. */
  predicate Extends(older: map<string, ResourceDefinition>, newer: map<string, ResourceDefinition>)
  {
    forall m :: m in older ==> m in newer && newer[m] == older[m]
  }

  /** The configuration entry of the resource whose class is `className`: set and identical. */
  predicate BindsClass(resourceConfiguration: Value, className: string)
  {
    IsSet(resourceConfiguration, "className") && Field(resourceConfiguration, "className") == Str(className)
  }

  /** The index of the first resource entry bound to `className`, if any. */
  function FirstForClass(entries: Dict<Key, Value>, className: string): (r: Option<nat>)
    ensures r.Some? ==> r.value < |entries| && BindsClass(entries[r.value].1, className)
    ensures r.Some? ==> forall j :: 0 <= j < r.value ==> !BindsClass(entries[j].1, className)
    ensures r.None? ==> forall j :: 0 <= j < |entries| ==> !BindsClass(entries[j].1, className)
  {
    if entries == [] then None
    else if BindsClass(entries[0].1, className) then Some(0)
    else match FirstForClass(entries[1..], className)
      case None => None
      case Some(i) => Some(i + 1)
  }

  lemma LinkDefsStep(links: Dict<Key, Value>, i: nat)
    requires i < |links|
    ensures LinkDefs(links[..i + 1]) == Put(LinkDefs(links[..i]), KeyString(links[i].0), ExpectedLink(links[i].0, links[i].1))
  {
    assert links[..i + 1][..i] == links[..i];
  }

  lemma PropertyDefsStep(config: Value, hasClass: bool, info: ClassInfo, names: seq<string>, i: nat)
    requires i < |names|
    ensures PropertyDefs(config, hasClass, info, names[..i + 1]) ==
      if IsFlat(hasClass, info, names[i])
      then Put(PropertyDefs(config, hasClass, info, names[..i]), names[i], ExpectedProperty(config, hasClass, info, names[i]))
      else PropertyDefs(config, hasClass, info, names[..i])
    ensures EmbeddedDefs(hasClass, info, names[..i + 1]) ==
      if IsFlat(hasClass, info, names[i]) then EmbeddedDefs(hasClass, info, names[..i])
      else Put(EmbeddedDefs(hasClass, info, names[..i]), names[i], names[i])
  {
    assert names[..i + 1][..i] == names[..i];
  }

  /**
   * `resources: {5: {className: C}}`: the entry is stored under the integer
   * key 5, matches class C, and is found again by its name "5".
   */
  lemma NumericResourceExample(f: ResourceDefinitionFactory)
    requires f.apiConfiguration == Arr([(Name("resources"), Arr([(Idx(5), Arr([(Name("className"), Str("C"))]))]))])
    ensures FirstForClass(EntriesOf(f.Resources()), "C") == Some(0)
    ensures KeyString(EntriesOf(f.Resources())[0].0) == "5"
    ensures f.Configured("5")
  {
    StringKeyExamples();
    assert KeyString(Idx(5)) == "5" by {
      assert NatToDecimal(5) == "5";
    }
  }

  class ResourceDefinitionFactory {
    /** The settings of the API named `default`. */
    const apiConfiguration: Value
    /** The reflection data of the loadable classes, by class name. */
    const catalog: map<string, ClassInfo>
    var generatedResourceDefinitions: map<string, ResourceDefinition>

    /** Initialisation fails unless the settings define the `default` API; callers must provide it. */
    constructor (settings: Value, catalog: map<string, ClassInfo>)
      requires IsSet(Field(settings, "apis"), "default")
      ensures apiConfiguration == Field(Field(settings, "apis"), "default")
      ensures this.catalog == catalog
      ensures generatedResourceDefinitions == map[]
      ensures Valid()
    {
      apiConfiguration := Field(Field(settings, "apis"), "default");
      this.catalog := catalog;
      generatedResourceDefinitions := map[];
    }

    /** Each cached definition is cached under its own name. */
    predicate Valid()
      reads this
    {
      forall m :: m in generatedResourceDefinitions ==> generatedResourceDefinitions[m].name == m
    }

    function Resources(): Value
    {
      Field(apiConfiguration, "resources")
    }

    /** `resources.<n>` is set. */
    predicate Configured(n: string)
    {
      At(Resources(), StringKey(n)) != Null
    }

    function ConfiguredNames(): set<string>
    {
      set k | k in Keys(EntriesOf(Resources())) :: KeyString(k)
    }

    lemma ConfiguredNamed(n: string)
      requires Configured(n)
      ensures n in ConfiguredNames()
    {
      assert StringKey(n) in Keys(EntriesOf(Resources()));
    }

    /** A resource entry is found under its own name, a numeric one included. */
    lemma EntryConfigured(i: nat)
      requires i < |EntriesOf(Resources())| && EntriesOf(Resources())[i].1 != Null
      requires ValidKey(EntriesOf(Resources())[i].0) && UniqueKeys(EntriesOf(Resources()))
      ensures Configured(KeyString(EntriesOf(Resources())[i].0))
    {
      var entries := EntriesOf(Resources());
      KeyRoundTrip(entries[i].0);
      GetAt(entries, i);
    }

    function CommonConfiguration(): Value
    {
      if IsSet(apiConfiguration, "commonConfiguration") then Field(apiConfiguration, "commonConfiguration")
      else Arr([])
    }

    /** The common configuration, recursively overruled by the resource's own. */
    function EffectiveConfiguration(n: string): Value
    {
      Merge(CommonConfiguration(), At(Resources(), StringKey(n)))
    }

    /**
     * The definition of the first configured resource bound to `className`
     * (compared strictly), created by its resource name.
     */
    method CreateFromClassName(className: string) returns (r: Result<ResourceDefinition, FactoryError>)
      requires Valid()
      modifies this
      ensures Valid()
      ensures Extends(old(generatedResourceDefinitions), generatedResourceDefinitions)
      ensures !IsSet(apiConfiguration, "resources") ==> r == Failure(NoResourcesDefined)
      ensures IsSet(apiConfiguration, "resources") && FirstForClass(EntriesOf(Resources()), className).None? ==>
        r == Failure(NoResourceForClass(className))
      ensures r.Success? ==>
        && IsSet(apiConfiguration, "resources")
        && var i := FirstForClass(EntriesOf(Resources()), className);
        && i.Some?
        && r.value.name == KeyString(EntriesOf(Resources())[i.value].0)
        && r.value.name in generatedResourceDefinitions
      ensures IsSet(apiConfiguration, "resources") && FirstForClass(EntriesOf(Resources()), className).Some? ==>
        var k := EntriesOf(Resources())[FirstForClass(EntriesOf(Resources()), className).value].0;
        var n := KeyString(k);
        && (ValidKey(k) && UniqueKeys(EntriesOf(Resources())) ==> r != Failure(ResourceNotDefined(n)))
        && (n in old(generatedResourceDefinitions) ==> r == Success(old(generatedResourceDefinitions)[n]))
        && (r.Success? ==> n in generatedResourceDefinitions && generatedResourceDefinitions[n] == r.value)
        && (r.Success? && n !in old(generatedResourceDefinitions) ==>
              fresh(r.value) && r.value.Snapshot() == ExpectedNode(n, EffectiveConfiguration(n), catalog))
        && (r.Failure? ==> IsBuildError(r.error, old(generatedResourceDefinitions).Keys))
    {
      if !IsSet(apiConfiguration, "resources") {
        return Failure(NoResourcesDefined);
      }
      var entries := EntriesOf(Field(apiConfiguration, "resources"));
      for i := 0 to |entries|
        invariant forall j :: 0 <= j < i ==> !BindsClass(entries[j].1, className)
      {
        if BindsClass(entries[i].1, className) {
          assert FirstForClass(entries, className) == Some(i);
          if ValidKey(entries[i].0) && UniqueKeys(entries) {
            EntryConfigured(i);
          }
          r := CreateFromResourceName(KeyString(entries[i].0));
          return;
        }
      }
      return Failure(NoResourceForClass(className));
    }

    /**
     * The definition named n, from the cache or built, cached and completed.
     * A definition is cached before anything it refers to is resolved, so
     * a reference back to it (directly or through other definitions)
     * receives the same, still incomplete object.
     */
    method CreateFromResourceName(n: string) returns (r: Result<ResourceDefinition, FactoryError>)
      requires Valid()
      modifies this
      decreases ConfiguredNames() - generatedResourceDefinitions.Keys, 0
      ensures Valid()
      ensures Extends(old(generatedResourceDefinitions), generatedResourceDefinitions)
      ensures n in old(generatedResourceDefinitions) ==>
        r == Success(old(generatedResourceDefinitions)[n])
        && generatedResourceDefinitions == old(generatedResourceDefinitions)
      ensures n !in old(generatedResourceDefinitions) && !Configured(n) ==>
        r == Failure(ResourceNotDefined(n)) && generatedResourceDefinitions == old(generatedResourceDefinitions)
      ensures r.Success? ==>
        r.value.name == n && n in generatedResourceDefinitions && generatedResourceDefinitions[n] == r.value
      ensures r.Success? && n !in old(generatedResourceDefinitions) ==>
        fresh(r.value) && r.value.Snapshot() == ExpectedNode(n, EffectiveConfiguration(n), catalog)
      ensures r.Failure? ==> IsBuildError(r.error, old(generatedResourceDefinitions).Keys)
      ensures r == Failure(ResourceNotDefined(n)) ==> !Configured(n)
    {
      if n in generatedResourceDefinitions {
        return Success(generatedResourceDefinitions[n]);
      }
      var entry := At(Field(apiConfiguration, "resources"), StringKey(n));
      if entry == Null {
        return Failure(ResourceNotDefined(n));
      }
      var common := if IsSet(apiConfiguration, "commonConfiguration")
        then Field(apiConfiguration, "commonConfiguration") else Arr([]);
      if !common.Arr? || !entry.Arr? {
        return Failure(NotAnArray);
      }
      var config := Merge(common, entry);
      var d := new ResourceDefinition(n, config);
      ghost var before := ConfiguredNames() - generatedResourceDefinitions.Keys;
      ConfiguredNamed(n);
      generatedResourceDefinitions := generatedResourceDefinitions[n := d];
      assert n in before && n !in ConfiguredNames() - generatedResourceDefinitions.Keys;
      assert ConfiguredNames() - generatedResourceDefinitions.Keys < before;

      var err := Complete(d, config);
      if err.Some? {
        return Failure(err.value);
      }
      return Success(d);
    }

    /**
     * Completes a definition that is already cached: its links first, then
     * its alias target, its collection element or its own properties.
     */
    method Complete(d: ResourceDefinition, config: Value) returns (err: Option<FactoryError>)
      requires Valid()
      requires d.Snapshot() == Node(d.name, config, Null, None, None, [], [], [])
      modifies this, d
      decreases ConfiguredNames() - generatedResourceDefinitions.Keys, 4
      ensures Valid()
      ensures Extends(old(generatedResourceDefinitions), generatedResourceDefinitions)
      ensures err.None? ==> d.Snapshot() == ExpectedNode(d.name, config, catalog)
      ensures err.Some? ==> IsBuildError(err.value, old(generatedResourceDefinitions).Keys)
    {
      err := AddLinkDefinitions(d, EntriesOf(Field(config, "links")));
      if err.Some? {
        return;
      }
      if IsSet(config, "aliasFor") {
        var target := CreateFromResourceName(PhpString(Field(config, "aliasFor")));
        if target.Failure? {
          return Some(target.error);
        }
        d.SetAliasFor(target.value);
        return None;
      }
      if IsSet(config, "collectionOf") {
        var target := CreateFromResourceName(PhpString(Field(config, "collectionOf")));
        if target.Failure? {
          return Some(target.error);
        }
        d.SetCollectionOf(target.value);
        return None;
      }
      err := CompletePlain(d, config);
    }

    /**
     * Completes a definition that is neither an alias nor a collection: the
     * bound class is loaded, then the description and the properties are set.
     */
    method CompletePlain(d: ResourceDefinition, config: Value) returns (err: Option<FactoryError>)
      requires Valid()
      requires !IsSet(config, "aliasFor") && !IsSet(config, "collectionOf")
      requires d.Snapshot() == ExpectedNode(d.name, config, catalog).(description := Null, properties := [], embedded := [])
      modifies this, d
      decreases ConfiguredNames() - generatedResourceDefinitions.Keys, 3
      ensures Valid()
      ensures Extends(old(generatedResourceDefinitions), generatedResourceDefinitions)
      ensures err.None? ==> d.Snapshot() == ExpectedNode(d.name, config, catalog)
      ensures err.Some? ==> IsBuildError(err.value, old(generatedResourceDefinitions).Keys)
    {
      var hasClass := IsSet(config, "className");
      var info := ClassInfo([], [], Null, map[], map[]);
      if hasClass {
        var className := PhpString(Field(config, "className"));
        if className !in catalog {
          return Some(ClassNotFound(className));
        }
        info := catalog[className];
      }

      if IsSet(config, "description") {
        d.SetDescription(Field(config, "description"));
      } else if hasClass {
        d.SetDescription(info.description);
      }

      var classNames := [];
      if hasClass {
        classNames := GettablePropertyNames(info);
      }
      err := AddPropertyDefinitions(d, config, hasClass, info, ResourcePropertyNames(config, classNames));
    }

    /** The link definition for the entry `rel: lc` under `links`; a linked resource is resolved first. */
    method CreateLinkDefinition(rel: Key, lc: Value) returns (r: Result<ResourceLinkDefinition, FactoryError>)
      requires Valid()
      modifies this
      decreases ConfiguredNames() - generatedResourceDefinitions.Keys, 1
      ensures Valid()
      ensures Extends(old(generatedResourceDefinitions), generatedResourceDefinitions)
      ensures r.Success? ==> fresh(r.value) && r.value.Snapshot() == ExpectedLink(rel, lc)
      ensures r.Success? && IsSet(lc, "resource") ==> PhpString(Field(lc, "resource")) in generatedResourceDefinitions
      ensures r.Failure? ==> IsBuildError(r.error, old(generatedResourceDefinitions).Keys)
    {
      if IsSet(lc, "resource") {
        var target := CreateFromResourceName(PhpString(Field(lc, "resource")));
        if target.Failure? {
          return Failure(target.error);
        }
      }
      if IsSet(lc, "routeValues") && !Field(lc, "routeValues").Arr? {
        return Failure(NotAnArray);
      }
      var l := NewLinkDefinition(rel, lc);
      return Success(l);
    }

    /** The setters for the entry `rel: lc`, once its linked resource (if any) is resolved. */
    static method NewLinkDefinition(rel: Key, lc: Value) returns (l: ResourceLinkDefinition)
      requires IsSet(lc, "routeValues") ==> Field(lc, "routeValues").Arr?
      ensures fresh(l) && l.Snapshot() == ExpectedLink(rel, lc)
    {
      ghost var e := ExpectedLink(rel, lc);
      l := new ResourceLinkDefinition(KeyString(rel));
      if IsSet(lc, "title") {
        l.SetTitle(Field(lc, "title"));
      }
      if IsSet(lc, "name") {
        l.SetName(Field(lc, "name"));
      }
      assert l.Snapshot() == DefaultLink(e.rel).(title := e.title, name := e.name);
      if IsSet(lc, "resource") {
        l.SetResourceDefinition(PhpString(Field(lc, "resource")));
      }
      SetRouting(l, lc);
    }

    /** The routing setters of the entry `lc`, on a link whose title, name and resource are already set. */
    static method SetRouting(l: ResourceLinkDefinition, lc: Value)
      requires IsSet(lc, "routeValues") ==> Field(lc, "routeValues").Arr?
      requires l.Snapshot() == DefaultLink(l.rel).(title := Field(lc, "title"), name := Field(lc, "name"),
        resourceDefinition := if IsSet(lc, "resource") then Some(PhpString(Field(lc, "resource"))) else None)
      modifies l
      ensures l.Snapshot() == old(l.Snapshot()).(routeValues := Field(lc, "routeValues"), appendQueryString := Field(lc, "append"),
        absolute := if IsSet(lc, "absolute") then Field(lc, "absolute") else Bool(false),
        templated := if IsSet(lc, "templated") then Field(lc, "templated") else Bool(false))
    {
      if IsSet(lc, "routeValues") {
        l.SetRouteValues(Field(lc, "routeValues"));
      }
      if IsSet(lc, "append") {
        l.SetAppendQueryString(Field(lc, "append"));
      }
      if IsSet(lc, "absolute") {
        l.SetAbsolute(Field(lc, "absolute"));
      }
      if IsSet(lc, "templated") {
        l.SetTemplated(Field(lc, "templated"));
      }
    }

    /** One link definition per entry under `links`, added in order. */
    method AddLinkDefinitions(d: ResourceDefinition, links: Dict<Key, Value>) returns (err: Option<FactoryError>)
      requires Valid()
      requires d.linkDefinitions == []
      modifies this, d
      decreases ConfiguredNames() - generatedResourceDefinitions.Keys, 2
      ensures Valid()
      ensures Extends(old(generatedResourceDefinitions), generatedResourceDefinitions)
      ensures d.Snapshot() == old(d.Snapshot()).(links := d.linkDefinitions)
      ensures err.None? ==> d.linkDefinitions == LinkDefs(links)
      ensures err.Some? ==> IsBuildError(err.value, old(generatedResourceDefinitions).Keys)
    {
      for i := 0 to |links|
        invariant Valid()
        invariant Extends(old(generatedResourceDefinitions), generatedResourceDefinitions)
        invariant d.Snapshot() == old(d.Snapshot()).(links := d.linkDefinitions)
        invariant d.linkDefinitions == LinkDefs(links[..i])
      {
        var l := CreateLinkDefinition(links[i].0, links[i].1);
        if l.Failure? {
          return Some(l.error);
        }
        d.AddLinkDefinition(l.value);
        LinkDefsStep(links, i);
      }
      assert links[..|links|] == links;
      return None;
    }

    /** Adds the property p: a flat one as a property definition, any other as an embedded resource. */
    method AddPropertyDefinition(d: ResourceDefinition, config: Value, hasClass: bool, info: ClassInfo, p: string)
      returns (err: Option<FactoryError>)
      requires Valid()
      modifies this, d
      decreases ConfiguredNames() - generatedResourceDefinitions.Keys, 1
      ensures Valid()
      ensures Extends(old(generatedResourceDefinitions), generatedResourceDefinitions)
      ensures d.Snapshot() == old(d.Snapshot()).(properties := d.propertyDefinitions, embedded := d.embeddedResourceDefinitions)
      ensures IsFlat(hasClass, info, p) ==> err.None?
      ensures err.None? ==>
        && d.propertyDefinitions ==
             (if IsFlat(hasClass, info, p) then Put(old(d.propertyDefinitions), p, ExpectedProperty(config, hasClass, info, p))
              else old(d.propertyDefinitions))
        && d.embeddedResourceDefinitions ==
             (if IsFlat(hasClass, info, p) then old(d.embeddedResourceDefinitions)
              else Put(old(d.embeddedResourceDefinitions), p, p))
      ensures err.None? && !IsFlat(hasClass, info, p) ==> p in generatedResourceDefinitions
      ensures err.Some? ==> IsBuildError(err.value, old(generatedResourceDefinitions).Keys)
    {
      var pd := NewPropertyDefinition(config, hasClass, info, p);
      if !hasClass || p !in info.schema {
        d.AddPropertyDefinition(pd);
      } else {
        var propertyType := info.schema[p];
        if propertyType == "DateTime" || IsSimpleType(propertyType) {
          d.AddPropertyDefinition(pd);
        } else {
          var embedded := CreateFromResourceName(p);
          if embedded.Failure? {
            return Some(embedded.error);
          }
          d.AddEmbeddedResourceDefinition(embedded.value, None);
        }
      }
      return None;
    }

    /** The property definition for p, with its description, static value and schema type. */
    static method NewPropertyDefinition(config: Value, hasClass: bool, info: ClassInfo, p: string)
      returns (pd: ResourcePropertyDefinition)
      ensures fresh(pd) && pd.Snapshot() == ExpectedProperty(config, hasClass, info, p)
    {
      pd := new ResourcePropertyDefinition(p);
      var pc := PropertyConfiguration(config, p);
      if IsSet(pc, "description") {
        pd.SetDescription(Field(pc, "description"));
      } else if hasClass && p in info.propertyDescriptions {
        pd.SetDescription(info.propertyDescriptions[p]);
      }
      if IsSet(pc, "staticValue") {
        pd.SetStaticValue(Field(pc, "staticValue"));
      }
      if hasClass && p in info.schema {
        pd.SetType(Str(info.schema[p]));
      }
    }

    /** The properties in order. */
    method AddPropertyDefinitions(d: ResourceDefinition, config: Value, hasClass: bool, info: ClassInfo, names: seq<string>)
      returns (err: Option<FactoryError>)
      requires Valid()
      requires d.propertyDefinitions == [] && d.embeddedResourceDefinitions == []
      modifies this, d
      decreases ConfiguredNames() - generatedResourceDefinitions.Keys, 2
      ensures Valid()
      ensures Extends(old(generatedResourceDefinitions), generatedResourceDefinitions)
      ensures d.Snapshot() == old(d.Snapshot()).(properties := d.propertyDefinitions, embedded := d.embeddedResourceDefinitions)
      ensures err.None? ==>
        && d.propertyDefinitions == PropertyDefs(config, hasClass, info, names)
        && d.embeddedResourceDefinitions == EmbeddedDefs(hasClass, info, names)
      ensures err.Some? ==> IsBuildError(err.value, old(generatedResourceDefinitions).Keys)
    {
      for i := 0 to |names|
        invariant Valid()
        invariant Extends(old(generatedResourceDefinitions), generatedResourceDefinitions)
        invariant d.Snapshot() == old(d.Snapshot()).(properties := d.propertyDefinitions, embedded := d.embeddedResourceDefinitions)
        invariant d.propertyDefinitions == PropertyDefs(config, hasClass, info, names[..i])
        invariant d.embeddedResourceDefinitions == EmbeddedDefs(hasClass, info, names[..i])
      {
        err := AddPropertyDefinition(d, config, hasClass, info, names[i]);
        if err.Some? {
          return;
        }
        PropertyDefsStep(config, hasClass, info, names, i);
      }
      assert names[..|names|] == names;
      return None;
    }
  }
}
