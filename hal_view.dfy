/**
 * The HAL view's rendering steps as the source performs them: loops that
 * build the data arrays and add embeds and links one at a time, each proved
 * to compute the corresponding function of `ViewRender`.
 */
module HalView {
  import opened OrderedDicts
  import opened PhpValues
  import opened PropertyDefinitions
  import opened LinkDefinitions
  import opened ResourceDefinitions
  import opened ViewUris
  import opened ViewRender

  lemma PutEachStep(acc: Dict<string, Value>, props: Dict<string, PropertyDef>, keep: PropertyDef -> bool, f: PropertyDef -> Value, i: nat)
    requires i < |props|
    ensures PutEach(acc, props[..i + 1], keep, f) ==
      var before := PutEach(acc, props[..i], keep, f);
      if keep(props[i].1) then Put(before, props[i].1.name, f(props[i].1)) else before
  {
    assert props[..i + 1][..i] == props[..i];
  }

  /** `createEmbeddedResource`: `id` first, then the included properties. */
  method CreateEmbeddedResource(env: Env, reg: Registry, h: Handle, resource: Value, options: Value)
    returns (r: Result<EmbeddedResource, ViewError>)
    requires OptionsChain(reg, h, {})
    ensures r == EmbeddedResourceOf(env, reg, h, resource, options)
  {
    var uri := ResourceUri(env, reg, h, resource);
    if uri.Failure? {
      return Failure(uri.error);
    }
    var data := [("id", env.identifierOf(resource))];
    var props := reg[h].properties;
    for i := 0 to |props|
      invariant data == PutEach([("id", env.identifierOf(resource))], props[..i], IncludedBy(options), AbbreviatedValueOf(env, resource))
    {
      PutEachStep([("id", env.identifierOf(resource))], props, IncludedBy(options), AbbreviatedValueOf(env, resource), i);
      var pd := props[i].1;
      if !Included(options, pd.name) {
        continue;
      }
      if pd.HasStaticValue() {
        data := Put(data, pd.name, pd.staticValue);
      } else {
        var value := env.getPropertyPath(resource, pd.name);
        data := Put(data, pd.name, ConvertPropertyValue(env, value, pd));
      }
    }
    assert props[..|props|] == props;
    return Success(EmbeddedResource(uri.value, data));
  }

  /** `createCollectionResource`: the element definition, rendered with the collection's options. */
  method CreateCollectionResource(env: Env, reg: Registry, h: Handle, element: Value)
    returns (r: Result<EmbeddedResource, ViewError>)
    requires ElementsRenderable(reg, h)
    ensures r == CollectionResourceOf(env, reg, h, element)
  {
    r := CreateEmbeddedResource(env, reg, GetCollectionOf(reg, h).value, element, GetOptions(reg, h));
  }

  /** One embed per element of a collection, in order; the first failure ends the rendering. */
  method EmbedElements(env: Env, reg: Registry, h: Handle, elements: seq<Value>) returns (r: Result<seq<Embed>, ViewError>)
    requires ElementsRenderable(reg, h)
    ensures r == CollectionEmbeds(env, reg, h, elements)
  {
    var embeds: seq<Embed> := [];
    assert elements[0..] == elements;
    PrependNil(CollectionEmbeds(env, reg, h, elements));
    for i := 0 to |elements|
      invariant CollectionEmbeds(env, reg, h, elements) == Prepend(embeds, CollectionEmbeds(env, reg, h, elements[i..]))
    {
      assert elements[i..][1..] == elements[i + 1..];
      PrependAppend(embeds, ElementEmbed(env, reg, h, elements[i]), CollectionEmbeds(env, reg, h, elements[i + 1..]));
      var er := CreateCollectionResource(env, reg, h, elements[i]);
      if er.Failure? {
        return Failure(er.error);
      }
      embeds := embeds + [Embed(GetLinkName(reg[h]), er.value, false)];
    }
    assert elements[|elements|..] == [] && embeds + [] == embeds;
    return Success(embeds);
  }

  lemma EntriesRenderableSuffix(reg: Registry, entries: Dict<string, Handle>, i: nat)
    requires EntriesRenderable(reg, entries) && i <= |entries|
    ensures EntriesRenderable(reg, entries[i..])
  {
    forall j | 0 <= j < |entries[i..]| ensures EmbedRenderable(reg, entries[i..][j].1) {
      assert entries[i..][j] == entries[i + j];
    }
  }

  lemma DefinitionEmbedsStep(env: Env, reg: Registry, resource: Value, entries: Dict<string, Handle>, i: nat)
    requires EntriesRenderable(reg, entries) && i < |entries|
    ensures EntriesRenderable(reg, entries[i + 1..]) && EmbedRenderable(reg, entries[i].1)
    ensures EntriesRenderable(reg, entries[i..])
    ensures DefinitionEmbeds(env, reg, resource, entries[i..]) ==
      Append(EntryEmbeds(env, reg, resource, entries[i].0, entries[i].1), DefinitionEmbeds(env, reg, resource, entries[i + 1..]))
  {
    assert entries[i..][1..] == entries[i + 1..];
    EntriesRenderableSuffix(reg, entries, i);
    EntriesRenderableSuffix(reg, entries, i + 1);
  }

  /** The embeds for one embedded definition: one per element of a collection, at most one otherwise. */
  method EmbedEntry(env: Env, reg: Registry, resource: Value, propertyName: string, eh: Handle)
    returns (r: Result<seq<Embed>, ViewError>)
    requires EmbedRenderable(reg, eh)
    ensures r == EntryEmbeds(env, reg, resource, propertyName, eh)
  {
    var value := env.getPropertyPath(resource, propertyName);
    if IsCollection(reg, eh) {
      r := EmbedElements(env, reg, eh, Elements(env, value));
    } else if value == Null {
      r := Success([]);
    } else {
      var er := CreateEmbeddedResource(env, reg, eh, value, GetOptions(reg, eh));
      if er.Failure? {
        return Failure(er.error);
      }
      r := Success([Embed(GetLinkName(reg[eh]), er.value, true)]);
    }
  }

  /** The embeds for the embedded definitions of a definition that is not a collection. */
  method EmbedDefinitions(env: Env, reg: Registry, resource: Value, entries: Dict<string, Handle>)
    returns (r: Result<seq<Embed>, ViewError>)
    requires EntriesRenderable(reg, entries)
    ensures r == DefinitionEmbeds(env, reg, resource, entries)
  {
    var embeds: seq<Embed> := [];
    assert entries[0..] == entries;
    PrependNil(DefinitionEmbeds(env, reg, resource, entries));
    for i := 0 to |entries|
      invariant EntriesRenderable(reg, entries[i..])
      invariant DefinitionEmbeds(env, reg, resource, entries) == Prepend(embeds, DefinitionEmbeds(env, reg, resource, entries[i..]))
    {
      DefinitionEmbedsStep(env, reg, resource, entries, i);
      var (propertyName, eh) := entries[i];
      PrependAppend(embeds, EntryEmbeds(env, reg, resource, propertyName, eh), DefinitionEmbeds(env, reg, resource, entries[i + 1..]));
      var es := EmbedEntry(env, reg, resource, propertyName, eh);
      if es.Failure? {
        return Failure(es.error);
      }
      embeds := embeds + es.value;
    }
    assert entries[|entries|..] == [] && embeds + [] == embeds;
    return Success(embeds);
  }

  lemma LinksRenderableSuffix(reg: Registry, links: Dict<string, LinkDef>, i: nat)
    requires LinksRenderable(reg, links) && i <= |links|
    ensures LinksRenderable(reg, links[i..])
  {
    forall j | 0 <= j < |links[i..]| ensures LinkRenderable(reg, links[i..][j].1) {
      assert links[i..][j] == links[i + j];
    }
  }

  lemma LinksOfStep(env: Env, reg: Registry, owner: string, links: Dict<string, LinkDef>, i: nat)
    requires LinksRenderable(reg, links) && i < |links|
    ensures LinksRenderable(reg, links[i + 1..]) && LinkRenderable(reg, links[i].1)
    ensures LinksRenderable(reg, links[i..])
    ensures LinksOf(env, reg, owner, links[i..]) ==
      Append(LinkOf(env, reg, owner, links[i].1), LinksOf(env, reg, owner, links[i + 1..]))
  {
    assert links[i..][1..] == links[i + 1..];
    LinksRenderableSuffix(reg, links, i);
    LinksRenderableSuffix(reg, links, i + 1);
  }

  /** One link per link definition, in order; a failed href ends the rendering. */
  method BuildLinks(env: Env, reg: Registry, owner: string, links: Dict<string, LinkDef>)
    returns (r: Result<seq<Link>, ViewError>)
    requires LinksRenderable(reg, links)
    ensures r == LinksOf(env, reg, owner, links)
  {
    var built: seq<Link> := [];
    assert links[0..] == links;
    PrependNil(LinksOf(env, reg, owner, links));
    for i := 0 to |links|
      invariant LinksRenderable(reg, links[i..])
      invariant LinksOf(env, reg, owner, links) == Prepend(built, LinksOf(env, reg, owner, links[i..]))
    {
      LinksOfStep(env, reg, owner, links, i);
      var ld := links[i].1;
      PrependAppend(built, LinkOf(env, reg, owner, ld), LinksOf(env, reg, owner, links[i + 1..]));
      var href := LinkHref(env, reg, owner, ld);
      if href.Failure? {
        return Failure(href.error);
      }
      built := built + [Link(href.value, ld.rel, ld.title, ld.name, ld.templated)];
    }
    assert links[|links|..] == [] && built + [] == built;
    return Success(built);
  }

  /** The root data: the identifier when known, then each property, converted. */
  method BuildRootData(env: Env, resource: Value, props: Dict<string, PropertyDef>) returns (data: Dict<string, Value>)
    ensures data == RootData(env, resource, props)
  {
    data := [];
    if resource.Obj? {
      var id := env.identifierOf(resource);
      if id != Null {
        data := Put(data, "id", id);
      }
    }
    for i := 0 to |props|
      invariant data == PutEach(RootId(env, resource), props[..i], All(), RootValueOf(env, resource))
    {
      PutEachStep(RootId(env, resource), props, All(), RootValueOf(env, resource), i);
      var pd := props[i].1;
      var value := if pd.HasStaticValue() then pd.staticValue else env.getProperty(resource, pd.name);
      data := Put(data, pd.name, ConvertPropertyValue(env, value, pd));
    }
    assert props[..|props|] == props;
  }

  /** `buildHalResource` for the definition h and the resource named by the view variables. */
  method BuildHalResource(env: Env, reg: Registry, h: Handle) returns (r: Result<HalResource, ViewError>)
    requires RootRenderable(reg, h)
    ensures r == HalResourceOf(env, reg, h)
  {
    var name := GetResourceName(env.variables);
    var resource := match Get(env.variables, name) case Some(v) => v case None => Null;
    var uri := ResourceUri(env, reg, h, resource);
    if uri.Failure? {
      return Failure(uri.error);
    }
    var data := BuildRootData(env, resource, reg[h].properties);
    var embeds;
    if IsCollection(reg, h) {
      embeds := EmbedElements(env, reg, h, Elements(env, resource));
    } else {
      embeds := EmbedDefinitions(env, reg, resource, reg[h].embedded);
    }
    if embeds.Failure? {
      return Failure(embeds.error);
    }
    var links := BuildLinks(env, reg, reg[h].name, reg[h].links);
    if links.Failure? {
      return Failure(links.error);
    }
    return Success(HalResource(uri.value, data, embeds.value, links.value));
  }
}
