/**
 * What the factory builds for one resource, as functions of its effective
 * configuration and of the reflection data of its bound class.
 */
module FactorySpec {
  import opened OrderedDicts
  import opened PhpValues
  import opened PropertyDefinitions
  import opened LinkDefinitions
  import opened ResourceDefinitions
  import opened PropertyNames

  /** Flow's simple types (`TypeHandling::isSimpleType`), with their aliases. */
  predicate IsSimpleType(t: string)
  {
    t in {"array", "string", "float", "double", "integer", "int", "boolean", "bool"}
  }

  /**
   * A property stays a flat property unless the class schema knows it with
   * a type that is neither `DateTime` nor simple; then it is embedded.
   */
  predicate IsFlat(hasClass: bool, info: ClassInfo, p: string)
  {
    !hasClass || p !in info.schema || info.schema[p] == "DateTime" || IsSimpleType(info.schema[p])
  }

  /** The configuration under `properties.<p>`, NULL when there is none. */
  function PropertyConfiguration(config: Value, p: string): Value
  {
    At(Field(config, "properties"), StringKey(p))
  }

  /** The property definition the factory builds for the name p. */
  function ExpectedProperty(config: Value, hasClass: bool, info: ClassInfo, p: string): (d: PropertyDef)
    ensures d.name == p
  {
    var pc := PropertyConfiguration(config, p);
    var description :=
      if IsSet(pc, "description") then Field(pc, "description")
      else if hasClass && p in info.propertyDescriptions then info.propertyDescriptions[p]
      else Null;
    var propertyType := if hasClass && p in info.schema then Str(info.schema[p]) else Null;
    PropertyDef(p, description, propertyType, Field(pc, "staticValue"))
  }

  /** For each name in order, `f` of the name stored under it when `keep` holds of it. */
  function Collect<V>(names: seq<string>, keep: string -> bool, f: string -> V): Dict<string, V>
  {
    if names == [] then []
    else
      var p := names[|names| - 1];
      var acc := Collect(names[..|names| - 1], keep, f);
      if keep(p) then Put(acc, p, f(p)) else acc
  }

  /** A listed name that `keep` holds of maps to `f` of it; no other name is present. */
  lemma {:induction false} CollectAt<V>(names: seq<string>, keep: string -> bool, f: string -> V, p: string)
    ensures Get(Collect(names, keep, f), p) == if p in names && keep(p) then Some(f(p)) else None
  {
    if names != [] {
      var init := names[..|names| - 1];
      var last := names[|names| - 1];
      CollectAt(init, keep, f, p);
      assert names == init + [last];
      assert p in names <==> p in init || p == last;
    }
  }

  function FlatOf(hasClass: bool, info: ClassInfo): string -> bool
  {
    p => IsFlat(hasClass, info, p)
  }

  function NestedOf(hasClass: bool, info: ClassInfo): string -> bool
  {
    p => !IsFlat(hasClass, info, p)
  }

  function ExpectedPropertyOf(config: Value, hasClass: bool, info: ClassInfo): string -> PropertyDef
  {
    p => ExpectedProperty(config, hasClass, info, p)
  }

  /** The resource of an embedded property is the one named like the property. */
  function SameName(): string -> Handle
  {
    p => p
  }

  /** The property definitions for the names, added one after the other. */
  function PropertyDefs(config: Value, hasClass: bool, info: ClassInfo, names: seq<string>): Dict<string, PropertyDef>
  {
    Collect(names, FlatOf(hasClass, info), ExpectedPropertyOf(config, hasClass, info))
  }

  /** The embedded definitions for the names: each is the resource of the property's own name. */
  function EmbeddedDefs(hasClass: bool, info: ClassInfo, names: seq<string>): Dict<string, Handle>
  {
    Collect(names, NestedOf(hasClass, info), SameName())
  }

  /**
   * Every listed name ends up in exactly one place: a flat name as a
   * property definition keyed by that name, any other name as an embedded
   * definition keyed and resolved by that name.
   */
  lemma PropertyDefsSplit(config: Value, hasClass: bool, info: ClassInfo, names: seq<string>, p: string)
    ensures Get(PropertyDefs(config, hasClass, info, names), p) ==
      if p in names && IsFlat(hasClass, info, p) then Some(ExpectedProperty(config, hasClass, info, p)) else None
    ensures Get(EmbeddedDefs(hasClass, info, names), p) ==
      if p in names && !IsFlat(hasClass, info, p) then Some(p) else None
  {
    CollectAt(names, FlatOf(hasClass, info), ExpectedPropertyOf(config, hasClass, info), p);
    CollectAt(names, NestedOf(hasClass, info), SameName(), p);
  }

  /** The link definition the factory builds for the entry `rel: lc` under `links`. */
  function ExpectedLink(rel: Key, lc: Value): (l: LinkDef)
    ensures l.rel == KeyString(rel)
  {
    LinkDef(
      KeyString(rel),
      Field(lc, "title"),
      Field(lc, "name"),
      if IsSet(lc, "resource") then Some(PhpString(Field(lc, "resource"))) else None,
      Field(lc, "routeValues"),
      Field(lc, "append"),
      if IsSet(lc, "absolute") then Field(lc, "absolute") else Bool(false),
      if IsSet(lc, "templated") then Field(lc, "templated") else Bool(false))
  }

  /** The link definitions for the configured links, added one after the other. */
  function LinkDefs(links: Dict<Key, Value>): Dict<string, LinkDef>
  {
    if links == [] then []
    else
      var (rel, lc) := links[|links| - 1];
      Put(LinkDefs(links[..|links| - 1]), KeyString(rel), ExpectedLink(rel, lc))
  }

  /** The relations, as strings, in configuration order. */
  function Rels(links: Dict<Key, Value>): seq<string>
  {
    if links == [] then [] else Rels(links[..|links| - 1]) + [KeyString(links[|links| - 1].0)]
  }

  /** No two configured relations read the same as strings. */
  predicate DistinctRels(links: Dict<Key, Value>)
  {
    forall i, j :: 0 <= i < j < |links| ==> KeyString(links[i].0) != KeyString(links[j].0)
  }

  lemma DistinctRelsInit(links: Dict<Key, Value>)
    requires DistinctRels(links) && links != []
    ensures DistinctRels(links[..|links| - 1])
    ensures KeyString(links[|links| - 1].0) !in Rels(links[..|links| - 1])
  {
    var init := links[..|links| - 1];
    forall i, j | 0 <= i < j < |init| ensures KeyString(init[i].0) != KeyString(init[j].0) {
      assert init[i] == links[i] && init[j] == links[j];
    }
    RelsMembers(init);
    forall i | 0 <= i < |init| ensures Rels(init)[i] != KeyString(links[|links| - 1].0) {
      assert init[i] == links[i];
    }
  }

  /** With distinct relations, the links are kept in configuration order. */
  lemma {:induction false} LinkDefsKeys(links: Dict<Key, Value>)
    requires DistinctRels(links)
    ensures Keys(LinkDefs(links)) == Rels(links)
  {
    if links != [] {
      DistinctRelsInit(links);
      LinkDefsKeys(links[..|links| - 1]);
    }
  }

  /** With distinct relations, each relation maps to the link built from its own entry. */
  lemma {:induction false} LinkDefsValues(links: Dict<Key, Value>, i: nat)
    requires DistinctRels(links) && i < |links|
    ensures Get(LinkDefs(links), KeyString(links[i].0)) == Some(ExpectedLink(links[i].0, links[i].1))
  {
    var n := |links| - 1;
    var init := links[..n];
    if i < n {
      DistinctRelsInit(links);
      LinkDefsValues(init, i);
      assert init[i] == links[i];
      assert KeyString(links[i].0) != KeyString(links[n].0);
    }
  }

  /**
   * With distinct relations, the links are kept in configuration order and
   * each relation maps to the link built from its own entry.
   */
  lemma LinkDefsInOrder(links: Dict<Key, Value>)
    requires DistinctRels(links)
    ensures Keys(LinkDefs(links)) == Rels(links)
    ensures forall i :: 0 <= i < |links| ==>
      Get(LinkDefs(links), KeyString(links[i].0)) == Some(ExpectedLink(links[i].0, links[i].1))
  {
    LinkDefsKeys(links);
    forall i | 0 <= i < |links|
      ensures Get(LinkDefs(links), KeyString(links[i].0)) == Some(ExpectedLink(links[i].0, links[i].1))
    {
      LinkDefsValues(links, i);
    }
  }

  lemma {:induction false} RelsMembers(links: Dict<Key, Value>)
    ensures |Rels(links)| == |links|
    ensures forall i :: 0 <= i < |links| ==> Rels(links)[i] == KeyString(links[i].0)
  {
    if links != [] {
      var init := links[..|links| - 1];
      RelsMembers(init);
      forall i | 0 <= i < |links| ensures Rels(links)[i] == KeyString(links[i].0) {
        if i < |init| {
          assert init[i] == links[i];
        }
      }
    }
  }

  /** The description: the configured one, else the class description when a class is bound. */
  function Description(config: Value, hasClass: bool, info: ClassInfo): Value
  {
    if IsSet(config, "description") then Field(config, "description")
    else if hasClass then info.description
    else Null
  }

  /** The catalog entry of the bound class; a class-less stand-in when no class is bound or known. */
  function ClassOf(config: Value, catalog: map<string, ClassInfo>): ClassInfo
  {
    var className := PhpString(Field(config, "className"));
    if IsSet(config, "className") && className in catalog then catalog[className]
    else ClassInfo([], [], Null, map[], map[])
  }

  /** The property names of a resource whose bound class (if any) is described by `info`. */
  function PropertyNamesOf(config: Value, info: ClassInfo): seq<string>
  {
    ResourcePropertyNames(config, if IsSet(config, "className") then ClassPropertyNames(info) else [])
  }

  /**
   * The finished definition named n with effective configuration `config`:
   * an alias (checked first) or a collection carries only its links and its
   * target; any other definition carries its description, properties,
   * embedded definitions and links.
   */
  function ExpectedNode(n: string, config: Value, catalog: map<string, ClassInfo>): Node
  {
    var links := LinkDefs(EntriesOf(Field(config, "links")));
    if IsSet(config, "aliasFor") then
      Node(n, config, Null, Some(PhpString(Field(config, "aliasFor"))), None, [], links, [])
    else if IsSet(config, "collectionOf") then
      Node(n, config, Null, None, Some(PhpString(Field(config, "collectionOf"))), [], links, [])
    else
      var hasClass := IsSet(config, "className");
      var info := ClassOf(config, catalog);
      var names := PropertyNamesOf(config, info);
      Node(n, config, Description(config, hasClass, info), None, None,
           PropertyDefs(config, hasClass, info, names), links, EmbeddedDefs(hasClass, info, names))
  }

  /**
   * The shape of a finished definition: an alias or a collection has no
   * description, property or embedded entry; `aliasFor` wins over
   * `collectionOf`; a plain definition exposes exactly the selected
   * property names, split into flat and embedded ones.
   */
  lemma ExpectedNodeShape(n: string, config: Value, catalog: map<string, ClassInfo>, p: string)
    ensures var node := ExpectedNode(n, config, catalog);
      && node.name == n && node.options == config
      && node.links == LinkDefs(EntriesOf(Field(config, "links")))
      && (IsSet(config, "aliasFor") ==>
            node.IsAlias() && node.collectionOf.None? && node.description == Null
            && node.properties == [] && node.embedded == [])
      && (!IsSet(config, "aliasFor") && IsSet(config, "collectionOf") ==>
            !node.IsAlias() && node.collectionOf.Some? && node.description == Null
            && node.properties == [] && node.embedded == [])
      && (!IsSet(config, "aliasFor") && !IsSet(config, "collectionOf") ==>
            var info := ClassOf(config, catalog);
            var hasClass := IsSet(config, "className");
            var names := PropertyNamesOf(config, info);
            && !node.IsAlias() && node.collectionOf.None?
            && (p in Keys(node.properties) <==> p in names && IsFlat(hasClass, info, p))
            && (p in Keys(node.embedded) <==> p in names && !IsFlat(hasClass, info, p)))
  {
    var info := ClassOf(config, catalog);
    var hasClass := IsSet(config, "className");
    PropertyDefsSplit(config, hasClass, info, PropertyNamesOf(config, info), p);
  }
}
