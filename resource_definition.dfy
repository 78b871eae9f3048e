/**
 * A resource definition: a named node with configuration options, an
 * optional alias target, an optional element definition when it describes a
 * collection, and keyed maps of property, link and embedded definitions.
 *
 * Definitions refer to one another by handle, the resource name under which
 * the factory caches them; the pure queries (isCollection, getOptions, ...)
 * are stated over a registry of definition snapshots.
 */
module ResourceDefinitions {
  import opened OrderedDicts
  import opened PhpValues
  import opened PropertyDefinitions
  import opened LinkDefinitions

  type Handle = string

  /** The state of one `ResourceDefinition` object. */
  datatype Node = Node(
    name: string,
    options: Value,
    description: Value,
    aliasFor: Option<Handle>,
    collectionOf: Option<Handle>,
    properties: Dict<string, PropertyDef>,
    links: Dict<string, LinkDef>,
    embedded: Dict<string, Handle>)
  {
    predicate IsAlias()
    {
      aliasFor.Some?
    }
  }

  /** All definitions of one factory, by handle. */
  type Registry = map<Handle, Node>

  class ResourceDefinition {
    const name: string
    const options: Value
    var description: Value
    var aliasFor: Option<Handle>
    var collectionOf: Option<Handle>
    var propertyDefinitions: Dict<string, PropertyDef>
    var linkDefinitions: Dict<string, LinkDef>
    var embeddedResourceDefinitions: Dict<string, Handle>

    /** The source types `$options` as an array. */
    constructor (name: string, options: Value)
      requires options.Arr?
      ensures Snapshot() == Node(name, options, Null, None, None, [], [], [])
      ensures !Snapshot().IsAlias()
    {
      this.name := name;
      this.options := options;
      description := Null;
      aliasFor, collectionOf := None, None;
      propertyDefinitions, linkDefinitions, embeddedResourceDefinitions := [], [], [];
    }

    function Snapshot(): (n: Node)
      reads this
      ensures n.name == name && n.options == options
    {
      Node(name, options, description, aliasFor, collectionOf,
           propertyDefinitions, linkDefinitions, embeddedResourceDefinitions)
    }

    method SetAliasFor(target: ResourceDefinition)
      modifies this
      ensures Snapshot() == old(Snapshot()).(aliasFor := Some(target.name))
      ensures Snapshot().IsAlias()
    {
      aliasFor := Some(target.name);
    }

    method SetCollectionOf(target: ResourceDefinition)
      modifies this
      ensures Snapshot() == old(Snapshot()).(collectionOf := Some(target.name))
    {
      collectionOf := Some(target.name);
    }

    method SetDescription(description: Value)
      modifies this
      ensures Snapshot() == old(Snapshot()).(description := description)
    {
      this.description := description;
    }

    /** Keyed by the property name: a second definition of the same name replaces the first in place. */
    method AddPropertyDefinition(p: ResourcePropertyDefinition)
      modifies this
      ensures Snapshot() == old(Snapshot()).(properties := propertyDefinitions)
      ensures propertyDefinitions == Put(old(propertyDefinitions), p.name, p.Snapshot())
      ensures Get(propertyDefinitions, p.name) == Some(p.Snapshot())
      ensures forall k :: k != p.name ==> Get(propertyDefinitions, k) == Get(old(propertyDefinitions), k)
      ensures Keys(propertyDefinitions) ==
        if p.name in Keys(old(propertyDefinitions)) then Keys(old(propertyDefinitions))
        else Keys(old(propertyDefinitions)) + [p.name]
    {
      propertyDefinitions := Put(propertyDefinitions, p.name, p.Snapshot());
    }

    /** Keyed by the relation. */
    method AddLinkDefinition(l: ResourceLinkDefinition)
      modifies this
      ensures Snapshot() == old(Snapshot()).(links := linkDefinitions)
      ensures linkDefinitions == Put(old(linkDefinitions), l.rel, l.Snapshot())
      ensures Get(linkDefinitions, l.rel) == Some(l.Snapshot())
      ensures forall k :: k != l.rel ==> Get(linkDefinitions, k) == Get(old(linkDefinitions), k)
      ensures Keys(linkDefinitions) ==
        if l.rel in Keys(old(linkDefinitions)) then Keys(old(linkDefinitions))
        else Keys(old(linkDefinitions)) + [l.rel]
    {
      linkDefinitions := Put(linkDefinitions, l.rel, l.Snapshot());
    }

    /** Keyed by the property name, which defaults to the name of the embedded definition. */
    method AddEmbeddedResourceDefinition(embedded: ResourceDefinition, propertyName: Option<string>)
      modifies this
      ensures var key := if propertyName.Some? then propertyName.value else embedded.name;
        && Snapshot() == old(Snapshot()).(embedded := embeddedResourceDefinitions)
        && embeddedResourceDefinitions == Put(old(embeddedResourceDefinitions), key, embedded.name)
        && Get(embeddedResourceDefinitions, key) == Some(embedded.name)
        && forall k :: k != key ==>
             Get(embeddedResourceDefinitions, k) == Get(old(embeddedResourceDefinitions), k)
    {
      var key := if propertyName.Some? then propertyName.value else embedded.name;
      embeddedResourceDefinitions := Put(embeddedResourceDefinitions, key, embedded.name);
    }
  }

  /** The alias chain from h is finite: it never returns to a handle in `seen`. */
  predicate AliasChain(reg: Registry, h: Handle, seen: set<Handle>)
    decreases reg.Keys - seen
  {
    h in reg && h !in seen &&
    (reg[h].aliasFor.Some? ==> AliasChain(reg, reg[h].aliasFor.value, seen + {h}))
  }

  function IsCollectionFrom(reg: Registry, h: Handle, seen: set<Handle>): bool
    requires AliasChain(reg, h, seen)
    decreases reg.Keys - seen
  {
    if reg[h].aliasFor.Some? then IsCollectionFrom(reg, reg[h].aliasFor.value, seen + {h})
    else reg[h].collectionOf.Some?
  }

  function GetCollectionOfFrom(reg: Registry, h: Handle, seen: set<Handle>): Option<Handle>
    requires AliasChain(reg, h, seen)
    decreases reg.Keys - seen
  {
    if reg[h].aliasFor.Some? then GetCollectionOfFrom(reg, reg[h].aliasFor.value, seen + {h})
    else reg[h].collectionOf
  }

  /** `isCollection()`: an alias asks its target, any other definition whether `collectionOf` is set. */
  function IsCollection(reg: Registry, h: Handle): bool
    requires AliasChain(reg, h, {})
  {
    IsCollectionFrom(reg, h, {})
  }

  /** `getCollectionOf()`: an alias asks its target. */
  function GetCollectionOf(reg: Registry, h: Handle): Option<Handle>
    requires AliasChain(reg, h, {})
  {
    GetCollectionOfFrom(reg, h, {})
  }

  /** The answers along an alias chain do not depend on which handles were already visited. */
  lemma {:induction false} AliasChainSeen(reg: Registry, h: Handle, seen: set<Handle>, fewer: set<Handle>)
    requires AliasChain(reg, h, seen) && fewer <= seen
    ensures AliasChain(reg, h, fewer)
    ensures IsCollectionFrom(reg, h, seen) == IsCollectionFrom(reg, h, fewer)
    ensures GetCollectionOfFrom(reg, h, seen) == GetCollectionOfFrom(reg, h, fewer)
    decreases reg.Keys - seen
  {
    if reg[h].aliasFor.Some? {
      AliasChainSeen(reg, reg[h].aliasFor.value, seen + {h}, fewer + {h});
    }
  }

  /**
   * An alias is a collection exactly when its target is, with the target's
   * element definition; a definition that is no alias reports its own
   * `collectionOf`.
   */
  lemma AliasDelegatesCollection(reg: Registry, h: Handle)
    requires AliasChain(reg, h, {})
    ensures reg[h].IsAlias() ==>
      var t := reg[h].aliasFor.value;
      && AliasChain(reg, t, {})
      && IsCollection(reg, h) == IsCollection(reg, t)
      && GetCollectionOf(reg, h) == GetCollectionOf(reg, t)
    ensures !reg[h].IsAlias() ==>
      IsCollection(reg, h) == reg[h].collectionOf.Some? && GetCollectionOf(reg, h) == reg[h].collectionOf
  {
    if reg[h].IsAlias() {
      var none: set<Handle> := {};
      AliasChainSeen(reg, reg[h].aliasFor.value, none + {h}, none);
    }
  }

  /**
   * `getOptions()` terminates and does not fail from h (handles in `seen`
   * were visited already). A collection reads its own `collectionOf` field:
   * an alias whose target is a collection has that field unset, and the
   * source then dereferences NULL; such a definition does not satisfy this.
   */
  predicate OptionsChain(reg: Registry, h: Handle, seen: set<Handle>)
    decreases reg.Keys - seen
  {
    && AliasChain(reg, h, {})
    && h !in seen
    && reg[h].options.Arr?
    && if IsCollection(reg, h) then
         reg[h].collectionOf.Some? && OptionsChain(reg, reg[h].collectionOf.value, seen + {h})
       else
         reg[h].aliasFor.Some? ==> OptionsChain(reg, reg[h].aliasFor.value, seen + {h})
  }

  /** The source's `includeProperties` key, which merging never combines. */
  const IncludeProperties := "includeProperties"

  /**
   * `mergeOptions($baseOptions)`: the local options merged over the base
   * options, except that a local `includeProperties` replaces the base one
   * outright.
   */
  function MergeOptions(local: Value, base: Value): (r: Value)
    requires local.Arr? && base.Arr?
    ensures r.Arr?
  {
    var merged := Merge(base, local);
    if IsSet(local, IncludeProperties) then
      Arr(Put(merged.entries, Name(IncludeProperties), Field(local, IncludeProperties)))
    else merged
  }

  function GetOptionsFrom(reg: Registry, h: Handle, seen: set<Handle>): (r: Value)
    requires OptionsChain(reg, h, seen)
    decreases reg.Keys - seen
    ensures r.Arr?
  {
    var n := reg[h];
    if IsCollection(reg, h) then MergeOptions(n.options, GetOptionsFrom(reg, n.collectionOf.value, seen + {h}))
    else if n.aliasFor.Some? then MergeOptions(n.options, GetOptionsFrom(reg, n.aliasFor.value, seen + {h}))
    else n.options
  }

  /** `getOptions()`: the effective options of a definition. */
  function GetOptions(reg: Registry, h: Handle): (r: Value)
    requires OptionsChain(reg, h, {})
    ensures r.Arr?
  {
    GetOptionsFrom(reg, h, {})
  }

  lemma {:induction false} OptionsChainSeen(reg: Registry, h: Handle, seen: set<Handle>, fewer: set<Handle>)
    requires OptionsChain(reg, h, seen) && fewer <= seen
    ensures OptionsChain(reg, h, fewer)
    ensures GetOptionsFrom(reg, h, seen) == GetOptionsFrom(reg, h, fewer)
    decreases reg.Keys - seen
  {
    var n := reg[h];
    if IsCollection(reg, h) {
      OptionsChainSeen(reg, n.collectionOf.value, seen + {h}, fewer + {h});
    } else if n.aliasFor.Some? {
      OptionsChainSeen(reg, n.aliasFor.value, seen + {h}, fewer + {h});
    }
  }

  /**
   * How `getOptions()` delegates: a collection merges its options over those
   * of its element definition, an alias over those of its target, and any
   * other definition returns its own options unchanged.
   */
  lemma GetOptionsDelegates(reg: Registry, h: Handle)
    requires OptionsChain(reg, h, {})
    ensures var n := reg[h];
      && (IsCollection(reg, h) ==>
            n.collectionOf.Some? && OptionsChain(reg, n.collectionOf.value, {})
            && GetOptions(reg, h) == MergeOptions(n.options, GetOptions(reg, n.collectionOf.value)))
      && (!IsCollection(reg, h) && n.IsAlias() ==>
            OptionsChain(reg, n.aliasFor.value, {})
            && GetOptions(reg, h) == MergeOptions(n.options, GetOptions(reg, n.aliasFor.value)))
      && (!IsCollection(reg, h) && !n.IsAlias() ==> GetOptions(reg, h) == n.options)
  {
    var n := reg[h];
    var none: set<Handle> := {};
    if IsCollection(reg, h) {
      OptionsChainSeen(reg, n.collectionOf.value, none + {h}, none);
    } else if n.IsAlias() {
      OptionsChainSeen(reg, n.aliasFor.value, none + {h}, none);
    }
  }

  /**
   * The merged options: a local key overrides the base key (arrays on both
   * sides merge key by key), a key only in the base survives, and a local
   * `includeProperties` is taken as it is. Without a local
   * `includeProperties` key the base one survives.
   */
  lemma MergeOptionsKeys(local: Value, base: Value, k: Key)
    requires local.Arr? && base.Arr? && UniqueKeys(local.entries)
    ensures var r := MergeOptions(local, base);
      && (k == Name(IncludeProperties) && IsSet(local, IncludeProperties) ==>
            Get(r.entries, k) == Some(Field(local, IncludeProperties)))
      && (k !in Keys(local.entries) ==> Get(r.entries, k) == Get(base.entries, k))
      && (k in Keys(local.entries) && !(k == Name(IncludeProperties) && IsSet(local, IncludeProperties)) ==>
            Get(r.entries, k) == Some(MergedAt(base.entries, k, Get(local.entries, k).value)))
  {
    MergeArrays(base, local, k);
  }

  /**
   * `getLinkName()`: the name, prefixed with the `linkNamespace` of the
   * definition's own options (not the merged ones) and a colon.
   */
  function GetLinkName(n: Node): (r: string)
    ensures |n.name| <= |r| && r[|r| - |n.name|..] == n.name
    ensures !IsSet(n.options, "linkNamespace") ==> r == n.name
    ensures IsSet(n.options, "linkNamespace") ==>
      var prefix := r[..|r| - |n.name|];
      && prefix == PhpString(Field(n.options, "linkNamespace")) + ":"
      && r != n.name
  {
    if IsSet(n.options, "linkNamespace") then PhpString(Field(n.options, "linkNamespace")) + ":" + n.name
    else n.name
  }

  /**
   * An alias with options {x: 1} of a definition with options {x: 2, y: 3}
   * has the effective options {x: 1, y: 3}.
   */
  lemma AliasOptionsExample()
    ensures var reg := map[
        "A" := Node("A", Arr([(Name("x"), Int(1))]), Null, Some("B"), None, [], [], []),
        "B" := Node("B", Arr([(Name("x"), Int(2)), (Name("y"), Int(3))]), Null, None, None, [], [], [])];
      && OptionsChain(reg, "A", {})
      && GetOptions(reg, "A") == Arr([(Name("x"), Int(1)), (Name("y"), Int(3))])
  {
    var reg := map[
        "A" := Node("A", Arr([(Name("x"), Int(1))]), Null, Some("B"), None, [], [], []),
        "B" := Node("B", Arr([(Name("x"), Int(2)), (Name("y"), Int(3))]), Null, None, None, [], [], [])];
    assert AliasChain(reg, "B", {"A"});
    assert OptionsChain(reg, "B", {"A"});
    GetOptionsDelegates(reg, "A");
  }

  /**
   * Why `includeProperties` is exempt from merging: lists merge index by
   * index, so a local [a] merged over a base [a, b] would still read [a, b];
   * the merged options hold exactly [a].
   */
  lemma IncludePropertiesExample()
    ensures var base := Arr([(Name(IncludeProperties), List([Str("a"), Str("b")]))]);
      var local := Arr([(Name(IncludeProperties), List([Str("a")]))]);
      && Field(Merge(base, local), IncludeProperties) == List([Str("a"), Str("b")])
      && Field(MergeOptions(local, base), IncludeProperties) == List([Str("a")])
  {
    var ab := List([Str("a"), Str("b")]);
    var a := List([Str("a")]);
    assert ab.entries == [(Idx(0), Str("a")), (Idx(1), Str("b"))];
    assert a.entries == [(Idx(0), Str("a"))];
    assert Merge(ab, a) == ab by {
      assert MergeEntries(ab.entries, a.entries) == MergeEntries(Put(ab.entries, Idx(0), Str("a")), []);
    }
    var base := Arr([(Name(IncludeProperties), ab)]);
    var local := Arr([(Name(IncludeProperties), a)]);
    assert MergeEntries(base.entries, local.entries) == MergeEntries(Put(base.entries, Name(IncludeProperties), Merge(ab, a)), []);
  }
}
