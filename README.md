# Wwwision.Hal — a Dafny model of the HAL resource engine

Wwwision.Hal renders domain objects as HAL (Hypertext Application Language)
documents, driven by configuration. The model covers its three parts.

- **Definitions.** `ResourceDefinition`, `ResourcePropertyDefinition` and
  `ResourceLinkDefinition` are mutable records, modelled as classes with setters.
  A definition can alias another definition or be a collection of another one.
  Queries on definitions (`isCollection`, `getCollectionOf`, `getOptions`,
  `getLinkName`) are stated over a registry of definition snapshots, keyed by
  resource name.
- **The factory.** `ResourceDefinitionFactory` builds definitions from the
  `default` API configuration and memoises them by resource name. It caches
  each definition before resolving the ones it refers to, so cyclic
  configurations terminate. The measure is the set of configured names that
  are not cached yet.
- **The view.** `HalView` assembles:
  - the self URI, from route values with `@action`/`@controller`/`@package`/`@subpackage` extracted and `{placeholders}` substituted;
  - the root data;
  - the embedded resources, one abbreviated resource per collection element, or one per singular embedded definition;
  - the links.

PHP arrays are ordered dictionaries (`OrderedDicts`). Assigning to a key replaces
its value in place or appends a new entry. Configuration trees are dynamic values
(`PhpValues.Value`), and `Arrays::arrayMergeRecursiveOverrule` is
`PhpValues.Merge`. Reflection, `ObjectAccess`, the persistence manager and the
URI builder are inputs:
- a catalog of `ClassInfo` records;
- the function fields of `ViewUris.Env`.

Each imperative operation is a method whose `ensures` ties it to a
specification function (`FactorySpec`, `ViewRender`). The properties are
proved about those functions.

| file | module | models |
|---|---|---|
| ordered_dicts.dfy | OrderedDicts | PHP array assignment, `unset`, `array_map` |
| php_values.dfy | PhpValues | dynamic values, string casts, `lcfirst`, the recursive overrule merge |
| property_definition.dfy | PropertyDefinitions | `ResourcePropertyDefinition` |
| link_definition.dfy | LinkDefinitions | `ResourceLinkDefinition` |
| resource_definition.dfy | ResourceDefinitions | `ResourceDefinition` and its queries |
| property_names.dfy | PropertyNames | `getGettablePropertyNames`, `getResourcePropertyNames` |
| factory_spec.dfy | FactorySpec | the definition the factory builds for a configuration |
| factory.dfy | Factory | `ResourceDefinitionFactory` |
| view_uris.dfy | ViewUris | URI resolution, route values, placeholders, conversion, resource name |
| view_render.dfy | ViewRender | the rendered document as a function of its inputs |
| hal_view.dfy | HalView | the view's loops, proved equal to `ViewRender` |

## Model

| member | source | states |
|---|---|---|
| OrderedDicts.Put | Classes/Wwwision/Hal/Domain/Dto/ResourceDefinition.php:184-186 | key assignment: the key then holds the value, every other key is unchanged, and a new key is appended to the key order |
| OrderedDicts.Remove | Classes/Wwwision/Hal/View/HalView.php:286 | `unset` drops the key and changes no other key |
| OrderedDicts.MapValues | Classes/Wwwision/Hal/View/HalView.php:251 | `array_map` keeps the keys in order and maps each value |
| PhpValues.LcFirst | Classes/Wwwision/Hal/Domain/Dto/ResourceDefinitionFactory.php:230 | `lcfirst` lower-cases an upper-case first letter and keeps the rest |
| PhpValues.MergeArrays | Classes/Wwwision/Hal/Domain/Dto/ResourceDefinitionFactory.php:106 | recursive overrule merge: keys only in the base keep the base value, keys of the overriding array hold that value merged over the base value |
| PhpValues.StringKey | Classes/Wwwision/Hal/Domain/Dto/ResourceDefinitionFactory.php:102-106 | the key `$a[$s]` addresses: a canonical decimal integer string addresses that integer key, any other string itself; its string form is s |
| PhpValues.NumeralRoundTrip | Classes/Wwwision/Hal/Domain/Dto/ResourceDefinitionFactory.php:102-106 | printing the integer a canonical numeral denotes gives the numeral back |
| PhpValues.KeyRoundTrip | Classes/Wwwision/Hal/Domain/Dto/ResourceDefinitionFactory.php:84-88 | every key PHP can hold, integer keys included, is the key addressed by its own string form |
| PhpValues.StringKeyExamples | Classes/Wwwision/Hal/Domain/Dto/ResourceDefinitionFactory.php:102-106 | "5" and "-12" address integer keys; "05", "-0" and "5a" stay string keys |
| PropertyDefinitions.ResourcePropertyDefinition.constructor | Classes/Wwwision/Hal/Domain/Dto/ResourcePropertyDefinition.php:43-45 | the name is the constructor argument; a fresh definition has no description, no type and no static value |
| PropertyDefinitions.ResourcePropertyDefinition.SetDescription | Classes/Wwwision/Hal/Domain/Dto/ResourcePropertyDefinition.php:58-60 | changes the description only |
| PropertyDefinitions.ResourcePropertyDefinition.SetType | Classes/Wwwision/Hal/Domain/Dto/ResourcePropertyDefinition.php:72-74 | changes the type only |
| PropertyDefinitions.ResourcePropertyDefinition.SetStaticValue | Classes/Wwwision/Hal/Domain/Dto/ResourcePropertyDefinition.php:87-96 | changes the static value only; `hasStaticValue` then holds iff the value set is not NULL |
| LinkDefinitions.DefaultLink | Classes/Wwwision/Hal/Domain/Dto/ResourceLinkDefinition.php:38-61 | a fresh link is not absolute and not templated, and has no route values, resource definition or append string |
| LinkDefinitions.AppendQueryStringPresence | Classes/Wwwision/Hal/Domain/Dto/ResourceLinkDefinition.php:199-201 | a string to append counts as present iff it is not empty |
| LinkDefinitions.ResourceLinkDefinition.constructor | Classes/Wwwision/Hal/Domain/Dto/ResourceLinkDefinition.php:66-68 | the relation is the constructor argument; every other field has its default |
| LinkDefinitions.ResourceLinkDefinition.SetTitle | Classes/Wwwision/Hal/Domain/Dto/ResourceLinkDefinition.php:96-98 | changes the title only |
| LinkDefinitions.ResourceLinkDefinition.SetName | Classes/Wwwision/Hal/Domain/Dto/ResourceLinkDefinition.php:81-83 | changes the name only |
| LinkDefinitions.ResourceLinkDefinition.SetResourceDefinition | Classes/Wwwision/Hal/Domain/Dto/ResourceLinkDefinition.php:111-127 | changes the linked definition only, after which `hasResourceDefinition` holds |
| LinkDefinitions.ResourceLinkDefinition.SetRouteValues | Classes/Wwwision/Hal/Domain/Dto/ResourceLinkDefinition.php:133-149 | stores an array, changes nothing else, after which `hasRouteValues` holds |
| LinkDefinitions.ResourceLinkDefinition.SetAppendQueryString | Classes/Wwwision/Hal/Domain/Dto/ResourceLinkDefinition.php:185-187 | changes the append string only |
| LinkDefinitions.ResourceLinkDefinition.SetAbsolute | Classes/Wwwision/Hal/Domain/Dto/ResourceLinkDefinition.php:155-157 | changes the absolute flag only |
| LinkDefinitions.ResourceLinkDefinition.SetTemplated | Classes/Wwwision/Hal/Domain/Dto/ResourceLinkDefinition.php:170-172 | changes the templated flag only |
| ResourceDefinitions.ResourceDefinition.constructor | Classes/Wwwision/Hal/Domain/Dto/ResourceDefinition.php:65-68 | name and options as given; not an alias, no collection, no description and no definitions |
| ResourceDefinitions.ResourceDefinition.SetAliasFor | Classes/Wwwision/Hal/Domain/Dto/ResourceDefinition.php:74-90 | sets the alias target only, after which `isAlias` holds |
| ResourceDefinitions.ResourceDefinition.SetCollectionOf | Classes/Wwwision/Hal/Domain/Dto/ResourceDefinition.php:96-98 | sets the element definition only |
| ResourceDefinitions.ResourceDefinition.SetDescription | Classes/Wwwision/Hal/Domain/Dto/ResourceDefinition.php:169-171 | sets the description only |
| ResourceDefinitions.ResourceDefinition.AddPropertyDefinition | Classes/Wwwision/Hal/Domain/Dto/ResourceDefinition.php:184-186 | keyed by property name: the key holds the new definition, other keys are unchanged, and a new name is appended |
| ResourceDefinitions.ResourceDefinition.AddLinkDefinition | Classes/Wwwision/Hal/Domain/Dto/ResourceDefinition.php:199-201 | keyed by relation, with the same keyed-map behaviour |
| ResourceDefinitions.ResourceDefinition.AddEmbeddedResourceDefinition | Classes/Wwwision/Hal/Domain/Dto/ResourceDefinition.php:215-220 | keyed by the property name, or the embedded definition's own name when none is given; other keys are unchanged |
| ResourceDefinitions.AliasChainSeen | Classes/Wwwision/Hal/Domain/Dto/ResourceDefinition.php:103-118 | the answers of `isCollection` and `getCollectionOf` along a finite alias chain do not depend on the handles already visited |
| ResourceDefinitions.AliasDelegatesCollection | Classes/Wwwision/Hal/Domain/Dto/ResourceDefinition.php:103-118 | an alias has its target's `isCollection` and `getCollectionOf`; any other definition reports its own `collectionOf` |
| ResourceDefinitions.MergeOptions | Classes/Wwwision/Hal/Domain/Dto/ResourceDefinition.php:136-143 | the merged options are an array; their content is stated by `MergeOptionsKeys` |
| ResourceDefinitions.MergeOptionsKeys | Classes/Wwwision/Hal/Domain/Dto/ResourceDefinition.php:136-143 | local keys override base keys, with arrays merged key by key; base-only keys survive; a local `includeProperties` is taken exactly |
| ResourceDefinitions.GetOptions | Classes/Wwwision/Hal/Domain/Dto/ResourceDefinition.php:123-130 | the effective options are an array, given a finite options chain; which options they are is stated by `GetOptionsDelegates` |
| ResourceDefinitions.OptionsChainSeen | Classes/Wwwision/Hal/Domain/Dto/ResourceDefinition.php:123-130 | the effective options do not depend on the handles already visited |
| ResourceDefinitions.GetOptionsDelegates | Classes/Wwwision/Hal/Domain/Dto/ResourceDefinition.php:123-130 | a collection merges its options over its element definition's, an alias over its target's; any other definition returns its own options unchanged |
| ResourceDefinitions.GetLinkName | Classes/Wwwision/Hal/Domain/Dto/ResourceDefinition.php:157-163 | the name, prefixed with the local `linkNamespace` and `:` when that is set |
| ResourceDefinitions.AliasOptionsExample | Classes/Wwwision/Hal/Domain/Dto/ResourceDefinition.php:123-143 | an alias {x: 1} of {x: 2, y: 3} has the effective options {x: 1, y: 3} |
| ResourceDefinitions.IncludePropertiesExample | Classes/Wwwision/Hal/Domain/Dto/ResourceDefinition.php:138-141 | a plain merge of [a] over [a, b] keeps [a, b]; the options merge gives exactly [a] |
| PropertyNames.AccessorName | Classes/Wwwision/Hal/Domain/Dto/ResourceDefinitionFactory.php:229-233 | `getX…` gives `lcfirst(X…)`; otherwise `isX…` gives `lcfirst(X…)`; any other name gives nothing |
| PropertyNames.AccessorNameExamples | Classes/Wwwision/Hal/Domain/Dto/ResourceDefinitionFactory.php:229-233 | `getFooBar`→`fooBar`, `isActive`→`active`, `issue`→`sue`, `get`→``, `setFoo`→none |
| PropertyNames.DerivedNamesMembers | Classes/Wwwision/Hal/Domain/Dto/ResourceDefinitionFactory.php:227-235 | a name is derived iff some callable method is an accessor for it |
| PropertyNames.GettablePropertyNames | Classes/Wwwision/Hal/Domain/Dto/ResourceDefinitionFactory.php:225-237 | the names of the class fields, then one name per callable accessor, in method order; a name occurs iff it is a field or derived (the corrected reading of line 226, see Findings) |
| PropertyNames.Intersect | Classes/Wwwision/Hal/Domain/Dto/ResourceDefinitionFactory.php:213 | `array_intersect`: exactly the names of the first list found in the second, each as often as in the first list, in its order |
| PropertyNames.Diff | Classes/Wwwision/Hal/Domain/Dto/ResourceDefinitionFactory.php:216 | `array_diff`: exactly the names of the first list not in the second, each as often as in the first list, in its order |
| PropertyNames.FieldDefaultsAsWritten | Classes/Wwwision/Hal/Domain/Dto/ResourceDefinitionFactory.php:226 | as written, a class with the field `title` defaulting to NULL yields the candidate NULL and not `title`; the corrected names give `title` |
| PropertyNames.SubsequenceTransitive | Classes/Wwwision/Hal/Domain/Dto/ResourceDefinitionFactory.php:212-217 | order is kept through successive filterings |
| PropertyNames.ResourcePropertyNames | Classes/Wwwision/Hal/Domain/Dto/ResourceDefinitionFactory.php:204-219 | no names when `properties`, `includeProperties` or `excludeProperties` is set but not an array (the array functions then return NULL); otherwise a name is selected iff it is a candidate, is in `includeProperties` when that is set, and is not in `excludeProperties` when that is set; a selected name occurs as often as among the candidates (a field also configured under `properties` twice), in candidate order |
| FactorySpec.ExpectedProperty | Classes/Wwwision/Hal/Domain/Dto/ResourceDefinitionFactory.php:166-188 | the property definition carries the property's own name |
| FactorySpec.CollectAt | Classes/Wwwision/Hal/Domain/Dto/ResourceDefinitionFactory.php:165-195 | adding definitions one name at a time, a listed name that is kept maps to its definition; no other name is present |
| FactorySpec.PropertyDefsSplit | Classes/Wwwision/Hal/Domain/Dto/ResourceDefinitionFactory.php:184-194 | a name whose schema type is `DateTime` or simple, or that is not in the schema, is a property definition; any other listed name is an embedded definition resolved by that name, and never both |
| FactorySpec.ExpectedLink | Classes/Wwwision/Hal/Domain/Dto/ResourceDefinitionFactory.php:113-134 | the link definition is keyed by the relation of its entry |
| FactorySpec.LinkDefsKeys | Classes/Wwwision/Hal/Domain/Dto/ResourceDefinitionFactory.php:111-137 | with distinct relations, the link definitions are in configuration order |
| FactorySpec.LinkDefsValues | Classes/Wwwision/Hal/Domain/Dto/ResourceDefinitionFactory.php:111-137 | with distinct relations, each relation holds the link built from its own entry |
| FactorySpec.LinkDefsInOrder | Classes/Wwwision/Hal/Domain/Dto/ResourceDefinitionFactory.php:111-137 | both of the above together |
| FactorySpec.ExpectedNodeShape | Classes/Wwwision/Hal/Domain/Dto/ResourceDefinitionFactory.php:139-195 | `aliasFor` is checked before `collectionOf`; an alias or a collection has links and its target only; a plain definition exposes exactly the selected names, split into flat and embedded |
| Factory.FirstForClass | Classes/Wwwision/Hal/Domain/Dto/ResourceDefinitionFactory.php:84-89 | the index of the first resource whose `className` is set and identical, with no earlier match |
| Factory.NumericResourceExample | Classes/Wwwision/Hal/Domain/Dto/ResourceDefinitionFactory.php:84-104 | a resource configured under the integer key 5 matches its class and is found again under the name "5" |
| Factory.ResourceDefinitionFactory.EntryConfigured | Classes/Wwwision/Hal/Domain/Dto/ResourceDefinitionFactory.php:84-102 | with unique keys, every resource entry is found under its own name, a numeric one included |
| Factory.ResourceDefinitionFactory.constructor | Classes/Wwwision/Hal/Domain/Dto/ResourceDefinitionFactory.php:60-65 | the configuration of the `default` API, with an empty cache |
| Factory.ResourceDefinitionFactory.CreateFromClassName | Classes/Wwwision/Hal/Domain/Dto/ResourceDefinitionFactory.php:80-91 | error 1374760304 without resources and 1374760307 with no match; otherwise the result of creating the first matching resource by its name: the cached object when it was cached, else a fresh object cached under that name and equal to the expected definition; failures are only those of that creation, and never `ResourceNotDefined` for the matching entry itself |
| Factory.ResourceDefinitionFactory.CreateFromResourceName | Classes/Wwwision/Hal/Domain/Dto/ResourceDefinitionFactory.php:98-198 | a cached name returns the cached object and leaves the cache unchanged; a name neither cached nor configured fails with 1374759094; the cache only grows; a new definition is fresh, cached under its name, and equals the expected definition for the common configuration merged under the resource's own; failures are undefined names that were not cached, unknown classes or non-array configuration, and `ResourceNotDefined` for n itself only when n is not configured |
| Factory.ResourceDefinitionFactory.Complete | Classes/Wwwision/Hal/Domain/Dto/ResourceDefinitionFactory.php:110-197 | links first, then the alias target, the element definition or the plain part; on success the definition is the expected one |
| Factory.ResourceDefinitionFactory.CompletePlain | Classes/Wwwision/Hal/Domain/Dto/ResourceDefinitionFactory.php:149-195 | an unknown class fails; otherwise sets the description and the properties of the expected definition |
| Factory.ResourceDefinitionFactory.CreateLinkDefinition | Classes/Wwwision/Hal/Domain/Dto/ResourceDefinitionFactory.php:113-134 | resolves the linked resource first (cached afterwards); on success a fresh link equal to the expected one |
| Factory.ResourceDefinitionFactory.NewLinkDefinition | Classes/Wwwision/Hal/Domain/Dto/ResourceDefinitionFactory.php:113-134 | the setters for the set keys give exactly the expected link |
| Factory.ResourceDefinitionFactory.SetRouting | Classes/Wwwision/Hal/Domain/Dto/ResourceDefinitionFactory.php:123-134 | route values, append string, absolute and templated flags as configured, defaults otherwise |
| Factory.ResourceDefinitionFactory.AddLinkDefinitions | Classes/Wwwision/Hal/Domain/Dto/ResourceDefinitionFactory.php:111-137 | on success the link definitions are those of the configured links, added in order; nothing else of the definition changes |
| Factory.ResourceDefinitionFactory.AddPropertyDefinition | Classes/Wwwision/Hal/Domain/Dto/ResourceDefinitionFactory.php:166-194 | a flat name adds its property definition and cannot fail; any other name adds the embedded definition of that name, which is then cached |
| Factory.ResourceDefinitionFactory.NewPropertyDefinition | Classes/Wwwision/Hal/Domain/Dto/ResourceDefinitionFactory.php:166-188 | the description comes from configuration, else from the class property; the static value and the schema type as given |
| Factory.ResourceDefinitionFactory.AddPropertyDefinitions | Classes/Wwwision/Hal/Domain/Dto/ResourceDefinitionFactory.php:164-195 | on success the property and embedded definitions are those of the selected names, in order |
| ViewUris.ExtractRouteValue | Classes/Wwwision/Hal/View/HalView.php:281-288 | a set key is returned and removed; an absent or NULL key gives NULL and leaves the route values unchanged; other keys are untouched |
| ViewUris.ReplacePlaceholders | Classes/Wwwision/Hal/View/HalView.php:265-271 | anything but a string starting with `{` is returned unchanged |
| ViewUris.PlaceholderRoundTrip | Classes/Wwwision/Hal/View/HalView.php:265-271 | `{name}` becomes the value at the property path `name` of the view variables |
| ViewUris.UriRequestParameters | Classes/Wwwision/Hal/View/HalView.php:245-257 | `uriFor` receives the `@action`, `@controller`, `@package` and `@subpackage` values and the absolute flag |
| ViewUris.RemainingRouteKeys | Classes/Wwwision/Hal/View/HalView.php:245-251 | after extraction the four special keys are absent or NULL; every other key is unchanged |
| ViewUris.UriRequestArguments | Classes/Wwwision/Hal/View/HalView.php:245-257 | the arguments are the other route values with placeholders replaced, key by key |
| ViewUris.ResourceUri | Classes/Wwwision/Hal/View/HalView.php:220-238 | no URI without `routeValues` in the effective options; otherwise the URI built with the instance bound; a failed route gives 1383496975 |
| ViewUris.BindingName | Classes/Wwwision/Hal/View/HalView.php:228-231 | the instance is bound under the definition's name, or the alias target's name, replacing only that key; a collection or an array instance binds nothing |
| ViewUris.ConvertPropertyValueCases | Classes/Wwwision/Hal/View/HalView.php:297-312 | identity unless typed `string`; then an object without `__toString` gives its identifier as a string, anything else its string cast |
| ViewUris.ConvertIdempotent | Classes/Wwwision/Hal/View/HalView.php:297-312 | converting twice is converting once |
| ViewUris.ResourceNameOf | Classes/Wwwision/Hal/View/HalView.php:92-101 | the first variable that is not `settings` and does not start with `_`, or "" when there is none |
| ViewUris.GetResourceName | Classes/Wwwision/Hal/View/HalView.php:92-101 | the scan returns the first resource variable |
| ViewRender.PrependAppend | Classes/Wwwision/Hal/View/HalView.php:131-167 | accumulating results stops at the first failure and otherwise concatenates in order |
| ViewRender.PutEachPrefix | Classes/Wwwision/Hal/View/HalView.php:112-128 | entries present before the loop keep their place at the front |
| ViewRender.PutEachMembers | Classes/Wwwision/Hal/View/HalView.php:120-128 | a key is present iff it was before or a kept property has that name |
| ViewRender.PutEachValues | Classes/Wwwision/Hal/View/HalView.php:120-128 | with distinct names, each kept property holds its own value |
| ViewRender.AbbreviatedDataKeys | Classes/Wwwision/Hal/View/HalView.php:191-208 | `id` first; besides `id`, exactly the names in `includeProperties` |
| ViewRender.AbbreviatedDataShape | Classes/Wwwision/Hal/View/HalView.php:188-211 | as above, and each included property holds its static value as it is, or its converted path read |
| ViewRender.RootDataShape | Classes/Wwwision/Hal/View/HalView.php:112-129 | `id` comes first, and only for an object with a non-NULL identifier; every property has an entry holding its static value or the converted read |
| ViewRender.CollectionEmbedsCount | Classes/Wwwision/Hal/View/HalView.php:131-134 | one embed per element, in order, under the collection's link name, each the element's abbreviated resource with the collection's options |
| ViewRender.SingularEmbed | Classes/Wwwision/Hal/View/HalView.php:143-147 | a NULL singular value is left out; a set one gives one flagged embed under its link name |
| ViewRender.LinkHref | Classes/Wwwision/Hal/View/HalView.php:154-165 | the intended href (see Findings): with route values, the URI built from them (with the link's absolute flag), a failed route giving 1383496970; otherwise the linked definition's URI for no instance, its failure passed on, and `MissingLinkTarget` when there is no linked definition; a non-empty append string is concatenated verbatim, to "" when there is no URI |
| ViewRender.LinkRouteFailureAsWritten | Classes/Wwwision/Hal/View/HalView.php:155-159 | as written, a link whose route matches nothing fails in the string cast of the link definition and never with 1383496970; on every other link the written and the intended href agree |
| ViewRender.LinksInOrder | Classes/Wwwision/Hal/View/HalView.php:153-167 | one link per definition, in definition order, with its relation, title, name, templated flag and href |
| ViewRender.HalResourceShape | Classes/Wwwision/Hal/View/HalView.php:108-170 | the self URI, the root data, one embed per element for a collection, and one link per link definition |
| HalView.CreateEmbeddedResource | Classes/Wwwision/Hal/View/HalView.php:188-212 | the loop computes the abbreviated resource |
| HalView.CreateCollectionResource | Classes/Wwwision/Hal/View/HalView.php:177-180 | the element in the element definition's abbreviated form, with the collection's options |
| HalView.EmbedElements | Classes/Wwwision/Hal/View/HalView.php:132-134 | the loop computes one embed per element, stopping at the first failure |
| HalView.EmbedEntry | Classes/Wwwision/Hal/View/HalView.php:138-147 | the embeds of one embedded definition |
| HalView.EmbedDefinitions | Classes/Wwwision/Hal/View/HalView.php:137-149 | the loop computes the embeds of all embedded definitions, in order |
| HalView.BuildLinks | Classes/Wwwision/Hal/View/HalView.php:153-167 | the loop computes the links, in order |
| HalView.BuildRootData | Classes/Wwwision/Hal/View/HalView.php:112-129 | the loop computes the root data |
| HalView.BuildHalResource | Classes/Wwwision/Hal/View/HalView.php:108-170 | the steps compute the rendered resource |

## Left out

- `render()` is not modelled, for two reasons. Its cache-control header is HTTP response I/O, and it calls `getCacheLifetime()`, which `ResourceDefinition` does not define. Its `(string)` serialisation is left out with it. `getResource()` is modelled as `ViewUris.ResourceOf`.
- The HAL `Resource` and `Link` classes come from an external library. They are modelled as records: self URI, data, embedded entries and links. `setEmbedded`'s third argument is kept as the `single` flag of an embed, with no meaning attached.
- `ObjectAccess`, the persistence manager, the URI builder and iteration over a collection object are the function fields of `Env`. A route that does not match is `uriFor` returning None.
- Reflection is given as data (`ClassInfo`):
  - `get_class_vars` is the map from each field to its default value; the source iterates its values, the model takes its names (see Findings);
  - a class that cannot be loaded fails with `ClassNotFound`;
  - a class without a schema is treated as having an empty one, whereas PHP calls `hasProperty` on NULL at ResourceDefinitionFactory.php:184 and stops with a fatal error;
  - `TypeHandling::isSimpleType` is taken as the fixed list array, string, float, double, integer, int, boolean, bool.
- `array_intersect` and `array_diff` compare string casts. `in_array` and `===` on class names are modelled as exact equality; loose comparison between numbers and strings is not modelled. A configured `properties`, `includeProperties` or `excludeProperties` that is not an array gives no names, as the array functions return NULL with a warning; a runtime that throws a TypeError there instead is not modelled.
- A string that reads as a canonical decimal integer addresses the integer key, as in PHP (`StringKey`); the bound of `PHP_INT_MAX`, beyond which PHP keeps the string key, is not modelled.
- Floating-point numbers are not modelled: `Value` has no float case, so a float static value, option or property value cannot be represented.
- Casting an object that has no `__toString` raises an error in PHP. The source does so in the message of exception 1383496970 at HalView.php:158, modelled as `LinkNotStringable` (see Findings). The model casts no other such object: `convertPropertyValue` uses the identifier for one, and the other casts apply to configuration values. `PhpString` gives "" for it.
- `getResourceName()` is called on property definitions but is not defined in `ResourcePropertyDefinition`. The output is keyed by the property name. `hasType()` is not defined either; it is taken to mean the type is not NULL.
- The append string of a link is concatenated verbatim, with no `?` or `&` handling, as the code does.
- The format string in `ResourceDefinition::__toString` is broken. Error values carry the resource name instead.
- An alias whose target is a collection makes `getOptions()` read the alias's own unset `collectionOf`, and PHP fails there. `OptionsChain` excludes such definitions, as well as cyclic alias or collection chains, where the PHP recursion does not terminate.
- A link with neither route values nor a resource definition makes PHP raise a type error. The model fails with `MissingLinkTarget`.
- The instance is bound under the name of the alias's direct target, following the code, not the end of the alias chain.
- Definitions store snapshots of the property and link definitions added to them. The factory never changes a definition after adding it, so no aliasing is lost.
- `extractRouteValue` takes the route values by reference. It is modelled as a function returning the value and the reduced route values.
- `initializeObject` requires the `default` API to exist; that is the factory constructor's precondition. `injectSettings` is folded into the constructor.
- `ViewRender.ElementsRenderable`, `EntriesRenderable`, `LinksRenderable` and `RootRenderable` require a finite options chain for every definition the view renders from, and route values that are arrays; the embedded definitions of a collection root, which are never read, are not constrained.
- The controllers are framework glue and are not part of this model.

## Findings

| source | as written | input that shows it | evidently intended | confidence | as-written member | corrected member |
|---|---|---|---|---|---|---|
| Classes/Wwwision/Hal/Domain/Dto/ResourceDefinitionFactory.php:226 | `$propertyNames = get_class_vars($className)` keeps the name → default-value map, and line 165 iterates its values | a class with the public field `title` whose default is NULL: the candidates are [NULL], and `title` is never exposed | the field names (`array_keys(get_class_vars(...))`) | high; not executed | PropertyNames.FieldDefaultsAsWritten | PropertyNames.GettablePropertyNames |
| Classes/Wwwision/Hal/View/HalView.php:158 | the message of exception 1383496970 formats the link definition with `%s`, and `ResourceLinkDefinition` has no `__toString` | a link with route values that no route matches: the cast fails with "could not be converted to string" before the exception is built | the exception with code 1383496970 | high; not executed | ViewRender.LinkRouteFailureAsWritten | ViewRender.LinkHref |
