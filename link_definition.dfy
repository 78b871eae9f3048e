/**
 * A link of a resource: its relation, display metadata and either explicit
 * route values or the resource definition whose URI the link points to.
 */
module LinkDefinitions {
  import opened OrderedDicts
  import opened PhpValues

  /**
   * What a resource definition keeps of a link definition once it is added.
   * The target resource definition is held by its name, under which the
   * factory caches it.
   */
  datatype LinkDef = LinkDef(
    rel: string,
    title: Value,
    name: Value,
    resourceDefinition: Option<string>,
    routeValues: Value,
    appendQueryString: Value,
    absolute: Value,
    templated: Value)
  {
    predicate HasResourceDefinition()
    {
      resourceDefinition.Some?
    }

    predicate HasRouteValues()
    {
      routeValues != Null
    }

    /**
     * `strlen` of the string to append is positive: NULL, "" and FALSE count
     * as absent, and so does an array, for which `strlen` gives NULL.
     */
    predicate HasAppendQueryString()
    {
      appendQueryString != Null && !appendQueryString.Arr? && |PhpString(appendQueryString)| > 0
    }
  }

  /** The link definition of a fresh `ResourceLinkDefinition($rel)`. */
  function DefaultLink(rel: string): (l: LinkDef)
    ensures l.rel == rel && l.absolute == Bool(false) && l.templated == Bool(false)
    ensures !l.HasRouteValues() && !l.HasResourceDefinition() && !l.HasAppendQueryString()
  {
    LinkDef(rel, Null, Null, None, Null, Null, Bool(false), Bool(false))
  }

  lemma AppendQueryStringPresence(l: LinkDef, s: string)
    requires l.appendQueryString == Str(s)
    ensures l.HasAppendQueryString() <==> s != ""
  {
  }

  /** The mutable record the factory fills in step by step; each setter changes one field. */
  class ResourceLinkDefinition {
    const rel: string
    var title: Value
    var name: Value
    var resourceDefinition: Option<string>
    var routeValues: Value
    var appendQueryString: Value
    var absolute: Value
    var templated: Value

    constructor (rel: string)
      ensures Snapshot() == DefaultLink(rel)
    {
      this.rel := rel;
      title, name := Null, Null;
      resourceDefinition := None;
      routeValues, appendQueryString := Null, Null;
      absolute, templated := Bool(false), Bool(false);
    }

    function Snapshot(): (l: LinkDef)
      reads this
      ensures l.rel == rel
    {
      LinkDef(rel, title, name, resourceDefinition, routeValues, appendQueryString, absolute, templated)
    }

    method SetTitle(title: Value)
      modifies this
      ensures Snapshot() == old(Snapshot()).(title := title)
    {
      this.title := title;
    }

    method SetName(name: Value)
      modifies this
      ensures Snapshot() == old(Snapshot()).(name := name)
    {
      this.name := name;
    }

    /** Links to the resource definition cached under `target`. */
    method SetResourceDefinition(target: string)
      modifies this
      ensures Snapshot() == old(Snapshot()).(resourceDefinition := Some(target))
      ensures Snapshot().HasResourceDefinition()
    {
      resourceDefinition := Some(target);
    }

    /** The source's parameter is typed `array`, so what is stored is never NULL. */
    method SetRouteValues(routeValues: Value)
      requires routeValues.Arr?
      modifies this
      ensures Snapshot() == old(Snapshot()).(routeValues := routeValues)
      ensures Snapshot().HasRouteValues()
    {
      this.routeValues := routeValues;
    }

    method SetAppendQueryString(append: Value)
      modifies this
      ensures Snapshot() == old(Snapshot()).(appendQueryString := append)
    {
      appendQueryString := append;
    }

    method SetAbsolute(absolute: Value)
      modifies this
      ensures Snapshot() == old(Snapshot()).(absolute := absolute)
    {
      this.absolute := absolute;
    }

    method SetTemplated(templated: Value)
      modifies this
      ensures Snapshot() == old(Snapshot()).(templated := templated)
    {
      this.templated := templated;
    }
  }
}
