/**
 * A property of a resource: the object property it reads (or the key of a
 * fixed value), with an optional description, type hint and static value.
 */
module PropertyDefinitions {
  import opened PhpValues

  /** What a resource definition keeps of a property definition once it is added. */
  datatype PropertyDef = PropertyDef(name: string, description: Value, propertyType: Value, staticValue: Value)
  {
    /** A property with a static value is never read from the object; NULL means "none". */
    predicate HasStaticValue()
    {
      staticValue != Null
    }

    /** Whether a type hint is present; only then is the value converted. */
    predicate HasType()
    {
      propertyType != Null
    }
  }

  /** The mutable record the factory fills in step by step. */
  class ResourcePropertyDefinition {
    const name: string
    var description: Value
    var propertyType: Value
    var staticValue: Value

    constructor (name: string)
      ensures this.name == name
      ensures description == Null && propertyType == Null && staticValue == Null
      ensures !Snapshot().HasStaticValue() && !Snapshot().HasType()
    {
      this.name := name;
      description := Null;
      propertyType := Null;
      staticValue := Null;
    }

    function Snapshot(): (p: PropertyDef)
      reads this
      ensures p.name == name
    {
      PropertyDef(name, description, propertyType, staticValue)
    }

    method SetDescription(description: Value)
      modifies this
      ensures Snapshot() == old(Snapshot()).(description := description)
    {
      this.description := description;
    }

    method SetType(propertyType: Value)
      modifies this
      ensures Snapshot() == old(Snapshot()).(propertyType := propertyType)
    {
      this.propertyType := propertyType;
    }

    method SetStaticValue(staticValue: Value)
      modifies this
      ensures Snapshot() == old(Snapshot()).(staticValue := staticValue)
      ensures Snapshot().HasStaticValue() <==> staticValue != Null
    {
      this.staticValue := staticValue;
    }
  }
}
