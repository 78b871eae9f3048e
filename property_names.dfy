/**
 * Which properties a resource exposes: names derived from the bound class
 * (its fields and its `get*`/`is*` accessors) followed by the configured
 * `properties` keys, intersected with `includeProperties` and reduced by
 * `excludeProperties`, in the order of first appearance.
 *
 * Reflection is replaced by a catalog entry per class, given as data.
 */
module PropertyNames {
  import opened OrderedDicts
  import opened PhpValues

  /** A method of a class, and whether `is_callable` holds for it. */
  datatype ClassMethod = ClassMethod(name: string, callable: bool)

  /** What reflection reports about one class. */
  datatype ClassInfo = ClassInfo(
    vars: Dict<string, Value>,                // `get_class_vars`: each field and its default value
    methods: seq<ClassMethod>,                // `get_class_methods`, in order
    description: Value,                       // the class doc comment description
    propertyDescriptions: map<string, Value>, // reflected properties and their descriptions
    schema: map<string, string>)              // the class schema: property name to type

  /** The property a method named like an accessor gives access to: `getFooBar` and `isFooBar` give `fooBar`. */
  function AccessorName(methodName: string): (r: Option<string>)
    ensures StartsWith(methodName, "get") ==> r == Some(LcFirst(methodName[3..]))
    ensures !StartsWith(methodName, "get") && StartsWith(methodName, "is") ==> r == Some(LcFirst(methodName[2..]))
    ensures r.None? <==> !StartsWith(methodName, "get") && !StartsWith(methodName, "is")
  {
    if StartsWith(methodName, "get") then Some(LcFirst(methodName[3..]))
    else if StartsWith(methodName, "is") then Some(LcFirst(methodName[2..]))
    else None
  }

  /** The accessor-derived names of the callable methods, in method order. */
  function DerivedNames(methods: seq<ClassMethod>): seq<string>
  {
    if methods == [] then []
    else
      var m := methods[|methods| - 1];
      DerivedNames(methods[..|methods| - 1]) +
        (if m.callable && AccessorName(m.name).Some? then [AccessorName(m.name).value] else [])
  }

  /** Some callable method is an accessor for x. */
  predicate Derives(methods: seq<ClassMethod>, x: string)
  {
    exists i :: 0 <= i < |methods| && methods[i].callable && AccessorName(methods[i].name) == Some(x)
  }

  lemma DerivesInit(methods: seq<ClassMethod>, x: string)
    requires methods != []
    ensures var m := methods[|methods| - 1];
      Derives(methods, x) <==> Derives(methods[..|methods| - 1], x) || (m.callable && AccessorName(m.name) == Some(x))
  {
    var init := methods[..|methods| - 1];
    if Derives(init, x) {
      var i :| 0 <= i < |init| && init[i].callable && AccessorName(init[i].name) == Some(x);
      assert methods[i] == init[i];
    }
    if Derives(methods, x) {
      var i :| 0 <= i < |methods| && methods[i].callable && AccessorName(methods[i].name) == Some(x);
      if i < |init| {
        assert init[i] == methods[i];
      }
    }
  }

  /** A name is derived exactly when some callable method is an accessor for it. */
  lemma {:induction false} DerivedNamesMembers(methods: seq<ClassMethod>, x: string)
    ensures x in DerivedNames(methods) <==> Derives(methods, x)
  {
    if methods != [] {
      DerivedNamesMembers(methods[..|methods| - 1], x);
      DerivesInit(methods, x);
    }
  }

  /** Accessor naming, including its quirks: "issue" reads as an `is` accessor. */
  lemma AccessorNameExamples()
    ensures AccessorName("getFooBar") == Some("fooBar")
    ensures AccessorName("isActive") == Some("active")
    ensures AccessorName("issue") == Some("sue")
    ensures AccessorName("get") == Some("")
    ensures AccessorName("setFoo") == None
  {
    assert "getFooBar"[..3] == "get" && "getFooBar"[3..] == "FooBar";
    assert LcFirst("FooBar") == "fooBar";
    assert "isActive"[..3] == "isA" && "isActive"[..2] == "is" && "isActive"[2..] == "Active";
    assert LcFirst("Active") == "active";
    assert "issue"[..3] == "iss" && "issue"[..2] == "is" && "issue"[2..] == "sue";
    assert "get"[..3] == "get";
    assert "setFoo"[..3] == "set" && "setFoo"[..2] == "se";
  }

  /** The gettable property names of a class: its field names, then the accessor-derived names. */
  function ClassPropertyNames(info: ClassInfo): seq<string>
  {
    Keys(info.vars) + DerivedNames(info.methods)
  }

  /**
   * What `getGettablePropertyNames` yields as written: it starts from the
   * `get_class_vars` map and appends the accessor names to it, so iterating
   * the result visits each field's default value instead of its name.
   */
  function GettableValuesAsWritten(info: ClassInfo): seq<Value>
  {
    var derived := DerivedNames(info.methods);
    Values(info.vars) + seq(|derived|, i requires 0 <= i < |derived| => Str(derived[i]))
  }

  /**
   * A class with one field `title`, whose default is NULL, and no methods:
   * as written the only property candidate is NULL and `title` is lost;
   * the names the rest of the model uses give `title`.
   */
  lemma FieldDefaultsAsWritten()
    ensures var info := ClassInfo([("title", Null)], [], Null, map[], map[]);
      && GettableValuesAsWritten(info) == [Null]
      && Str("title") !in GettableValuesAsWritten(info)
      && ClassPropertyNames(info) == ["title"]
  {
    var info := ClassInfo([("title", Null)], [], Null, map[], map[]);
    assert Values(info.vars) == [Null];
    assert Keys(info.vars) == ["title"];
    assert DerivedNames(info.methods) == [];
  }

  /** `getGettablePropertyNames`: appends one name per callable accessor. */
  method GettablePropertyNames(info: ClassInfo) returns (names: seq<string>)
    ensures names == ClassPropertyNames(info)
    ensures forall x :: x in names <==> x in Keys(info.vars) || Derives(info.methods, x)
  {
    names := Keys(info.vars);
    for i := 0 to |info.methods|
      invariant names == Keys(info.vars) + DerivedNames(info.methods[..i])
    {
      var m := info.methods[i];
      assert info.methods[..i + 1][..i] == info.methods[..i];
      if m.callable {
        if StartsWith(m.name, "get") {
          names := names + [LcFirst(m.name[3..])];
        } else if StartsWith(m.name, "is") {
          names := names + [LcFirst(m.name[2..])];
        }
      }
    }
    assert info.methods[..|info.methods|] == info.methods;
    forall x {
      DerivedNamesMembers(info.methods, x);
    }
  }

  /** r picks elements of xs in order, skipping some. */
  predicate IsSubsequence(r: seq<string>, xs: seq<string>)
  {
    r == [] || (xs != [] && if r[0] == xs[0] then IsSubsequence(r[1..], xs[1..]) else IsSubsequence(r, xs[1..]))
  }

  lemma {:induction false} SubsequenceTransitive(a: seq<string>, b: seq<string>, c: seq<string>)
    requires IsSubsequence(a, b) && IsSubsequence(b, c)
    ensures IsSubsequence(a, c)
    decreases |c|
  {
    if a != [] && b != [] && c != [] {
      if b[0] == c[0] {
        if a[0] == b[0] {
          SubsequenceTransitive(a[1..], b[1..], c[1..]);
        } else {
          SubsequenceTransitive(a, b[1..], c[1..]);
        }
      } else {
        SubsequenceTransitive(a, b, c[1..]);
        if a[0] == c[0] {
          SubsequenceDropFirst(a, c[1..]);
        }
      }
    }
  }

  lemma {:induction false} SubsequenceDropFirst(a: seq<string>, c: seq<string>)
    requires a != [] && IsSubsequence(a, c)
    ensures IsSubsequence(a[1..], c)
    decreases |c|
  {
    if a[1..] != [] {
      if a[0] != c[0] {
        SubsequenceDropFirst(a, c[1..]);
      }
      if a[1] == c[0] {
        SubsequenceDropFirst(a[1..], c[1..]);
      }
    }
  }

  /** `array_intersect` on names: those of xs that occur in ys, in the order of xs. */
  function Intersect(xs: seq<string>, ys: seq<string>): (r: seq<string>)
    ensures forall x :: x in r <==> x in xs && x in ys
    ensures forall x :: multiset(r)[x] == if x in ys then multiset(xs)[x] else 0
    ensures IsSubsequence(r, xs)
  {
    if xs == [] then []
    else
      assert xs == [xs[0]] + xs[1..];
      if xs[0] in ys then [xs[0]] + Intersect(xs[1..], ys)
      else Intersect(xs[1..], ys)
  }

  /** `array_diff` on names: those of xs that do not occur in ys, in the order of xs. */
  function Diff(xs: seq<string>, ys: seq<string>): (r: seq<string>)
    ensures forall x :: x in r <==> x in xs && x !in ys
    ensures forall x :: multiset(r)[x] == if x !in ys then multiset(xs)[x] else 0
    ensures IsSubsequence(r, xs)
  {
    if xs == [] then []
    else
      assert xs == [xs[0]] + xs[1..];
      if xs[0] !in ys then [xs[0]] + Diff(xs[1..], ys)
      else Diff(xs[1..], ys)
  }

  /** The values of a configured list as strings, as `array_intersect`/`array_diff` compare them. */
  function StringValues(v: Value): seq<string>
  {
    var vs := Values(EntriesOf(v));
    seq(|vs|, i requires 0 <= i < |vs| => PhpString(vs[i]))
  }

  /** The candidates: class-derived names (when a class is bound), then the `properties` keys. */
  function Candidates(config: Value, classNames: seq<string>): seq<string>
  {
    var keys := Keys(EntriesOf(Field(config, "properties")));
    (if IsSet(config, "className") then classNames else []) +
      seq(|keys|, i requires 0 <= i < |keys| => KeyString(keys[i]))
  }

  /**
   * A configured list that is not an array: `array_keys`, `array_merge`,
   * `array_intersect` and `array_diff` then return NULL, and no name is left.
   */
  predicate NamesLost(config: Value)
  {
    || (IsSet(config, "properties") && !Field(config, "properties").Arr?)
    || (IsSet(config, "includeProperties") && !Field(config, "includeProperties").Arr?)
    || (IsSet(config, "excludeProperties") && !Field(config, "excludeProperties").Arr?)
  }

  /** The name x passes `includeProperties` (when set) and `excludeProperties` (when set). */
  predicate Selected(config: Value, x: string)
  {
    && (IsSet(config, "includeProperties") ==> x in StringValues(Field(config, "includeProperties")))
    && (IsSet(config, "excludeProperties") ==> x !in StringValues(Field(config, "excludeProperties")))
  }

  /**
   * `getResourcePropertyNames`: the candidates that are included (when
   * `includeProperties` is set) and not excluded (when `excludeProperties`
   * is set), in candidate order; none when a configured list is not an array.
   */
  function ResourcePropertyNames(config: Value, classNames: seq<string>): (r: seq<string>)
    ensures NamesLost(config) ==> r == []
    ensures forall x :: x in r <==> !NamesLost(config) && x in Candidates(config, classNames) && Selected(config, x)
    ensures forall x ::
      multiset(r)[x] == if !NamesLost(config) && Selected(config, x) then multiset(Candidates(config, classNames))[x] else 0
    ensures IsSubsequence(r, Candidates(config, classNames))
  {
    if NamesLost(config) then []
    else
      var candidates := Candidates(config, classNames);
      var included :=
        if IsSet(config, "includeProperties") then Intersect(candidates, StringValues(Field(config, "includeProperties")))
        else candidates;
      var result :=
        if IsSet(config, "excludeProperties") then Diff(included, StringValues(Field(config, "excludeProperties")))
        else included;
      SubsequenceReflexive(candidates);
      SubsequenceReflexive(included);
      SubsequenceTransitive(result, included, candidates);
      result
  }

  lemma {:induction false} SubsequenceReflexive(xs: seq<string>)
    ensures IsSubsequence(xs, xs)
  {
    if xs != [] {
      SubsequenceReflexive(xs[1..]);
    }
  }
}
