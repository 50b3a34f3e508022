/** The object side of HasMagicProperties: the memoized registry in
    definedProperties, the backing storage of the magic properties, and the
    four guarded accessors magicGet, magicSet, magicIsset and magicUnset. */
module MagicProperties {
  import opened Outcomes
  import opened PhpStrings
  import opened PropertyRegistry
  import opened TypeValidation

  /** __METHOD__ inside magicSet, as it appears in the TypeError message. */
  const MagicSetMethod := "Aesonus\\PhpMagic\\HasMagicProperties::magicSet"

  /** throwUndefinedPropertyException: "Undefined property: <class>::$<name>". */
  function UndefinedError(className: string, name: string): (r: Error)
    ensures r.UndefinedProperty?
    ensures |r.message| >= 20 + |name| && r.message[..20] == "Undefined property: "
    ensures r.message[|r.message| - |name|..] == name
  {
    UndefinedProperty("Undefined property: " + className + "::$" + name)
  }

  /** The undefined-property error names the property: distinct names give
      distinct errors. */
  lemma UndefinedErrorNamesProperty(className: string, a: string, b: string)
    requires UndefinedError(className, a) == UndefinedError(className, b)
    ensures a == b
  {
    var prefix := "Undefined property: " + className + "::$";
    var ma := UndefinedError(className, a).message;
    var mb := UndefinedError(className, b).message;
    assert ma == prefix + a && mb == prefix + b;
    assert a == ma[|prefix|..];
    assert b == mb[|prefix|..];
  }

  /** The TypeError of magicSet, listing the declared types joined with '|'. */
  function TypeMismatchError(name: string, types: seq<string>): (r: Error)
    ensures r.TypeMismatch?
    ensures |r.message| >= |MagicSetMethod| + |Implode('|', types)|
    ensures r.message[..|MagicSetMethod|] == MagicSetMethod
    ensures r.message[|r.message| - |Implode('|', types)|..] == Implode('|', types)
  {
    TypeMismatch(MagicSetMethod + ": Property '$" + name + "' must be of type(s) " + Implode('|', types))
  }

  /** Registered under `property` or `property-read`. */
  predicate Readable(registry: Registry, name: string): (r: bool)
    ensures r ==> name in registry
    ensures name in registry ==> (r <==> registry[name].access != PropertyWrite)
  {
    name in registry && (registry[name].access == Property || registry[name].access == PropertyRead)
  }

  /** Registered under `property` or `property-write`. */
  predicate Writable(registry: Registry, name: string): (r: bool)
    ensures r ==> name in registry
    ensures name in registry ==> (r <==> registry[name].access != PropertyRead)
  {
    name in registry && (registry[name].access == Property || registry[name].access == PropertyWrite)
  }

  /** The backing field of a name: one that was never assigned reads as null. */
  function Read(storage: map<string, Value>, name: string): (r: Value)
    ensures r == VNull <==> name !in storage || storage[name] == VNull
    ensures r != VNull ==> name in storage && storage[name] == r
  {
    if name in storage then storage[name] else VNull
  }

  /** magicGet once the registry is known. */
  function GetFrom(className: string, registry: Registry, storage: map<string, Value>, name: string): (r: Outcome<Value>)
    ensures r.Ok? <==> Readable(registry, name)
    ensures r.Err? ==> r.error == UndefinedError(className, name)
    ensures r.Ok? && name !in storage ==> r.value == VNull
    ensures r.Ok? && name in storage ==> r.value == storage[name]
  {
    if Readable(registry, name) then Ok(Read(storage, name)) else Err(UndefinedError(className, name))
  }

  /** magicIsset once the registry is known: isset is "holds a non-null value". */
  function IssetFrom(className: string, registry: Registry, storage: map<string, Value>, name: string): (r: Outcome<bool>)
    ensures r.Ok? <==> Readable(registry, name)
    ensures r.Err? ==> r.error == UndefinedError(className, name)
    ensures r == Ok(true) <==> Readable(registry, name) && name in storage && storage[name] != VNull
  {
    if Readable(registry, name) then Ok(Read(storage, name) != VNull) else Err(UndefinedError(className, name))
  }

  /** magicSet once the registry is known: the new storage, or the error. */
  function SetInto(rt: Runtime, className: string, registry: Registry, storage: map<string, Value>,
                   name: string, value: Value): (r: Outcome<map<string, Value>>)
    ensures !Writable(registry, name) ==> r == Err(UndefinedError(className, name))
    ensures r.Ok? <==> Writable(registry, name) && ValidTypes(rt, value, registry[name].types) == Ok(true)
    ensures r.Ok? ==> r.value.Keys == storage.Keys + {name} && r.value[name] == value
    ensures r.Ok? ==> forall other :: other in storage && other != name ==> r.value[other] == storage[other]
    ensures Writable(registry, name) && ValidTypes(rt, value, registry[name].types).Err? ==>
      r == Err(ValidTypes(rt, value, registry[name].types).error)
  {
    if !Writable(registry, name) then Err(UndefinedError(className, name))
    else
      match ValidTypes(rt, value, registry[name].types)
      case Err(e) => Err(e)
      case Ok(valid) =>
        if valid then Ok(storage[name := value])
        else Err(TypeMismatchError(name, registry[name].types))
  }

  /** magicUnset once the registry is known: the entry is assigned null, not removed. */
  function UnsetIn(className: string, registry: Registry, storage: map<string, Value>, name: string): (r: Outcome<map<string, Value>>)
    ensures r.Ok? <==> Writable(registry, name)
    ensures r.Err? ==> r.error == UndefinedError(className, name)
    ensures r.Ok? ==> r.value.Keys == storage.Keys + {name} && r.value[name] == VNull
    ensures r.Ok? ==> forall other :: other in storage && other != name ==> r.value[other] == storage[other]
  {
    if Writable(registry, name) then Ok(storage[name := VNull]) else Err(UndefinedError(className, name))
  }

  // ---------------------------------------------------------------------------
  // What the accessors promise.

  /** Reading and testing need `property` or `property-read`; a write-only or
      unregistered name fails with the undefined-property error. */
  lemma ReadNeedsReadAccess(className: string, registry: Registry, storage: map<string, Value>, name: string)
    ensures GetFrom(className, registry, storage, name).Ok? <==> Readable(registry, name)
    ensures IssetFrom(className, registry, storage, name).Ok? <==> Readable(registry, name)
    ensures !Readable(registry, name) ==>
      GetFrom(className, registry, storage, name) == Err(UndefinedError(className, name)) &&
      IssetFrom(className, registry, storage, name) == Err(UndefinedError(className, name))
    ensures name in registry && registry[name].access == PropertyWrite ==>
      GetFrom(className, registry, storage, name).Err? && IssetFrom(className, registry, storage, name).Err?
  {
  }

  /** A refused read does not look at the storage: a backing field that holds
      a value (notMagicProperty, a write-only property) makes no difference. */
  lemma RefusedReadIgnoresStorage(className: string, registry: Registry, s1: map<string, Value>, s2: map<string, Value>, name: string)
    requires !Readable(registry, name)
    ensures GetFrom(className, registry, s1, name) == GetFrom(className, registry, s2, name)
    ensures IssetFrom(className, registry, s1, name) == IssetFrom(className, registry, s2, name)
  {
  }

  /** Writing and unsetting need `property` or `property-write`; a read-only or
      unregistered name fails with the undefined-property error. */
  lemma WriteNeedsWriteAccess(rt: Runtime, className: string, registry: Registry, storage: map<string, Value>,
                              name: string, value: Value)
    ensures UnsetIn(className, registry, storage, name).Ok? <==> Writable(registry, name)
    ensures !Writable(registry, name) ==>
      SetInto(rt, className, registry, storage, name, value) == Err(UndefinedError(className, name)) &&
      UnsetIn(className, registry, storage, name) == Err(UndefinedError(className, name))
    ensures SetInto(rt, className, registry, storage, name, value).Ok? ==> Writable(registry, name)
  {
  }

  /** A write to a writable name succeeds exactly when the value validates,
      and a value that validates to false gets the TypeError listing the types. */
  lemma SetNeedsValidType(rt: Runtime, className: string, registry: Registry, storage: map<string, Value>,
                          name: string, value: Value)
    requires Writable(registry, name)
    ensures SetInto(rt, className, registry, storage, name, value).Ok? <==>
      ValidTypes(rt, value, registry[name].types) == Ok(true)
    ensures ValidTypes(rt, value, registry[name].types) == Ok(false) ==>
      SetInto(rt, className, registry, storage, name, value) == Err(TypeMismatchError(name, registry[name].types))
    ensures ValidTypes(rt, value, registry[name].types).Err? ==>
      SetInto(rt, className, registry, storage, name, value) == Err(ValidTypes(rt, value, registry[name].types).error)
  {
  }

  /** A successful write changes the named entry and nothing else. */
  lemma SetWritesOnlyName(rt: Runtime, className: string, registry: Registry, storage: map<string, Value>,
                          name: string, value: Value)
    requires SetInto(rt, className, registry, storage, name, value).Ok?
    ensures var after := SetInto(rt, className, registry, storage, name, value).value;
      after.Keys == storage.Keys + {name} &&
      Read(after, name) == value &&
      forall other :: other != name ==> Read(after, other) == Read(storage, other)
  {
  }

  /** Under `property` access a write is read back: get returns the value
      written, and isset reports whether it is non-null. */
  lemma SetThenGet(rt: Runtime, className: string, registry: Registry, storage: map<string, Value>,
                   name: string, value: Value)
    requires name in registry && registry[name].access == Property
    requires SetInto(rt, className, registry, storage, name, value).Ok?
    ensures var after := SetInto(rt, className, registry, storage, name, value).value;
      GetFrom(className, registry, after, name) == Ok(value) &&
      IssetFrom(className, registry, after, name) == Ok(value != VNull)
  {
  }

  /** Unsetting keeps the entry, holding null, and changes no other entry;
      under `property` access get then returns null and isset false. */
  lemma UnsetNullsEntry(className: string, registry: Registry, storage: map<string, Value>, name: string)
    requires Writable(registry, name)
    ensures var after := UnsetIn(className, registry, storage, name).value;
      name in after && after[name] == VNull &&
      forall other :: other != name ==> Read(after, other) == Read(storage, other)
    ensures registry[name].access == Property ==>
      var after := UnsetIn(className, registry, storage, name).value;
      GetFrom(className, registry, after, name) == Ok(VNull) &&
      IssetFrom(className, registry, after, name) == Ok(false)
  {
  }

  // ---------------------------------------------------------------------------
  // The object.

  /** An object of a class that uses HasMagicProperties: the reader's output
      for its doc comment, the definedProperties memo (None while PHP's field
      is still null) and the values of its backing fields. */
  class MagicObject {
    const className: string
    const annotations: Annotations
    var definedProperties: Option<Registry>
    var storage: map<string, Value>

    constructor (className: string, annotations: Annotations, storage: map<string, Value>)
      requires TextualNames(annotations) && MemoFieldFree(annotations)
      ensures this.className == className && this.annotations == annotations
      ensures this.storage == storage && definedProperties == None
    {
      this.className := className;
      this.annotations := annotations;
      this.storage := storage;
      definedProperties := None;
    }

    /** getParsedDocBlock: build the registry on the first call and cache it;
        definedProperties is assigned before the loop and after every merge, so
        a failing first call leaves the part merged so far cached. */
    method ParsedDocBlock() returns (r: Outcome<Registry>)
      modifies this`definedProperties
      ensures r == ParsedDocBlockResult(old(definedProperties), annotations)
      ensures definedProperties == CacheAfterParse(old(definedProperties), annotations)
    {
      if definedProperties.None? {
        var parameters := AllowedAnnotations(annotations);
        definedProperties := Some(map[]);
        var i := 0;
        while i < |parameters|
          invariant 0 <= i <= |parameters|
          invariant definedProperties.Some?
          invariant Merged(parameters[..i]) == Build(definedProperties.value, None)
        {
          var (access, docs) := parameters[i];
          var info := ComputePropertyInfo(access, Lines(docs));
          MergedPrefixStep(parameters, i);
          if info.Err? {
            MergedFailurePersists(parameters, i + 1);
            return Err(info.error);
          }
          definedProperties := Some(definedProperties.value + info.value);
          i := i + 1;
        }
        assert parameters[..i] == parameters;
      }
      return Ok(definedProperties.value);
    }

    /** magicGet. */
    method MagicGet(name: string) returns (r: Outcome<Value>)
      modifies this`definedProperties
      ensures definedProperties == CacheAfterParse(old(definedProperties), annotations)
      ensures r == match ParsedDocBlockResult(old(definedProperties), annotations)
                   case Err(e) => Err(e)
                   case Ok(registry) => GetFrom(className, registry, storage, name)
    {
      var parsed := ParsedDocBlock();
      if parsed.Err? {
        return Err(parsed.error);
      }
      var registry := parsed.value;
      if Readable(registry, name) {
        return Ok(if name in storage then storage[name] else VNull);
      } else {
        return Err(UndefinedError(className, name));
      }
    }

    /** magicIsset. */
    method MagicIsset(name: string) returns (r: Outcome<bool>)
      modifies this`definedProperties
      ensures definedProperties == CacheAfterParse(old(definedProperties), annotations)
      ensures r == match ParsedDocBlockResult(old(definedProperties), annotations)
                   case Err(e) => Err(e)
                   case Ok(registry) => IssetFrom(className, registry, storage, name)
    {
      var parsed := ParsedDocBlock();
      if parsed.Err? {
        return Err(parsed.error);
      }
      var registry := parsed.value;
      if Readable(registry, name) {
        return Ok(name in storage && storage[name] != VNull);
      } else {
        return Err(UndefinedError(className, name));
      }
    }

    /** magicSet: on any error the storage is left as it was. */
    method MagicSet(rt: Runtime, name: string, value: Value) returns (r: Outcome<()>)
      modifies this`definedProperties, this`storage
      ensures definedProperties == CacheAfterParse(old(definedProperties), annotations)
      ensures ParsedDocBlockResult(old(definedProperties), annotations).Err? ==>
        r == Err(ParsedDocBlockResult(old(definedProperties), annotations).error) && storage == old(storage)
      ensures ParsedDocBlockResult(old(definedProperties), annotations).Ok? ==>
        var written := SetInto(rt, className, ParsedDocBlockResult(old(definedProperties), annotations).value,
                               old(storage), name, value);
        (written.Ok? ==> r == Ok(()) && storage == written.value) &&
        (written.Err? ==> r == Err(written.error) && storage == old(storage))
    {
      var parsed := ParsedDocBlock();
      if parsed.Err? {
        return Err(parsed.error);
      }
      var registry := parsed.value;
      if Writable(registry, name) {
        var valid := ValidateTypes(rt, value, registry[name].types);
        if valid.Err? {
          return Err(valid.error);
        }
        if !valid.value {
          return Err(TypeMismatchError(name, registry[name].types));
        }
        storage := storage[name := value];
        return Ok(());
      } else {
        return Err(UndefinedError(className, name));
      }
    }

    /** magicUnset: on any error the storage is left as it was. */
    method MagicUnset(name: string) returns (r: Outcome<()>)
      modifies this`definedProperties, this`storage
      ensures definedProperties == CacheAfterParse(old(definedProperties), annotations)
      ensures ParsedDocBlockResult(old(definedProperties), annotations).Err? ==>
        r == Err(ParsedDocBlockResult(old(definedProperties), annotations).error) && storage == old(storage)
      ensures ParsedDocBlockResult(old(definedProperties), annotations).Ok? ==>
        var cleared := UnsetIn(className, ParsedDocBlockResult(old(definedProperties), annotations).value,
                               old(storage), name);
        (cleared.Ok? ==> r == Ok(()) && storage == cleared.value) &&
        (cleared.Err? ==> r == Err(cleared.error) && storage == old(storage))
    {
      var parsed := ParsedDocBlock();
      if parsed.Err? {
        return Err(parsed.error);
      }
      var registry := parsed.value;
      if Writable(registry, name) {
        storage := storage[name := VNull];
        return Ok(());
      } else {
        return Err(UndefinedError(className, name));
      }
    }
  }
}
