/** The repository's test fixtures as reader output, and the behaviour the
    model gives them: a malformed declaration (TestFixtureMalformedProperty)
    and the six-property fixture (TestFixtureManyProperties). */
module Fixtures {
  import opened Outcomes
  import opened PhpStrings
  import opened DocParsing
  import opened PropertyRegistry
  import opened TypeValidation
  import opened MagicProperties

  // ---------------------------------------------------------------------------
  // The malformed fixture declares one `property` named `name` whose type
  // expression puts the nullability marker after `float`; `sp` stands for the
  // whitespace between the type and the name.

  const MalformedClass := "Aesonus\\Tests\\TestFixtureMalformedProperty"

  /** The message of the RuntimeException the fixture raises. */
  const MalformedMessage := "Invalid property types: " + "float?"

  function MalformedLine(sp: string): string
  {
    DocLine("float" + "?", sp, "name")
  }

  function MalformedAnnotations(line: string): Annotations
  {
    [("property", Single(line)),
     ("author", Single("Aesonus <corylcomposinger at gmail.com>"))]
  }

  /** A type `t?` whose first '?' is not at the start is rejected with the
      RuntimeException naming the whole type expression. */
  lemma MisplacedMarkerLine(t: string, ws: string, name: string)
    requires t != [] && NoSpace(t) && '?' !in t && NoSpace(name) && Whitespace(ws)
    ensures LineName(DocLine(t + "?", ws, name)) == name
    ensures LineTypes(DocLine(t + "?", ws, name)) == Err(InvalidTypesError(t + "?"))
  {
    var u := t + "?";
    assert u[|t|] == '?' && u[0] == t[0];
    assert NoSpace(u) by {
      forall k | 0 <= k < |u| ensures !IsSpace(u[k]) {
        if k < |t| { assert u[k] == t[k]; }
      }
    }
    DocLineDeclares(u, ws, name);
  }

  lemma MalformedLineRejected(sp: string)
    requires Whitespace(sp)
    ensures LineName(MalformedLine(sp)) == "name"
    ensures LineTypes(MalformedLine(sp)) == Err(InvalidTypes(MalformedMessage))
  {
    assert "float" != [] && NoSpace("float") && '?' !in "float" && NoSpace("name") by {
      assert "float"[0] == 'f';
    }
    MisplacedMarkerLine("float", sp, "name");
    assert InvalidTypesError("float" + "?") == InvalidTypes(MalformedMessage) by {
      assert "float" + "?" == "float?";
    }
  }

  lemma MalformedNamesTextual(sp: string)
    requires Whitespace(sp)
    ensures TextualNames(MalformedAnnotations(MalformedLine(sp)))
    ensures MemoFieldFree(MalformedAnnotations(MalformedLine(sp)))
  {
    var annotations := MalformedAnnotations(MalformedLine(sp));
    forall i, k | 0 <= i < |annotations| && KindOf(annotations[i].0).Some? && 0 <= k < |Lines(annotations[i].1)|
      ensures !IsIntegerKey(LineName(Lines(annotations[i].1)[k]))
      ensures LineName(Lines(annotations[i].1)[k]) != MemoField
    {
      assert i == 0 && k == 0;
      MalformedLineRejected(sp);
      StringKeyByFirstChar("name");
      assert |"name"| != |MemoField|;
    }
  }

  /** The first parse fails after assigning the empty registry. */
  lemma MalformedParse(sp: string)
    requires Whitespace(sp)
    ensures ParsedDocBlockResult(None, MalformedAnnotations(MalformedLine(sp))) == Err(InvalidTypes(MalformedMessage))
    ensures CacheAfterParse(None, MalformedAnnotations(MalformedLine(sp))) == Some(map[])
  {
    var line := MalformedLine(sp);
    MalformedLineRejected(sp);
    var kinds := [(Property, Single(line))];
    assert AllowedAnnotations(MalformedAnnotations(line)) == kinds;
    assert kinds[..0] == [];
    assert [line][..0] == [];
    assert PropertyInfo(Property, [line]) == Err(InvalidTypes(MalformedMessage));
    assert Merged(kinds) == Build(map[], Some(InvalidTypes(MalformedMessage)));
  }

  /** The first access to the malformed fixture throws the RuntimeException;
      because definedProperties was already assigned, the second access finds
      an empty registry and throws the undefined-property error instead. */
  method MalformedFixtureTwice(sp: string) returns (first: Outcome<Value>, second: Outcome<Value>)
    requires Whitespace(sp)
    ensures first == Err(InvalidTypes(MalformedMessage))
    ensures second == Err(UndefinedError(MalformedClass, "name"))
  {
    MalformedNamesTextual(sp);
    MalformedParse(sp);
    var obj := new MagicObject(MalformedClass, MalformedAnnotations(MalformedLine(sp)), map[]);
    first := obj.MagicGet("name");
    second := obj.MagicGet("name");
  }
}

module ManyPropertiesFixture {
  import opened Outcomes
  import opened PhpStrings
  import opened DocParsing
  import opened PropertyRegistry
  import opened TypeValidation
  import opened MagicProperties

  // ---------------------------------------------------------------------------
  // TestFixtureManyProperties declares six properties, two per kind: under
  // `property` a nullable string (by the leading-marker shorthand) and a
  // float-or-string union; under `property-read` an int and a callable-or-object
  // union; under `property-write` a stdClass-or-null union and `mixed`. One of
  // its lines has a wider whitespace run between type and name.

  const ManyClass := "Aesonus\\Tests\\TestFixtureManyProperties"

  const StringOrNull := "testStringOrNullProperty"
  const FloatOrString := "testFloatOrStringProperty"
  const IntRead := "testIntReadProperty"
  const CallableOrObjectRead := "testCallableOrObjectReadProperty"
  const StdClassOrNullWrite := "testStdClassOrNullWriteProperty"
  const MixedWrite := "testMixedWriteProperty"

  /** The entries each annotation kind of the fixture declares: each name with
      its type list (`?string` read as null|string) and its kind. */
  function PropertyEntries(): Registry
  {
    map[StringOrNull := Decl(["null", "string"], Property)][FloatOrString := Decl(["float", "string"], Property)]
  }

  function ReadEntries(): Registry
  {
    map[IntRead := Decl(["int"], PropertyRead)][CallableOrObjectRead := Decl(["callable", "object"], PropertyRead)]
  }

  function WriteEntries(): Registry
  {
    map[StdClassOrNullWrite := Decl(["\\stdClass", "null"], PropertyWrite)][MixedWrite := Decl(["mixed"], PropertyWrite)]
  }

  /** The registry the fixture's doc block declares. */
  function ManyRegistry(): Registry
  {
    PropertyEntries() + ReadEntries() + WriteEntries()
  }

  /** Two annotation lines of one kind give a registry holding both names, the
      second line winning when the names coincide. */
  lemma PropertyInfoOfTwo(access: Access, l1: string, l2: string)
    requires LineTypes(l1).Ok? && LineTypes(l2).Ok?
    ensures PropertyInfo(access, [l1, l2]) ==
      Ok(map[LineName(l1) := Decl(LineTypes(l1).value, access)][LineName(l2) := Decl(LineTypes(l2).value, access)])
  {
    var lines := [l1, l2];
    assert lines[..1] == [l1];
    assert [l1][..0] == [];
    var first := map[LineName(l1) := Decl(LineTypes(l1).value, access)];
    assert PropertyInfo(access, []) == Ok(map[]);
    assert PropertyInfo(access, [l1]) == Ok(first);
    assert lines[|lines| - 1] == l2;
  }

  /** The type expressions `?t` and `a|b`. */
  function Nullable(t: string): string
  {
    "?" + t
  }

  function Union(a: string, b: string): string
  {
    a + "|" + b
  }

  /** The fixture's doc lines, per annotation kind. */
  datatype ManyLines = ManyLines(props: seq<string>, readProps: seq<string>, writeProps: seq<string>)

  /** The fixture's lines; `sp` stands for the single space and `wide` for the
      wider run after float|string. */
  function FixtureLines(sp: string, wide: string): ManyLines
  {
    ManyLines(
      [DocLine(Nullable("string"), sp, StringOrNull), DocLine(Union("float", "string"), wide, FloatOrString)],
      [DocLine("int", sp, IntRead), DocLine(Union("callable", "object"), sp, CallableOrObjectRead)],
      [DocLine(Union("\\stdClass", "null"), sp, StdClassOrNullWrite), DocLine("mixed", sp, MixedWrite)])
  }

  /** The reader output for the fixture's doc block: its `property`,
      `property-read` and `property-write` lines and an `author` tag. */
  function ManyAnnotations(lines: ManyLines): Annotations
  {
    [("property", Many(lines.props)),
     ("property-read", Many(lines.readProps)),
     ("property-write", Many(lines.writeProps)),
     ("author", Single("Aesonus <corylcomposinger at gmail.com>"))]
  }

  /** None of the lines declares a name PHP would turn into an integer key,
      nor one named like the memo field. */
  predicate StringNames(lines: seq<string>)
  {
    forall k :: 0 <= k < |lines| ==> !IsIntegerKey(LineName(lines[k])) && LineName(lines[k]) != MemoField
  }

  /** Lines of each kind that declare the fixture's entries under string names. */
  predicate DeclaresFixture(lines: ManyLines)
  {
    PropertyInfo(Property, lines.props) == Ok(PropertyEntries()) && StringNames(lines.props) &&
    PropertyInfo(PropertyRead, lines.readProps) == Ok(ReadEntries()) && StringNames(lines.readProps) &&
    PropertyInfo(PropertyWrite, lines.writeProps) == Ok(WriteEntries()) && StringNames(lines.writeProps)
  }

  /** `?t` declares null and t. */
  lemma NullableType(t: string)
    requires '|' !in t
    ensures PropertyTypes(Nullable(t)) == Ok(["null", t])
  {
    PropertyTypesNullable(t);
    ExplodeWithoutSeparator('|', t);
    assert Nullable(t) == "?" + t;
    assert ["null"] + [t] == ["null", t];
  }

  /** `a|b` without '?' declares a and b. */
  lemma UnionType(a: string, b: string)
    requires '|' !in a && '|' !in b && '?' !in a && '?' !in b
    ensures PropertyTypes(Union(a, b)) == Ok([a, b])
  {
    var s := Union(a, b);
    assert s == a + ['|'] + b;
    ExplodeCons('|', a, b);
    ExplodeWithoutSeparator('|', b);
    assert [a] + [b] == [a, b];
    assert '?' !in s by {
      forall k | 0 <= k < |s| ensures s[k] != '?' {
        if k < |a| { assert s[k] == a[k]; }
        else if k > |a| { assert s[k] == b[k - |a| - 1]; }
      }
    }
  }

  lemma UnionNoSpace(a: string, b: string)
    requires NoSpace(a) && NoSpace(b)
    ensures NoSpace(Union(a, b))
  {
    var s := Union(a, b);
    forall k | 0 <= k < |s| ensures !IsSpace(s[k]) {
      if k < |a| { assert s[k] == a[k]; }
      else if k > |a| { assert s[k] == b[k - |a| - 1]; }
    }
  }

  lemma NullableNoSpace(t: string)
    requires NoSpace(t)
    ensures NoSpace(Nullable(t))
  {
    var s := Nullable(t);
    forall k | 0 <= k < |s| ensures !IsSpace(s[k]) {
      if k > 0 { assert s[k] == t[k - 1]; }
    }
  }

  /** The three shapes of the fixture's lines: `t $name`, `?t $name` and
      `a|b $name`. */
  lemma PlainLine(t: string, ws: string, name: string)
    requires '|' !in t && '?' !in t && NoSpace(t) && NoSpace(name) && Whitespace(ws)
    ensures LineName(DocLine(t, ws, name)) == name
    ensures LineTypes(DocLine(t, ws, name)) == Ok([t])
  {
    ExplodeWithoutSeparator('|', t);
    DocLineDeclares(t, ws, name);
  }

  lemma NullableLine(t: string, ws: string, name: string)
    requires '|' !in t && NoSpace(t) && NoSpace(name) && Whitespace(ws)
    ensures LineName(DocLine(Nullable(t), ws, name)) == name
    ensures LineTypes(DocLine(Nullable(t), ws, name)) == Ok(["null", t])
  {
    NullableType(t);
    NullableNoSpace(t);
    DocLineDeclares(Nullable(t), ws, name);
  }

  lemma UnionLine(a: string, b: string, ws: string, name: string)
    requires '|' !in a && '|' !in b && '?' !in a && '?' !in b
    requires NoSpace(a) && NoSpace(b) && NoSpace(name) && Whitespace(ws)
    ensures LineName(DocLine(Union(a, b), ws, name)) == name
    ensures LineTypes(DocLine(Union(a, b), ws, name)) == Ok([a, b])
  {
    UnionType(a, b);
    UnionNoSpace(a, b);
    DocLineDeclares(Union(a, b), ws, name);
  }

  /** Each of the fixture's lines declares its name with its type list. */
  lemma FixtureLine0(sp: string)
    requires Whitespace(sp)
    ensures LineName(DocLine(Nullable("string"), sp, StringOrNull)) == StringOrNull
    ensures LineTypes(DocLine(Nullable("string"), sp, StringOrNull)) == Ok(["null", "string"])
    ensures !IsIntegerKey(LineName(DocLine(Nullable("string"), sp, StringOrNull)))
    ensures LineName(DocLine(Nullable("string"), sp, StringOrNull)) != MemoField
  {
    NullableLine("string", sp, StringOrNull);
    StringKeyByFirstChar(StringOrNull);
    assert |StringOrNull| != |MemoField|;
  }

  lemma FixtureLine1(wide: string)
    requires Whitespace(wide)
    ensures LineName(DocLine(Union("float", "string"), wide, FloatOrString)) == FloatOrString
    ensures LineTypes(DocLine(Union("float", "string"), wide, FloatOrString)) == Ok(["float", "string"])
    ensures !IsIntegerKey(LineName(DocLine(Union("float", "string"), wide, FloatOrString)))
    ensures LineName(DocLine(Union("float", "string"), wide, FloatOrString)) != MemoField
  {
    UnionLine("float", "string", wide, FloatOrString);
    StringKeyByFirstChar(FloatOrString);
    assert |FloatOrString| != |MemoField|;
  }

  lemma FixtureLine2(sp: string)
    requires Whitespace(sp)
    ensures LineName(DocLine("int", sp, IntRead)) == IntRead
    ensures LineTypes(DocLine("int", sp, IntRead)) == Ok(["int"])
    ensures !IsIntegerKey(LineName(DocLine("int", sp, IntRead)))
    ensures LineName(DocLine("int", sp, IntRead)) != MemoField
  {
    PlainLine("int", sp, IntRead);
    StringKeyByFirstChar(IntRead);
    assert |IntRead| != |MemoField|;
  }

  lemma FixtureLine3(sp: string)
    requires Whitespace(sp)
    ensures LineName(DocLine(Union("callable", "object"), sp, CallableOrObjectRead)) == CallableOrObjectRead
    ensures LineTypes(DocLine(Union("callable", "object"), sp, CallableOrObjectRead)) == Ok(["callable", "object"])
    ensures !IsIntegerKey(LineName(DocLine(Union("callable", "object"), sp, CallableOrObjectRead)))
    ensures LineName(DocLine(Union("callable", "object"), sp, CallableOrObjectRead)) != MemoField
  {
    UnionLine("callable", "object", sp, CallableOrObjectRead);
    StringKeyByFirstChar(CallableOrObjectRead);
    assert |CallableOrObjectRead| != |MemoField|;
  }

  lemma FixtureLine4(sp: string)
    requires Whitespace(sp)
    ensures LineName(DocLine(Union("\\stdClass", "null"), sp, StdClassOrNullWrite)) == StdClassOrNullWrite
    ensures LineTypes(DocLine(Union("\\stdClass", "null"), sp, StdClassOrNullWrite)) == Ok(["\\stdClass", "null"])
    ensures !IsIntegerKey(LineName(DocLine(Union("\\stdClass", "null"), sp, StdClassOrNullWrite)))
    ensures LineName(DocLine(Union("\\stdClass", "null"), sp, StdClassOrNullWrite)) != MemoField
  {
    UnionLine("\\stdClass", "null", sp, StdClassOrNullWrite);
    StringKeyByFirstChar(StdClassOrNullWrite);
    assert |StdClassOrNullWrite| != |MemoField|;
  }

  lemma FixtureLine5(sp: string)
    requires Whitespace(sp)
    ensures LineName(DocLine("mixed", sp, MixedWrite)) == MixedWrite
    ensures LineTypes(DocLine("mixed", sp, MixedWrite)) == Ok(["mixed"])
    ensures !IsIntegerKey(LineName(DocLine("mixed", sp, MixedWrite)))
    ensures LineName(DocLine("mixed", sp, MixedWrite)) != MemoField
  {
    PlainLine("mixed", sp, MixedWrite);
    StringKeyByFirstChar(MixedWrite);
    assert |MixedWrite| != |MemoField|;
  }

  /** Two lines of one kind with known names and type lists, neither of them
      an integer-like key. */
  lemma KindOfTwo(access: Access, l0: string, l1: string, n0: string, n1: string, t0: seq<string>, t1: seq<string>)
    requires LineName(l0) == n0 && LineTypes(l0) == Ok(t0) && !IsIntegerKey(n0) && n0 != MemoField
    requires LineName(l1) == n1 && LineTypes(l1) == Ok(t1) && !IsIntegerKey(n1) && n1 != MemoField
    ensures PropertyInfo(access, [l0, l1]) == Ok(map[n0 := Decl(t0, access)][n1 := Decl(t1, access)])
    ensures StringNames([l0, l1])
  {
    PropertyInfoOfTwo(access, l0, l1);
    forall k | 0 <= k < 2 ensures !IsIntegerKey(LineName([l0, l1][k])) && LineName([l0, l1][k]) != MemoField {
      if k == 1 { assert [l0, l1][k] == l1; }
    }
  }

  lemma PropertyLinesDeclare(sp: string, wide: string)
    requires Whitespace(sp) && Whitespace(wide)
    ensures PropertyInfo(Property, FixtureLines(sp, wide).props) == Ok(PropertyEntries())
    ensures StringNames(FixtureLines(sp, wide).props)
  {
    FixtureLine0(sp);
    FixtureLine1(wide);
    KindOfTwo(Property, DocLine(Nullable("string"), sp, StringOrNull), DocLine(Union("float", "string"), wide, FloatOrString),
      StringOrNull, FloatOrString, ["null", "string"], ["float", "string"]);
  }

  lemma ReadLinesDeclare(sp: string, wide: string)
    requires Whitespace(sp)
    ensures PropertyInfo(PropertyRead, FixtureLines(sp, wide).readProps) == Ok(ReadEntries())
    ensures StringNames(FixtureLines(sp, wide).readProps)
  {
    FixtureLine2(sp);
    FixtureLine3(sp);
    KindOfTwo(PropertyRead, DocLine("int", sp, IntRead), DocLine(Union("callable", "object"), sp, CallableOrObjectRead),
      IntRead, CallableOrObjectRead, ["int"], ["callable", "object"]);
  }

  lemma WriteLinesDeclare(sp: string, wide: string)
    requires Whitespace(sp)
    ensures PropertyInfo(PropertyWrite, FixtureLines(sp, wide).writeProps) == Ok(WriteEntries())
    ensures StringNames(FixtureLines(sp, wide).writeProps)
  {
    FixtureLine4(sp);
    FixtureLine5(sp);
    KindOfTwo(PropertyWrite, DocLine(Union("\\stdClass", "null"), sp, StdClassOrNullWrite), DocLine("mixed", sp, MixedWrite),
      StdClassOrNullWrite, MixedWrite, ["\\stdClass", "null"], ["mixed"]);
  }

  /** The fixture's lines declare its six properties, whatever whitespace runs
      separate their types from their names. */
  lemma FixtureLinesDeclare(sp: string, wide: string)
    requires Whitespace(sp) && Whitespace(wide)
    ensures DeclaresFixture(FixtureLines(sp, wide))
  {
    PropertyLinesDeclare(sp, wide);
    ReadLinesDeclare(sp, wide);
    WriteLinesDeclare(sp, wide);
  }

  /** The three kept tags of the fixture, as kinds. */
  function ManyKindList(lines: ManyLines): seq<(Access, DocValue)>
  {
    [(Property, Many(lines.props)), (PropertyRead, Many(lines.readProps)), (PropertyWrite, Many(lines.writeProps))]
  }

  /** Four tags of which the first three are allowed: the filter, applied tag
      by tag, keeps those three in order. */
  lemma AllowedThreeOfFour(a: Annotations, k0: Access, k1: Access, k2: Access)
    requires |a| == 4
    requires KindOf(a[0].0) == Some(k0) && KindOf(a[1].0) == Some(k1) && KindOf(a[2].0) == Some(k2)
    requires KindOf(a[3].0) == None
    ensures AllowedAnnotations(a) == [(k0, a[0].1), (k1, a[1].1), (k2, a[2].1)]
  {
    assert a == [a[0]] + ([a[1]] + ([a[2]] + [a[3]]));
    AllowedAnnotationsSingle(a[0].0, a[0].1);
    AllowedAnnotationsSingle(a[1].0, a[1].1);
    AllowedAnnotationsSingle(a[2].0, a[2].1);
    AllowedAnnotationsSingle(a[3].0, a[3].1);
    AllowedAnnotationsAppend([a[2]], [a[3]]);
    AllowedAnnotationsAppend([a[1]], [a[2]] + [a[3]]);
    AllowedAnnotationsAppend([a[0]], [a[1]] + ([a[2]] + [a[3]]));
  }

  /** The tags kept from the fixture's doc block, in order. */
  lemma ManyKinds(lines: ManyLines)
    ensures AllowedAnnotations(ManyAnnotations(lines)) == ManyKindList(lines)
  {
    assert KindOf("property") == Some(Property);
    assert KindOf("property-read") == Some(PropertyRead);
    assert KindOf("property-write") == Some(PropertyWrite);
    assert KindOf("author") == None;
    AllowedThreeOfFour(ManyAnnotations(lines), Property, PropertyRead, PropertyWrite);
  }

  /** Three kinds whose lines all parse merge into the union of their entries,
      later kinds winning. */
  lemma MergedThree(k: seq<(Access, DocValue)>, i0: Registry, i1: Registry, i2: Registry)
    requires |k| == 3
    requires PropertyInfo(k[0].0, Lines(k[0].1)) == Ok(i0)
    requires PropertyInfo(k[1].0, Lines(k[1].1)) == Ok(i1)
    requires PropertyInfo(k[2].0, Lines(k[2].1)) == Ok(i2)
    ensures Merged(k) == Build(map[] + i0 + i1 + i2, None)
  {
    assert k[..0] == [];
    MergedPrefixStep(k, 0);
    MergedPrefixStep(k, 1);
    MergedPrefixStep(k, 2);
    assert k[..3] == k;
  }

  lemma ManyMerged(lines: ManyLines)
    requires DeclaresFixture(lines)
    ensures Merged(ManyKindList(lines)) == Build(ManyRegistry(), None)
  {
    MergedThree(ManyKindList(lines), PropertyEntries(), ReadEntries(), WriteEntries());
    assert map[] + PropertyEntries() == PropertyEntries();
  }

  /** The first access builds exactly the six declared properties. */
  lemma ManyParse(lines: ManyLines)
    requires DeclaresFixture(lines)
    ensures ParsedDocBlockResult(None, ManyAnnotations(lines)) == Ok(ManyRegistry())
    ensures CacheAfterParse(None, ManyAnnotations(lines)) == Some(ManyRegistry())
  {
    ManyKinds(lines);
    ManyMerged(lines);
  }

  lemma ManyNamesTextual(lines: ManyLines)
    requires DeclaresFixture(lines)
    ensures TextualNames(ManyAnnotations(lines))
    ensures MemoFieldFree(ManyAnnotations(lines))
  {
    var annotations := ManyAnnotations(lines);
    forall i, k | 0 <= i < |annotations| && KindOf(annotations[i].0).Some? && 0 <= k < |Lines(annotations[i].1)|
      ensures !IsIntegerKey(LineName(Lines(annotations[i].1)[k]))
      ensures LineName(Lines(annotations[i].1)[k]) != MemoField
    {
      assert KindOf("author") == None;
      assert i in {0, 1, 2};
    }
  }

  /** A fresh fixture object with nothing parsed yet. */
  method NewFixture(lines: ManyLines, storage: map<string, Value>) returns (obj: MagicObject)
    requires DeclaresFixture(lines)
    ensures fresh(obj) && obj.annotations == ManyAnnotations(lines) && obj.className == ManyClass
    ensures obj.definedProperties == None && obj.storage == storage
  {
    ManyNamesTextual(lines);
    obj := new MagicObject(ManyClass, ManyAnnotations(lines), storage);
  }

  /** What the fixture's tests rely on: how each of the six names is
      registered, and that notMagicProperty is not. */
  predicate FixtureLookups(registry: Registry)
  {
    StringOrNull in registry && registry[StringOrNull] == Decl(["null", "string"], Property) &&
    FloatOrString in registry && registry[FloatOrString] == Decl(["float", "string"], Property) &&
    IntRead in registry && registry[IntRead] == Decl(["int"], PropertyRead) &&
    CallableOrObjectRead in registry && registry[CallableOrObjectRead] == Decl(["callable", "object"], PropertyRead) &&
    StdClassOrNullWrite in registry && registry[StdClassOrNullWrite] == Decl(["\\stdClass", "null"], PropertyWrite) &&
    MixedWrite in registry && registry[MixedWrite] == Decl(["mixed"], PropertyWrite) &&
    "notMagicProperty" !in registry
  }

  /** What each of the six names looks up to. */
  lemma ManyLookups()
    ensures FixtureLookups(ManyRegistry())
  {
  }

  /** The first access parses the fixture into a registry with those lookups. */
  lemma ManyFirstParse(lines: ManyLines)
    requires DeclaresFixture(lines)
    ensures ParsedDocBlockResult(None, ManyAnnotations(lines)).Ok?
    ensures FixtureLookups(ParsedDocBlockResult(None, ManyAnnotations(lines)).value)
  {
    ManyParse(lines);
    ManyLookups();
  }

  /** Which of the fixture's names can be read and which written. */
  lemma ManyAccess(registry: Registry)
    requires FixtureLookups(registry)
    ensures Readable(registry, StringOrNull) && Writable(registry, StringOrNull)
    ensures Readable(registry, FloatOrString) && Writable(registry, FloatOrString)
    ensures Readable(registry, IntRead) && !Writable(registry, IntRead)
    ensures Readable(registry, CallableOrObjectRead) && !Writable(registry, CallableOrObjectRead)
    ensures !Readable(registry, StdClassOrNullWrite) && Writable(registry, StdClassOrNullWrite)
    ensures !Readable(registry, MixedWrite) && Writable(registry, MixedWrite)
    ensures !Readable(registry, "notMagicProperty") && !Writable(registry, "notMagicProperty")
  {
  }

  // ---------------------------------------------------------------------------
  // validateTypes under the standard runtime for the values the fixture's tests
  // assign.

  lemma NullOrStringVerdicts()
    ensures ValidTypes(StandardRuntime(), VString("string value"), ["null", "string"]) == Ok(true)
    ensures ValidTypes(StandardRuntime(), VNull, ["null", "string"]) == Ok(true)
    ensures ValidTypes(StandardRuntime(), VInt(23), ["null", "string"]) == Ok(false)
    ensures ValidTypes(StandardRuntime(), VObject("stdClass"), ["null", "string"]) == Ok(false)
  {
    assert ["null", "string"][1..] == ["string"];
    assert ["string"][1..] == [];
  }

  lemma FloatOrStringVerdicts()
    ensures ValidTypes(StandardRuntime(), VInt(5), ["float", "string"]) == Ok(false)
    ensures ValidTypes(StandardRuntime(), VBool(false), ["float", "string"]) == Ok(false)
  {
    assert ["float", "string"][1..] == ["string"];
    assert ["string"][1..] == [];
  }

  lemma MixedVerdict()
    ensures ValidTypes(StandardRuntime(), VFloat("4.3"), ["mixed"]) == Ok(true)
  {
  }

  lemma StdClassOrNullVerdicts()
    ensures ValidTypes(StandardRuntime(), VObject("stdClass"), ["\\stdClass", "null"]) == Ok(true)
    ensures ValidTypes(StandardRuntime(), VNull, ["\\stdClass", "null"]) == Err(MissingPredicate("is_\\stdClass"))
  {
    assert BareClassName("\\stdClass") == "stdClass";
    assert !IsPredicateName("\\stdClass");
    assert "is_" + "\\stdClass" == "is_\\stdClass";
  }

  /** `property ?string`: a string is written and read back. */
  method NullableTakesString(lines: ManyLines) returns (written: Outcome<()>, read: Outcome<Value>)
    requires DeclaresFixture(lines)
    ensures written == Ok(()) && read == Ok(VString("string value"))
  {
    NullOrStringVerdicts();
    ManyFirstParse(lines);
    ghost var registry := ParsedDocBlockResult(None, ManyAnnotations(lines)).value;
    ManyAccess(registry);
    var obj := NewFixture(lines, map[]);
    written := obj.MagicSet(StandardRuntime(), StringOrNull, VString("string value"));
    assert obj.definedProperties == Some(registry);
    read := obj.MagicGet(StringOrNull);
  }

  /** `property ?string`: null is written and read back, and the property then
      counts as not set. */
  method NullableTakesNull(lines: ManyLines) returns (written: Outcome<()>, read: Outcome<Value>, isset: Outcome<bool>)
    requires DeclaresFixture(lines)
    ensures written == Ok(()) && read == Ok(VNull) && isset == Ok(false)
  {
    NullOrStringVerdicts();
    ManyFirstParse(lines);
    ghost var registry := ParsedDocBlockResult(None, ManyAnnotations(lines)).value;
    ManyAccess(registry);
    var obj := NewFixture(lines, map[StringOrNull := VString("string value")]);
    written := obj.MagicSet(StandardRuntime(), StringOrNull, VNull);
    assert obj.definedProperties == Some(registry);
    read := obj.MagicGet(StringOrNull);
    isset := obj.MagicIsset(StringOrNull);
  }


  /** `float|string` rejects 5 and false, `?string` rejects 23 and a stdClass
      object, each with the TypeError listing the declared types; the storage
      keeps its value. */
  method TypeErrors(lines: ManyLines) returns (r1: Outcome<()>, r2: Outcome<()>, r3: Outcome<()>, r4: Outcome<()>,
                                           kept: Value)
    requires DeclaresFixture(lines)
    ensures r1 == Err(TypeMismatchError(FloatOrString, ["float", "string"]))
    ensures r2 == Err(TypeMismatchError(FloatOrString, ["float", "string"]))
    ensures r3 == Err(TypeMismatchError(StringOrNull, ["null", "string"]))
    ensures r4 == Err(TypeMismatchError(StringOrNull, ["null", "string"]))
    ensures kept == VFloat("3.14159")
  {
    NullOrStringVerdicts();
    FloatOrStringVerdicts();
    ManyFirstParse(lines);
    ghost var registry := ParsedDocBlockResult(None, ManyAnnotations(lines)).value;
    ManyAccess(registry);
    var obj := NewFixture(lines, map[FloatOrString := VFloat("3.14159")]);
    r1 := obj.MagicSet(StandardRuntime(), FloatOrString, VInt(5));
    assert obj.definedProperties == Some(registry);
    r2 := obj.MagicSet(StandardRuntime(), FloatOrString, VBool(false));
    assert obj.definedProperties == Some(registry);
    r3 := obj.MagicSet(StandardRuntime(), StringOrNull, VInt(23));
    assert obj.definedProperties == Some(registry);
    r4 := obj.MagicSet(StandardRuntime(), StringOrNull, VObject("stdClass"));
    assert obj.definedProperties == Some(registry);
    kept := obj.storage[FloatOrString];
  }

  /** The write-only `mixed` property accepts 4.3 but cannot be read back, and
      the other write-only property cannot be read or tested either. */
  method WriteOnly(lines: ManyLines)
    returns (written: Outcome<()>, stored: Value, get: Outcome<Value>, isset: Outcome<bool>,
             otherGet: Outcome<Value>, otherIsset: Outcome<bool>)
    requires DeclaresFixture(lines)
    ensures written == Ok(()) && stored == VFloat("4.3")
    ensures get == Err(UndefinedError(ManyClass, MixedWrite))
    ensures isset == Err(UndefinedError(ManyClass, MixedWrite))
    ensures otherGet == Err(UndefinedError(ManyClass, StdClassOrNullWrite))
    ensures otherIsset == Err(UndefinedError(ManyClass, StdClassOrNullWrite))
  {
    MixedVerdict();
    ManyFirstParse(lines);
    ghost var registry := ParsedDocBlockResult(None, ManyAnnotations(lines)).value;
    ManyAccess(registry);
    var obj := NewFixture(lines, map[]);
    written := obj.MagicSet(StandardRuntime(), MixedWrite, VFloat("4.3"));
    assert obj.definedProperties == Some(registry);
    stored := obj.storage[MixedWrite];
    get := obj.MagicGet(MixedWrite);
    assert obj.definedProperties == Some(registry);
    isset := obj.MagicIsset(MixedWrite);
    assert obj.definedProperties == Some(registry);
    otherGet := obj.MagicGet(StdClassOrNullWrite);
    assert obj.definedProperties == Some(registry);
    otherIsset := obj.MagicIsset(StdClassOrNullWrite);
  }

  /** A backing field outside the registry (notMagicProperty) cannot be read
      or tested, whatever it holds. */
  method Unregistered(lines: ManyLines) returns (get: Outcome<Value>, isset: Outcome<bool>)
    requires DeclaresFixture(lines)
    ensures get == Err(UndefinedError(ManyClass, "notMagicProperty"))
    ensures isset == Err(UndefinedError(ManyClass, "notMagicProperty"))
  {
    ManyFirstParse(lines);
    ghost var registry := ParsedDocBlockResult(None, ManyAnnotations(lines)).value;
    ManyAccess(registry);
    var obj := NewFixture(lines, map["notMagicProperty" := VString("not accessible")]);
    get := obj.MagicGet("notMagicProperty");
    assert obj.definedProperties == Some(registry);
    isset := obj.MagicIsset("notMagicProperty");
  }


  /** `property-read int` is read but neither written nor unset. */
  method ReadOnly(lines: ManyLines) returns (get: Outcome<Value>, written: Outcome<()>, unset: Outcome<()>, stored: Value)
    requires DeclaresFixture(lines)
    ensures get == Ok(VInt(23))
    ensures written == Err(UndefinedError(ManyClass, IntRead))
    ensures unset == Err(UndefinedError(ManyClass, IntRead))
    ensures stored == VInt(23)
  {
    ManyFirstParse(lines);
    ghost var registry := ParsedDocBlockResult(None, ManyAnnotations(lines)).value;
    ManyAccess(registry);
    var obj := NewFixture(lines, map[IntRead := VInt(23)]);
    get := obj.MagicGet(IntRead);
    assert obj.definedProperties == Some(registry);
    written := obj.MagicSet(StandardRuntime(), IntRead, VString("non consequential value"));
    assert obj.definedProperties == Some(registry);
    unset := obj.MagicUnset(IntRead);
    assert obj.definedProperties == Some(registry);
    stored := obj.storage[IntRead];
  }

  /** magicUnset assigns null to the backing field. */
  method UnsetAssignsNull(lines: ManyLines) returns (r: Outcome<()>, stored: Value)
    requires DeclaresFixture(lines)
    ensures r == Ok(()) && stored == VNull
  {
    ManyFirstParse(lines);
    ghost var registry := ParsedDocBlockResult(None, ManyAnnotations(lines)).value;
    ManyAccess(registry);
    var obj := NewFixture(lines, map[StdClassOrNullWrite := VString("not gonna be here for long")]);
    r := obj.MagicUnset(StdClassOrNullWrite);
    assert obj.definedProperties == Some(registry);
    stored := obj.storage[StdClassOrNullWrite];
  }

  /** `\stdClass|null` accepts a stdClass object, but null makes validateTypes
      call is_\stdClass, which does not exist: the class test fails for null
      and the is_<type> branch is taken before `null` is ever tried. */
  method StdClassOrNull(lines: ManyLines) returns (withObject: Outcome<()>, withNull: Outcome<()>)
    requires DeclaresFixture(lines)
    ensures withObject == Ok(())
    ensures withNull == Err(MissingPredicate("is_\\stdClass"))
  {
    StdClassOrNullVerdicts();
    ManyFirstParse(lines);
    ghost var registry := ParsedDocBlockResult(None, ManyAnnotations(lines)).value;
    ManyAccess(registry);
    var obj := NewFixture(lines, map[]);
    withObject := obj.MagicSet(StandardRuntime(), StdClassOrNullWrite, VObject("stdClass"));
    assert obj.definedProperties == Some(registry);
    withNull := obj.MagicSet(StandardRuntime(), StdClassOrNullWrite, VNull);
    assert obj.definedProperties == Some(registry);
  }
}
