/** The registry that getParsedDocBlock builds: the three annotation kinds kept
    from the doc-comment reader's output, each kind's lines turned into entries
    by getPropertyInfo, and the per-kind maps merged with array_merge. */
module PropertyRegistry {
  import opened Outcomes
  import opened PhpStrings
  import opened DocParsing

  /** The annotation kind a property was declared under; it is stored as the
      entry's 'access'. */
  datatype Access = Property | PropertyRead | PropertyWrite

  /** One registry entry: ['types' => ..., 'access' => ...]. */
  datatype Decl = Decl(types: seq<string>, access: Access)

  type Registry = map<string, Decl>

  /** What the doc-comment reader gives for one tag: a single string when the
      tag occurs once, an array of strings when it occurs several times. */
  datatype DocValue = Single(line: string) | Many(lines: seq<string>)

  /** The reader's getParameters(): tag names with their values, in order. */
  type Annotations = seq<(string, DocValue)>

  /** The allowed_annotations test: which tags are kept, and as which kind. */
  function KindOf(tag: string): (r: Option<Access>)
    ensures r.Some? <==> tag == "property" || tag == "property-read" || tag == "property-write"
    ensures r == Some(Property) <==> tag == "property"
    ensures r == Some(PropertyRead) <==> tag == "property-read"
    ensures r == Some(PropertyWrite) <==> tag == "property-write"
  {
    if tag == "property" then Some(Property)
    else if tag == "property-read" then Some(PropertyRead)
    else if tag == "property-write" then Some(PropertyWrite)
    else None
  }

  /** A single reader value becomes a one-element list; a list is kept. */
  function Lines(v: DocValue): (r: seq<string>)
    ensures v.Single? ==> r == [v.line]
    ensures v.Many? ==> r == v.lines
  {
    match v
    case Single(line) => [line]
    case Many(lines) => lines
  }

  /** array_filter(..., ARRAY_FILTER_USE_KEY) with the allowed_annotations test:
      the kept tags, in the reader's order, as kinds. */
  function AllowedAnnotations(annotations: Annotations): (r: seq<(Access, DocValue)>)
    ensures |r| <= |annotations|
    ensures forall k :: 0 <= k < |r| ==>
      exists i :: 0 <= i < |annotations| && KindOf(annotations[i].0) == Some(r[k].0) && annotations[i].1 == r[k].1
    ensures forall i :: 0 <= i < |annotations| && KindOf(annotations[i].0).Some? ==>
      (KindOf(annotations[i].0).value, annotations[i].1) in r
  {
    if annotations == [] then []
    else
      var rest := AllowedAnnotations(annotations[1..]);
      match KindOf(annotations[0].0)
      case None => rest
      case Some(kind) => [(kind, annotations[0].1)] + rest
  }

  /** A single tag is kept, as its kind, exactly when it is allowed. */
  lemma AllowedAnnotationsSingle(tag: string, v: DocValue)
    ensures AllowedAnnotations([(tag, v)]) ==
      if KindOf(tag).Some? then [(KindOf(tag).value, v)] else []
  {
  }

  /** The filter keeps the reader's order: filtering a concatenation is
      concatenating the filtered parts. With the single-tag case this fixes
      the kept sequence entry by entry. */
  lemma {:induction false} AllowedAnnotationsAppend(a: Annotations, b: Annotations)
    ensures AllowedAnnotations(a + b) == AllowedAnnotations(a) + AllowedAnnotations(b)
    decreases |a|
  {
    if a == [] {
      assert a + b == b;
    } else {
      assert (a + b)[0] == a[0];
      assert (a + b)[1..] == a[1..] + b;
      AllowedAnnotationsAppend(a[1..], b);
    }
  }

  /** getPropertyInfo: the lines of one kind, in order, each entered under its
      name (a later line replaces an earlier one of the same name); the first
      line whose type expression is rejected aborts with its error. */
  function PropertyInfo(access: Access, lines: seq<string>): Outcome<Registry>
    decreases |lines|
  {
    if lines == [] then Ok(map[])
    else
      match PropertyInfo(access, lines[..|lines| - 1])
      case Err(e) => Err(e)
      case Ok(info) =>
        var line := lines[|lines| - 1];
        match LineTypes(line)
        case Err(e) => Err(e)
        case Ok(types) => Ok(info[LineName(line) := Decl(types, access)])
  }

  /** getPropertyInfo fails only with the invalid-types exception; on success
      it has at most one entry per line, every entry carries the kind it was
      called with and a non-empty type list. */
  lemma {:induction false} PropertyInfoShape(access: Access, lines: seq<string>)
    ensures PropertyInfo(access, lines).Err? ==> PropertyInfo(access, lines).error.InvalidTypes?
    ensures PropertyInfo(access, lines).Ok? ==>
      var info := PropertyInfo(access, lines).value;
      |info| <= |lines| && forall n :: n in info ==> info[n].access == access && info[n].types != []
    decreases |lines|
  {
    if lines != [] {
      PropertyInfoShape(access, lines[..|lines| - 1]);
    }
  }

  /** An error on a prefix of the lines is the error of every extension. */
  lemma {:induction false} PropertyInfoErrorPersists(access: Access, lines: seq<string>, k: nat)
    requires k <= |lines| && PropertyInfo(access, lines[..k]).Err?
    ensures PropertyInfo(access, lines) == PropertyInfo(access, lines[..k])
    decreases |lines| - k
  {
    if k < |lines| {
      assert lines[..k + 1][..k] == lines[..k];
      PropertyInfoErrorPersists(access, lines, k + 1);
    } else {
      assert lines[..k] == lines;
    }
  }

  /** getPropertyInfo's loop over the docstrings of one kind. */
  method ComputePropertyInfo(access: Access, docs: seq<string>) returns (r: Outcome<Registry>)
    ensures r == PropertyInfo(access, docs)
  {
    var ret: Registry := map[];
    var i := 0;
    while i < |docs|
      invariant 0 <= i <= |docs|
      invariant PropertyInfo(access, docs[..i]) == Ok(ret)
    {
      var docstring := docs[i];
      var exploded := SplitOnWhitespace(docstring);
      var name := DropFirst(if |exploded| > 1 then exploded[1] else "");
      var types := PropertyTypes(exploded[0]);
      assert docs[..i + 1][..i] == docs[..i];
      if types.Err? {
        PropertyInfoErrorPersists(access, docs, i + 1);
        return Err(types.error);
      }
      ret := ret[name := Decl(types.value, access)];
      i := i + 1;
    }
    assert docs[..i] == docs;
    return Ok(ret);
  }

  /** The state getParsedDocBlock's loop leaves: the registry merged so far
      and, if a kind's getPropertyInfo threw, its error. */
  datatype Build = Build(registry: Registry, failure: Option<Error>)

  /** getParsedDocBlock's foreach: each kind's entries array_merge'd into the
      registry (later keys win), stopping at the first kind that fails and
      keeping what was merged before it. */
  function Merged(kinds: seq<(Access, DocValue)>): Build
    decreases |kinds|
  {
    if kinds == [] then Build(map[], None)
    else
      var before := Merged(kinds[..|kinds| - 1]);
      var (access, docs) := kinds[|kinds| - 1];
      if before.failure.Some? then before
      else
        match PropertyInfo(access, Lines(docs))
        case Err(e) => Build(before.registry, Some(e))
        case Ok(info) => Build(before.registry + info, None)
  }

  /** One merged entry has a non-empty type list and the kind of one of the
      merged kinds: the kind whose lines put it there last. */
  lemma {:induction false} MergedEntryShape(kinds: seq<(Access, DocValue)>, name: string)
    requires name in Merged(kinds).registry
    ensures Merged(kinds).registry[name].types != []
    ensures exists k :: 0 <= k < |kinds| && kinds[k].0 == Merged(kinds).registry[name].access
    decreases |kinds|
  {
    var n := |kinds| - 1;
    var prefix := kinds[..n];
    var before := Merged(prefix);
    var info := PropertyInfo(kinds[n].0, Lines(kinds[n].1));
    if before.failure.None? && info.Ok? && name in info.value {
      PropertyInfoShape(kinds[n].0, Lines(kinds[n].1));
      assert Merged(kinds).registry[name] == info.value[name];
      assert kinds[n].0 == Merged(kinds).registry[name].access;
    } else {
      assert Merged(kinds).registry[name] == before.registry[name];
      MergedEntryShape(prefix, name);
      var k :| 0 <= k < |prefix| && prefix[k].0 == before.registry[name].access;
      assert kinds[k] == prefix[k];
    }
  }

  /** A build fails only with the invalid-types exception, and every merged
      entry has a non-empty type list and one of the kinds that was merged. */
  lemma {:induction false} MergedShape(kinds: seq<(Access, DocValue)>)
    ensures Merged(kinds).failure.Some? ==> Merged(kinds).failure.value.InvalidTypes?
    ensures var registry := Merged(kinds).registry;
      forall n :: n in registry ==>
        registry[n].types != [] && exists k :: 0 <= k < |kinds| && kinds[k].0 == registry[n].access
    decreases |kinds|
  {
    if kinds != [] {
      var n := |kinds| - 1;
      MergedShape(kinds[..n]);
      PropertyInfoShape(kinds[n].0, Lines(kinds[n].1));
    }
    var registry := Merged(kinds).registry;
    forall name | name in registry
      ensures registry[name].types != [] && exists k :: 0 <= k < |kinds| && kinds[k].0 == registry[name].access
    {
      MergedEntryShape(kinds, name);
    }
  }

  /** One more kind whose lines all parse adds its entries over the registry
      built so far, when nothing has failed yet. */
  lemma MergedSnoc(kinds: seq<(Access, DocValue)>, next: (Access, DocValue), info: Registry)
    requires Merged(kinds).failure.None?
    requires PropertyInfo(next.0, Lines(next.1)) == Ok(info)
    ensures Merged(kinds + [next]) == Build(Merged(kinds).registry + info, None)
  {
    assert (kinds + [next])[..|kinds|] == kinds;
  }

  /** Extending a prefix that has not failed by the next kind: its entries
      are merged in, or its error is recorded over the registry so far. */
  lemma MergedPrefixStep(kinds: seq<(Access, DocValue)>, i: nat)
    requires i < |kinds| && Merged(kinds[..i]).failure.None?
    ensures var info := PropertyInfo(kinds[i].0, Lines(kinds[i].1));
      Merged(kinds[..i + 1]) ==
        if info.Ok? then Build(Merged(kinds[..i]).registry + info.value, None)
        else Build(Merged(kinds[..i]).registry, Some(info.error))
  {
    assert kinds[..i + 1][..i] == kinds[..i];
  }

  /** Once a prefix of the kinds has failed, the rest of the kinds change nothing. */
  lemma {:induction false} MergedFailurePersists(kinds: seq<(Access, DocValue)>, k: nat)
    requires k <= |kinds| && Merged(kinds[..k]).failure.Some?
    ensures Merged(kinds) == Merged(kinds[..k])
    decreases |kinds| - k
  {
    if k < |kinds| {
      assert kinds[..k + 1][..k] == kinds[..k];
      MergedFailurePersists(kinds, k + 1);
    } else {
      assert kinds[..k] == kinds;
    }
  }

  // ---------------------------------------------------------------------------
  // An independent reading of the registry: the all-kinds list of declarations.

  /** One kept doc line: the name it declares, its kind and the line itself. */
  datatype Declaration = Declaration(name: string, access: Access, line: string)

  /** Every kept line with the kind it was declared under, in reader order. */
  function Declarations(kinds: seq<(Access, DocValue)>): seq<Declaration>
    decreases |kinds|
  {
    if kinds == [] then []
    else
      var (access, docs) := kinds[|kinds| - 1];
      Declarations(kinds[..|kinds| - 1]) + Tagged(access, Lines(docs))
  }

  /** One kind's lines as declarations, in order. */
  function Tagged(access: Access, lines: seq<string>): (r: seq<Declaration>)
    ensures |r| == |lines|
    decreases |lines|
  {
    if lines == [] then []
    else
      var n := |lines| - 1;
      Tagged(access, lines[..n]) + [Declaration(LineName(lines[n]), access, lines[n])]
  }

  /** The last declaration of a name, if any. */
  function LastDeclared(decls: seq<Declaration>, name: string): (r: Option<Declaration>)
    ensures r.None? <==> forall k :: 0 <= k < |decls| ==> decls[k].name != name
    ensures r.Some? ==> r.value in decls && r.value.name == name
  {
    if decls == [] then None
    else if decls[|decls| - 1].name == name then Some(decls[|decls| - 1])
    else LastDeclared(decls[..|decls| - 1], name)
  }

  /** The last declaration has no later one of the same name. */
  lemma {:induction false} LastDeclaredIsLast(decls: seq<Declaration>, name: string)
    requires LastDeclared(decls, name).Some?
    ensures exists k :: (0 <= k < |decls| && decls[k] == LastDeclared(decls, name).value &&
                         forall j :: k < j < |decls| ==> decls[j].name != name)
    decreases |decls|
  {
    var n := |decls| - 1;
    if decls[n].name != name {
      var prefix := decls[..n];
      assert LastDeclared(decls, name) == LastDeclared(prefix, name);
      LastDeclaredIsLast(prefix, name);
      var k :| 0 <= k < n && prefix[k] == LastDeclared(prefix, name).value &&
        forall j :: k < j < n ==> prefix[j].name != name;
      assert decls[k] == LastDeclared(decls, name).value by {
        assert decls[k] == prefix[k];
      }
      forall j | k < j < |decls| ensures decls[j].name != name {
        if j < n { assert decls[j] == prefix[j]; }
      }
    } else {
      assert decls[n] == LastDeclared(decls, name).value;
    }
  }

  lemma {:induction false} LastDeclaredAppend(a: seq<Declaration>, b: seq<Declaration>, name: string)
    ensures LastDeclared(a + b, name) ==
      if LastDeclared(b, name).Some? then LastDeclared(b, name) else LastDeclared(a, name)
    decreases |b|
  {
    if b == [] {
      assert a + b == a;
    } else {
      var n := |b| - 1;
      assert (a + b)[..|a + b| - 1] == a + b[..n];
      assert (a + b)[|a + b| - 1] == b[n];
      LastDeclaredAppend(a, b[..n], name);
    }
  }

  /** One kind's entries are the last declarations of each name among its lines. */
  lemma {:induction false} PropertyInfoIsLastLine(access: Access, lines: seq<string>, name: string)
    requires PropertyInfo(access, lines).Ok?
    ensures LastDeclared(Tagged(access, lines), name).None? ==> name !in PropertyInfo(access, lines).value
    ensures LastDeclared(Tagged(access, lines), name).Some? ==>
      LastEntry(PropertyInfo(access, lines).value, name, LastDeclared(Tagged(access, lines), name).value)
    ensures LastDeclared(Tagged(access, lines), name).Some? ==>
      LastDeclared(Tagged(access, lines), name).value.access == access
    decreases |lines|
  {
    if lines != [] {
      var n := |lines| - 1;
      var line := lines[n];
      var last := Declaration(LineName(line), access, line);
      var before := PropertyInfo(access, lines[..n]);
      assert before.Ok?;
      PropertyInfoIsLastLine(access, lines[..n], name);
      var types := LineTypes(line);
      assert types.Ok?;
      var info := before.value[LineName(line) := Decl(types.value, access)];
      assert PropertyInfo(access, lines) == Ok(info);
      assert Tagged(access, lines) == Tagged(access, lines[..n]) + [last];
      LastDeclaredAppend(Tagged(access, lines[..n]), [last], name);
      if last.name == name {
        assert LastDeclared(Tagged(access, lines), name) == Some(last) by {
          assert LastDeclared([last], name) == Some(last);
        }
        assert LastEntry(info, name, last);
      } else {
        assert LastDeclared(Tagged(access, lines), name) == LastDeclared(Tagged(access, lines[..n]), name) by {
          assert LastDeclared([last], name) == None;
        }
        assert (name in info <==> name in before.value) && (name in info ==> info[name] == before.value[name]);
      }
    }
  }

  /** The registry entry for a name is the one that declaration makes. */
  predicate LastEntry(registry: Registry, name: string, d: Declaration)
  {
    name in registry && LineTypes(d.line).Ok? && registry[name] == Decl(LineTypes(d.line).value, d.access)
  }

  /** After a successful build, a name is registered exactly when some kept
      line declares it, and its entry is the LAST such line's: that line's types
      and that line's kind. A later declaration replaces an earlier one within
      a kind and across kinds; kinds are never combined. */
  lemma {:induction false} MergedIsLastDeclaration(kinds: seq<(Access, DocValue)>, name: string)
    requires Merged(kinds).failure.None?
    ensures LastDeclared(Declarations(kinds), name).None? ==> name !in Merged(kinds).registry
    ensures LastDeclared(Declarations(kinds), name).Some? ==>
      LastEntry(Merged(kinds).registry, name, LastDeclared(Declarations(kinds), name).value)
    decreases |kinds|
  {
    if kinds != [] {
      var n := |kinds| - 1;
      var (access, docs) := kinds[n];
      var before := Merged(kinds[..n]);
      assert before.failure.None?;
      MergedIsLastDeclaration(kinds[..n], name);
      var info := PropertyInfo(access, Lines(docs));
      assert info.Ok?;
      PropertyInfoIsLastLine(access, Lines(docs), name);
      LastDeclaredAppend(Declarations(kinds[..n]), Tagged(access, Lines(docs)), name);
    }
  }

  /** A name declared under two kinds keeps the kind of the later one. */
  lemma AccessIsLastKind(first: Access, second: Access, line1: string, line2: string)
    requires LineName(line1) == LineName(line2)
    requires Merged([(first, Single(line1)), (second, Single(line2))]).failure.None?
    ensures var registry := Merged([(first, Single(line1)), (second, Single(line2))]).registry;
      LineName(line2) in registry && registry[LineName(line2)].access == second
  {
    var kinds := [(first, Single(line1)), (second, Single(line2))];
    var d1 := Declaration(LineName(line1), first, line1);
    var d2 := Declaration(LineName(line2), second, line2);
    assert Declarations(kinds) == [d1, d2] by {
      assert kinds[..1] == [(first, Single(line1))];
      assert kinds[..1][..0] == [];
      assert Tagged(first, [line1]) == [d1];
      assert Declarations(kinds[..1]) == [d1];
      assert Tagged(second, [line2]) == [d2];
    }
    assert LastDeclared([d1, d2], LineName(line2)) == Some(d2);
    MergedIsLastDeclaration(kinds, LineName(line2));
  }

  /** A failed build keeps exactly the kinds merged before the failing one:
      the registry is that of a prefix that built without error, and the error
      is the next kind's. */
  lemma {:induction false} MergedFailureKeepsPrefix(kinds: seq<(Access, DocValue)>)
    requires Merged(kinds).failure.Some?
    ensures exists k :: (0 <= k < |kinds| &&
                         Merged(kinds[..k]).failure.None? &&
                         Merged(kinds).registry == Merged(kinds[..k]).registry &&
                         PropertyInfo(kinds[k].0, Lines(kinds[k].1)) == Err(Merged(kinds).failure.value))
    decreases |kinds|
  {
    var n := |kinds| - 1;
    var before := Merged(kinds[..n]);
    if before.failure.Some? {
      MergedFailureKeepsPrefix(kinds[..n]);
      var k :| 0 <= k < n &&
        Merged(kinds[..n][..k]).failure.None? &&
        before.registry == Merged(kinds[..n][..k]).registry &&
        PropertyInfo(kinds[..n][k].0, Lines(kinds[..n][k].1)) == Err(before.failure.value);
      assert kinds[..n][..k] == kinds[..k];
      assert kinds[..n][k] == kinds[k];
    } else {
      assert Merged(kinds[..n]).failure.None?;
    }
  }

  // ---------------------------------------------------------------------------
  // The memo in definedProperties.

  /** What getParsedDocBlock returns, given the cached value before the call. */
  function ParsedDocBlockResult(cache: Option<Registry>, annotations: Annotations): (r: Outcome<Registry>)
    ensures cache.Some? ==> r == Ok(cache.value)
    ensures r.Err? ==> cache.None? && r.error.InvalidTypes?
  {
    if cache.Some? then Ok(cache.value)
    else
      var built := Merged(AllowedAnnotations(annotations));
      MergedShape(AllowedAnnotations(annotations));
      if built.failure.Some? then Err(built.failure.value) else Ok(built.registry)
  }

  /** definedProperties after getParsedDocBlock: set on the first call even when
      that call throws, since it is assigned [] before the loop. */
  function CacheAfterParse(cache: Option<Registry>, annotations: Annotations): (r: Option<Registry>)
    ensures r.Some?
    ensures cache.Some? ==> r == cache
    ensures ParsedDocBlockResult(cache, annotations).Ok? ==> r == Some(ParsedDocBlockResult(cache, annotations).value)
  {
    if cache.Some? then cache else Some(Merged(AllowedAnnotations(annotations)).registry)
  }

  /** After any first call, later calls re-parse nothing and return the cached
      registry without error, also when the first call threw (the cached
      registry is then the partial one). */
  lemma CachedAfterFirstCall(cache: Option<Registry>, annotations: Annotations)
    ensures var after := CacheAfterParse(cache, annotations);
      after.Some? &&
      CacheAfterParse(after, annotations) == after &&
      ParsedDocBlockResult(after, annotations) == Ok(after.value)
    ensures cache.Some? ==> CacheAfterParse(cache, annotations) == cache
    ensures ParsedDocBlockResult(cache, annotations).Ok? ==>
      CacheAfterParse(cache, annotations) == Some(ParsedDocBlockResult(cache, annotations).value)
  {
  }

  // ---------------------------------------------------------------------------
  // array_merge renumbers integer keys; the model keeps every name a string key.

  predicate IsDigit(c: char) { '0' <= c <= '9' }

  predicate AllDigits(t: string)
  {
    forall k :: 0 <= k < |t| ==> IsDigit(t[k])
  }

  function DecimalValue(digits: string): nat
    decreases |digits|
  {
    if digits == [] then 0
    else DecimalValue(digits[..|digits| - 1]) * 10 + ((digits[|digits| - 1] as int - '0' as int) % 10)
  }

  /** A string PHP turns into an integer array key: a canonical decimal
      (optional '-', no leading zero, not "-0") within the 64-bit range. */
  predicate IsIntegerKey(s: string)
  {
    var negative := |s| > 0 && s[0] == '-';
    var digits := if negative then s[1..] else s;
    |digits| > 0 &&
    AllDigits(digits) &&
    (if digits[0] == '0' then digits == "0" && !negative else true) &&
    (if negative then DecimalValue(digits) <= 9223372036854775808
     else DecimalValue(digits) <= 9223372036854775807)
  }

  /** A name that starts with neither a digit nor '-' stays a string key. */
  lemma StringKeyByFirstChar(s: string)
    requires |s| > 0 && !IsDigit(s[0]) && s[0] != '-'
    ensures !IsIntegerKey(s)
  {
    assert !AllDigits(s) by {
      assert !IsDigit(s[0]);
    }
  }


  /** No kept line declares a name that PHP would make an integer key. */
  predicate TextualNames(annotations: Annotations)
  {
    forall i, k ::
      (0 <= i < |annotations| && KindOf(annotations[i].0).Some? && 0 <= k < |Lines(annotations[i].1)|)
      ==> !IsIntegerKey(LineName(Lines(annotations[i].1)[k]))
  }

  // ---------------------------------------------------------------------------
  // The memo and the magic properties' backing fields live on one PHP object.

  /** The name of the field getParsedDocBlock caches the registry in. */
  const MemoField := "definedProperties"

  /** No kept line declares a magic property named like the memo field: such a
      property would read and write the memo itself. */
  predicate MemoFieldFree(annotations: Annotations)
  {
    forall i, k ::
      (0 <= i < |annotations| && KindOf(annotations[i].0).Some? && 0 <= k < |Lines(annotations[i].1)|)
      ==> LineName(Lines(annotations[i].1)[k]) != MemoField
  }
}
