# php-magic, modelled in Dafny

php-magic is a pair of PHP traits. A class that uses `HasMagicProperties`
declares "magic" properties in its doc comment, as `@property`,
`@property-read` and `@property-write` lines of the form
`<types> $<name>`. The trait then gives the class four guarded accessors:

- `magicGet` and `magicIsset` need `property` or `property-read` access;
- `magicSet` and `magicUnset` need `property` or `property-write` access;
- `magicSet` also checks the value against the declared types before it writes.

The declarations are parsed once into a registry that maps each name to its
types and access kind. The registry is memoized in the field
`definedProperties`. `HasInheritedMagicProperties` adds `getClassesToParse`,
which lists the class, its ancestors and its interfaces.

## Modules

- `Outcomes`: `Option`, and `Outcome`, a value or one of the errors the PHP code throws.
  - `UndefinedProperty` is the `\Error` of `throwUndefinedPropertyException`.
  - `TypeMismatch` is the `\TypeError` of `magicSet`.
  - `InvalidTypes` is the `RuntimeException` of `getPropertyTypes`.
  - `MissingPredicate` is the error PHP raises when `call_user_func` is given an `is_<type>` function that does not exist.
- `PhpStrings`: the PHP string functions the core relies on.
  - `stripos` for a single character.
  - `explode` and `implode`.
  - `substr($s, 1)`.
  - `preg_split('/\s+/', …)`.
- `DocParsing`: `getPropertyTypes`, and the split of one doc line into its name and its type expression.
- `PropertyRegistry`: the pieces of the registry build.
  - Annotation filtering and the wrapping of a single value into a list.
  - `getPropertyInfo`, both as a function and as a loop.
  - The `array_merge` loop of `getParsedDocBlock`, with its memoization.
  - An independent reading of the registry: the list of all declarations, where the last declaration of a name is its entry.
- `TypeValidation`: `validateTypes`, both as a function and as its `foreach` loop.
  - The PHP runtime's `class_exists`, `instanceof` and `is_<type>` are a `Runtime` parameter.
  - `StandardRuntime` is one such runtime, with the `is_` functions of PHP's basic types and `stdClass`.
- `MagicProperties`: the class `MagicObject`.
  - Its state is the memo `definedProperties` and the object's backing fields (`storage`).
  - Its methods are `ParsedDocBlock`, `MagicGet`, `MagicIsset`, `MagicSet` and `MagicUnset`.
  - Each method has a pure counterpart: `GetFrom`, `IssetFrom`, `SetInto` or `UnsetIn`.
- `InheritedProperties`: `getClassesToParse` over a finite class description.
- `Fixtures` and `ManyPropertiesFixture`: the repository's two test fixtures given as reader output (`TestFixtureMalformedProperty` and `TestFixtureManyProperties`), with what the core accessors return when called directly on the inputs of the test suite's scenarios.

## Behaviour of the source that the model keeps

- **The access kind is the last kind that declared a name.**
  - `getPropertyInfo` assigns `$ret[$name]` for every line (src/HasMagicProperties.php:120-123), so a later line of one kind overwrites an earlier one.
  - `getParsedDocBlock` merges the kinds with `array_merge` in the reader's order (src/HasMagicProperties.php:104-107), and later string keys win.
  - A name declared as both `property-read` and `property-write` therefore keeps only the later kind, and is not both readable and writable.
- **A partial registry stays cached.**
  - `definedProperties` is assigned `[]` before the loop (src/HasMagicProperties.php:99), and each kind's entries are merged into it in turn.
  - A `RuntimeException` from a later kind leaves the registry merged so far in the field. Since `isset` holds for it (line 88), every later access uses that registry and does not parse again.
  - For the malformed fixture, the first `magicGet('name')` throws the `RuntimeException` (tests/HasMagicPropertiesTest.php:409-414 expects exactly that), and a second call would throw the undefined-property `\Error`.
- **No cross-scope merge.**
  - `getParsedDocBlock` reads only the parser that `getParserObject` returns, a reader on `get_class()` (src/HasMagicProperties.php:90 and 148-151). Nothing in either trait calls `getClassesToParse` (src/HasInheritedMagicProperties.php:21-33).
  - The declarations of a parent class are therefore not merged into a subclass's registry, although tests/HasInheritedMagicPropertiesTest.php:31-51 writes the parent's properties through the subclass.
- **No per-property hooks.**
  - tests/HasMagicPropertiesTest.php:34-43 and 82-89 expect the accessors to call methods such as `__getProperty` and `__setWrite` of tests/TestFixtureUsingMethods.php.
  - No accessor of src/HasMagicProperties.php:24-66 calls such a method, so the model has none.
- **An uncheckable type is an error.**
  - `validateTypes` tries, for each declared type, `class_exists` with `instanceof`, then `mixed`, then `call_user_func("is_$type", …)` (src/HasMagicProperties.php:76-80).
  - For a type that is not an existing class the value is an instance of, not `mixed`, and has no `is_<type>` function, that call names a function that does not exist. The model gives `MissingPredicate`; it does not reject the value.
  - So writing `null` to the fixture's `\stdClass|null` property gives that error: `\stdClass` is tried first and, since `null` is no instance of it, reaches the `is_` branch.
- **Only the first `?` is checked.**
  - `getPropertyTypes` tests only where `stripos` finds the first `?` (src/HasMagicProperties.php:131 and 135). After a leading `?`, the rest goes into the `|` split unchecked (lines 134 and 138).

## Model

| member | source | states |
|---|---|---|
| PhpStrings.FirstIndex | src/HasMagicProperties.php:131-135 | the position of the first occurrence of the character — no earlier position holds it — or None when it does not occur |
| PhpStrings.Explode | src/HasMagicProperties.php:138 | at least one piece, and no piece contains the separator |
| PhpStrings.ImplodeExplode | src/HasMagicProperties.php:138 | joining the pieces of explode with the separator gives the string back |
| PhpStrings.Implode | src/HasMagicProperties.php:40 | two or more pieces put the separator into the result; every piece is no longer than the result; every character of the result is the separator or comes from a piece |
| PhpStrings.DropFirst | src/HasMagicProperties.php:118 | substr from offset 1: the first character followed by the result is the input, and the result of the empty string is empty |
| PhpStrings.ExplodeImplode | src/HasMagicProperties.php:40 | splitting the joined form of pieces that contain no separator gives the pieces back |
| PhpStrings.ExplodeWithoutSeparator | src/HasMagicProperties.php:138 | a string without the separator is a single piece |
| PhpStrings.ExplodeCons | src/HasMagicProperties.php:138 | a separator-free prefix followed by the separator is the first piece, and the rest is split on its own |
| PhpStrings.SplitOnWhitespace | src/HasMagicProperties.php:117 | preg_split on `\s+` gives at least one token; no token holds whitespace; only the first and last may be empty; the first is non-empty when the line does not start with whitespace |
| PhpStrings.SplitFirstToken | src/HasMagicProperties.php:117-119 | a whitespace-free prefix followed by whitespace (or nothing) is token 0, and the remaining tokens are those of the rest |
| PhpStrings.SplitAfterSpaces | src/HasMagicProperties.php:117 | leading whitespace before a non-space gives an empty token 0 followed by the tokens of the rest |
| PhpStrings.DropSpacesThrough | src/HasMagicProperties.php:117 | a whitespace run is skipped as a whole up to the next non-space |
| DocParsing.InvalidTypesErrorNamesType | src/HasMagicProperties.php:136 | InvalidTypesError is the RuntimeException kind, its message is "Invalid property types: " followed by the whole type expression, and distinct expressions give distinct errors |
| DocParsing.PropertyTypes | src/HasMagicProperties.php:128-140 | fails exactly when the string contains a `?` and does not start with one; the failure is the RuntimeException naming the type string; a success is a non-empty type list |
| DocParsing.PropertyTypesPlain | src/HasMagicProperties.php:131-138 | without a `?` the types are bar-free pieces that join back to the input, in order |
| DocParsing.PropertyTypesNullable | src/HasMagicProperties.php:131-134 | a leading `?` gives "null" followed by the split of the remainder, whatever the remainder holds |
| DocParsing.NullableShorthand | src/HasMagicProperties.php:131-138 | `?T` declares the same list as the explicit union of null and T |
| DocParsing.TypesRoundTrip | src/HasMagicProperties.php:40 | the bar-joined list in the TypeError message splits back into the declared type list |
| DocParsing.WellFormedLine | src/HasMagicProperties.php:117-119 | a line `<types><ws>$<name>`, optionally followed by whitespace and more text, declares name with the types of `<types>` |
| DocParsing.LineShape | src/HasMagicProperties.php:117-119 | for any line, LineName (token 1 without its first character) holds no whitespace, a successful LineTypes is non-empty, and LineTypes fails only with the RuntimeException naming token 0 |
| DocParsing.DocLineDeclares | src/HasMagicProperties.php:117-119 | the bare documented line form declares its name with its type expression's outcome |
| PropertyRegistry.KindOf | src/HasMagicProperties.php:91-98 | exactly the three tags property, property-read and property-write are kept; each maps to its own kind, in both directions: the result is Property exactly for property, PropertyRead exactly for property-read, PropertyWrite exactly for property-write |
| PropertyRegistry.Lines | src/HasMagicProperties.php:101-103 | a single value becomes a one-element list; a list is kept as is |
| PropertyRegistry.AllowedAnnotations | src/HasMagicProperties.php:96-98 | every kept entry comes from an allowed tag with its value, and every allowed tag's entry is kept |
| PropertyRegistry.AllowedAnnotationsSingle | src/HasMagicProperties.php:96-98 | one tag is kept, as its kind and with its value, exactly when it is allowed, and dropped otherwise |
| PropertyRegistry.AllowedAnnotationsAppend | src/HasMagicProperties.php:96-98 | the filter keeps the reader's order: filtering a concatenation gives the filtered parts concatenated; with the single-tag case this fixes the kept list entry by entry, and so which kind array_merge sees last |
| PropertyRegistry.PropertyInfoShape | src/HasMagicProperties.php:113-126 | getPropertyInfo fails only with the invalid-types RuntimeException; on success it has at most one entry per line, and every entry carries the kind it was called with and a non-empty type list |
| PropertyRegistry.ComputePropertyInfo | src/HasMagicProperties.php:113-126 | the loop of getPropertyInfo computes PropertyInfo of its lines |
| PropertyRegistry.PropertyInfoErrorPersists | src/HasMagicProperties.php:116-119 | once a line's types are rejected, no later line changes the outcome |
| PropertyRegistry.PropertyInfoIsLastLine | src/HasMagicProperties.php:116-124 | a name is in one kind's registry exactly when a line declares it, with the LAST such line's types and that kind |
| PropertyRegistry.MergedEntryShape | src/HasMagicProperties.php:100-108 | each registered name has a non-empty type list and the kind of one of the merged kinds |
| PropertyRegistry.MergedShape | src/HasMagicProperties.php:100-108 | the build fails only with the invalid-types RuntimeException, and every merged entry has a non-empty type list and the kind of one of the merged kinds |
| PropertyRegistry.MergedSnoc | src/HasMagicProperties.php:104-107 | a further kind that parses is array_merge'd over the registry built so far |
| PropertyRegistry.MergedPrefixStep | src/HasMagicProperties.php:100-108 | one loop step: the next kind's entries are merged in, or its error is recorded over the registry so far |
| PropertyRegistry.MergedFailurePersists | src/HasMagicProperties.php:100-108 | after a failing kind, the remaining kinds change neither the registry nor the error |
| PropertyRegistry.LastDeclared | src/HasMagicProperties.php:104-107 | the reference reading: a declaration of the name from the list, or None exactly when no declaration names it |
| PropertyRegistry.LastDeclaredIsLast | src/HasMagicProperties.php:120 | no later declaration has the same name as the one LastDeclared picks |
| PropertyRegistry.LastDeclaredAppend | src/HasMagicProperties.php:104-107 | over a concatenation, a declaration in the later part wins over the earlier part |
| PropertyRegistry.MergedIsLastDeclaration | src/HasMagicProperties.php:100-108 | after a successful build a name is registered exactly when some kept line declares it, with the types and kind of the last such line across all kinds |
| PropertyRegistry.AccessIsLastKind | src/HasMagicProperties.php:104-107 | a name declared under two kinds keeps the later kind only |
| PropertyRegistry.MergedFailureKeepsPrefix | src/HasMagicProperties.php:99-108 | a failed build holds the registry of the kinds before the failing one, which built cleanly, and the failing kind's error |
| PropertyRegistry.ParsedDocBlockResult | src/HasMagicProperties.php:89-110 | with a cached registry the call returns it without error; an error is always the invalid-types RuntimeException of a first call |
| PropertyRegistry.CacheAfterParse | src/HasMagicProperties.php:89-110 | after a call the memo is always set; an existing memo is kept; after a successful call it holds the returned registry |
| PropertyRegistry.CachedAfterFirstCall | src/HasMagicProperties.php:89-110 | after any first call the cache is set; later calls return it unchanged and without error, even when the first call threw |
| PropertyRegistry.StringKeyByFirstChar | src/HasMagicProperties.php:120 | a name that starts with neither a digit nor '-' is a string array key |
| TypeValidation.Matches | src/HasMagicProperties.php:76-80 | `mixed` accepts every value, and a type that is neither an existing class nor has an is_<type> function accepts only when it is `mixed` |
| TypeValidation.Checkable | src/HasMagicProperties.php:76-80 | a type reaches a verdict exactly when it accepts the value or its is_<type> function exists; an uncheckable type is not `mixed` and lacks that function |
| TypeValidation.ValidTypes | src/HasMagicProperties.php:73-85 | an empty list gives false; true means some declared type accepts the value; false means every declared type was checkable and none accepts it; an error is the missing is_<type> of an uncheckable declared type |
| TypeValidation.ValidateTypes | src/HasMagicProperties.php:73-85 | the foreach with early returns computes ValidTypes |
| TypeValidation.ValidTypesIsAnyMatch | src/HasMagicProperties.php:73-85 | when every type can be checked, the value validates exactly when some declared type accepts it; an empty list accepts nothing |
| TypeValidation.ValidTypesFirstMatch | src/HasMagicProperties.php:75-82 | an accepting type settles validation as true, given that each type before it can be checked |
| TypeValidation.ValidTypesMissingPredicate | src/HasMagicProperties.php:80 | the first uncheckable type, with nothing accepting before it, raises the error for its missing is_<type> |
| TypeValidation.ValidTypesOrderIrrelevant | src/HasMagicProperties.php:73-85 | with every type checkable, reordering the type list does not change the verdict |
| MagicProperties.Readable | src/HasMagicProperties.php:26-27 | a readable name is registered, and a registered name is readable exactly when its kind is not property-write (the guard of magicGet, and of magicIsset at lines 50-51) |
| MagicProperties.Writable | src/HasMagicProperties.php:36-37 | a writable name is registered, and a registered name is writable exactly when its kind is not property-read (the guard of magicSet, and of magicUnset at lines 60-61) |
| MagicProperties.Read | src/HasMagicProperties.php:28 | the read of the backing field is null exactly when the field was never assigned or holds null, and otherwise is the field's value (also line 52) |
| MagicProperties.UndefinedError | src/HasMagicProperties.php:68-71 | an undefined-property Error whose message starts with "Undefined property: " and ends with the property name |
| MagicProperties.TypeMismatchError | src/HasMagicProperties.php:40 | a TypeError whose message starts with magicSet's method name and ends with the declared types joined by bars |
| MagicProperties.GetFrom | src/HasMagicProperties.php:24-32 | succeeds exactly under property or property-read access, with the backing field's value or null when it was never assigned; otherwise the undefined-property error |
| MagicProperties.IssetFrom | src/HasMagicProperties.php:48-56 | succeeds exactly under read access; true exactly when the name is readable and its backing field holds a non-null value; otherwise the undefined-property error |
| MagicProperties.SetInto | src/HasMagicProperties.php:34-46 | a name without write access gives the undefined-property error; success exactly when writable and validation gives true; a successful write adds the name with the value and keeps every other field; an error from validation is passed through unchanged |
| MagicProperties.UnsetIn | src/HasMagicProperties.php:58-66 | succeeds exactly under property or property-write access; the field then holds null and every other field is kept; otherwise the undefined-property error |
| MagicProperties.UndefinedErrorNamesProperty | src/HasMagicProperties.php:68-71 | the undefined-property message determines the property name |
| MagicProperties.ReadNeedsReadAccess | src/HasMagicProperties.php:24-32 | get and isset succeed exactly under property or property-read access; otherwise, write-only names included, they give the undefined-property error |
| MagicProperties.RefusedReadIgnoresStorage | src/HasMagicProperties.php:48-56 | a refused read or isset does not depend on what the backing field holds |
| MagicProperties.WriteNeedsWriteAccess | src/HasMagicProperties.php:34-37 | set and unset succeed only under property or property-write access; otherwise they give the undefined-property error |
| MagicProperties.SetNeedsValidType | src/HasMagicProperties.php:39-41 | a permitted write succeeds exactly when validation gives true; a false verdict gives the TypeError listing the types; a validation error, such as a missing is_<type>, is the write's error |
| MagicProperties.SetWritesOnlyName | src/HasMagicProperties.php:42 | a successful write stores the value under the name and leaves every other field as it was |
| MagicProperties.SetThenGet | src/HasMagicProperties.php:42 | under property access, get returns the written value and isset its non-nullness |
| MagicProperties.UnsetNullsEntry | src/HasMagicProperties.php:62 | unset keeps the entry holding null and changes no other field; under property access get then gives null and isset false |
| MagicProperties.MagicObject.ParsedDocBlock | src/HasMagicProperties.php:87-111 | the memoized build: its result and the new cache are those of the parse functions, including the partial cache after a failure |
| MagicProperties.MagicObject.MagicGet | src/HasMagicProperties.php:24-32 | parses (or uses the cache), then reads under the access guard |
| MagicProperties.MagicObject.MagicIsset | src/HasMagicProperties.php:48-56 | parses (or uses the cache), then tests for non-null under the access guard |
| MagicProperties.MagicObject.MagicSet | src/HasMagicProperties.php:34-46 | parses, then writes under the access guard and type check; on every error the storage is unchanged |
| MagicProperties.MagicObject.MagicUnset | src/HasMagicProperties.php:58-66 | parses, then assigns null under the access guard; on every error the storage is unchanged |
| InheritedProperties.Ancestors | src/HasInheritedMagicProperties.php:25-27 | the parent chain is empty exactly when the class has no parent |
| InheritedProperties.AncestorsIsParentChain | src/HasInheritedMagicProperties.php:25-27 | the ancestor segment starts at the parent, each element is the parent of the one before, and it ends at a class without parent |
| InheritedProperties.ClassesToParse | src/HasInheritedMagicProperties.php:21-33 | the class at index 0, then the ancestors' names in chain order, then the interfaces in class_implements order; length 1 + ancestors + interfaces; no object state read or written |
| Fixtures.MisplacedMarkerLine | src/HasMagicProperties.php:135-136 | a line whose type is `t?` is rejected with the RuntimeException naming `t?` |
| Fixtures.MalformedLineRejected | tests/TestFixtureMalformedProperty.php:14 | `float? $name` declares name and is rejected as "Invalid property types: float?" |
| Fixtures.MalformedParse | src/HasMagicProperties.php:99-108 | the malformed fixture's first parse throws, leaving the empty registry cached |
| Fixtures.MalformedFixtureTwice | src/HasMagicProperties.php:99-110 | the first magicGet('name') throws the RuntimeException (the one call the test makes); a second call finds the empty registry that the failed parse left in definedProperties and throws the undefined-property error |
| ManyPropertiesFixture.PropertyInfoOfTwo | src/HasMagicProperties.php:116-124 | two parsing lines of one kind give both names, the second line winning a shared name |
| ManyPropertiesFixture.NullableType | src/HasMagicProperties.php:131-138 | `?t` declares null and t |
| ManyPropertiesFixture.UnionType | src/HasMagicProperties.php:138 | a union `a`, bar, `b` declares a then b |
| ManyPropertiesFixture.FixtureLinesDeclare | tests/TestFixtureManyProperties.php:16-21 | the fixture's lines declare its six properties with their types and kinds, under string keys, for any whitespace runs |
| ManyPropertiesFixture.AllowedThreeOfFour | src/HasMagicProperties.php:96-98 | of four tags whose first three are allowed, the filter keeps those three in order |
| ManyPropertiesFixture.ManyKinds | src/HasMagicProperties.php:96-98 | the author tag is dropped and the three property tags are kept in order |
| ManyPropertiesFixture.MergedThree | src/HasMagicProperties.php:100-108 | three kinds that all parse merge into the union of their entries, later kinds winning |
| ManyPropertiesFixture.ManyMerged | src/HasMagicProperties.php:100-108 | merging the three kinds gives the six-entry registry without error |
| ManyPropertiesFixture.ManyParse | src/HasMagicProperties.php:87-111 | the first parse returns and caches the six-entry registry |
| ManyPropertiesFixture.ManyLookups | tests/TestFixtureManyProperties.php:16-21 | the six-entry registry has each fixture name with its type list and kind, and no notMagicProperty |
| ManyPropertiesFixture.ManyFirstParse | src/HasMagicProperties.php:87-111 | the fixture's first parse succeeds with a registry that has those lookups |
| ManyPropertiesFixture.ManyAccess | tests/TestFixtureManyProperties.php:16-21 | which fixture names are readable and which writable; notMagicProperty is neither |
| ManyPropertiesFixture.NullOrStringVerdicts | tests/HasMagicPropertiesTest.php:245-273 | the null-or-string list accepts a string and null, and rejects 23 and a stdClass object |
| ManyPropertiesFixture.FloatOrStringVerdicts | tests/HasMagicPropertiesTest.php:274-275 | the float-or-string list rejects 5 and false |
| ManyPropertiesFixture.MixedVerdict | tests/HasMagicPropertiesTest.php:250 | mixed accepts 4.3 |
| ManyPropertiesFixture.StdClassOrNullVerdicts | src/HasMagicProperties.php:76-80 | the list of \stdClass and null accepts a stdClass object; for null it raises the missing is_\stdClass error |
| ManyPropertiesFixture.NullableTakesString | tests/HasMagicPropertiesTest.php:232-245 | writing "string value" to the ?string property succeeds and reads back |
| ManyPropertiesFixture.NullableTakesNull | tests/HasMagicPropertiesTest.php:246 | writing null succeeds, reads back as null, and isset is false |
| ManyPropertiesFixture.TypeErrors | tests/HasMagicPropertiesTest.php:258-276 | 5 and false into the float-or-string property, and 23 and a stdClass object into ?string, give the TypeError listing the types; the stored value stays |
| ManyPropertiesFixture.WriteOnly | tests/HasMagicPropertiesTest.php:127-200 | get and isset of the write-only stdClass-or-null property give the undefined-property error, as the refusal tests expect; the write-only mixed property takes 4.3 (the write case at line 250) but get and isset of it give the same error |
| ManyPropertiesFixture.Unregistered | tests/HasMagicPropertiesTest.php:130-135 | notMagicProperty cannot be read or tested although its backing field holds a value |
| ManyPropertiesFixture.ReadOnly | tests/HasMagicPropertiesTest.php:398-403 | the read-only int property reads 23, and set and unset give the undefined-property error leaving 23 |
| ManyPropertiesFixture.UnsetAssignsNull | tests/HasMagicPropertiesTest.php:364-369 | unset of a write property succeeds and leaves null in the backing field |
| ManyPropertiesFixture.StdClassOrNull | tests/HasMagicPropertiesTest.php:249 | a stdClass object is written; null gives the missing is_\stdClass error |

## Left out

- `DocBlockReader\Reader` and `getParserObject` are a foreign library that reads doc comments by reflection. Their output is an input of the model (`Annotations`: tag names with a string or a list of strings).
  - Non-string values that the reader may produce for other tags are not modelled.
- `getParsedDocBlock` is modelled as one call per accessor. The PHP accessors call it more than once: `magicSet` up to four times (src/HasMagicProperties.php lines 36, 37, 39 and 40, the last only when the TypeError is thrown), the other three accessors up to twice. After the first call each further call returns the cached value without error, so the result is the same.
- `getParsedDocBlock` does not merge inherited scopes and the source has no per-property override hooks (see above). `WillHaveMagicProperties` and the build script are not part of this model.
- `ImplementsMagicMethods` is not part of this model. The test suite reaches the core through it (`$obj->$name`, `isset`, assignment, `unset` on `TestFixtureManyProperties`), but its guard (src/ImplementsMagicMethods.php:25-28) throws a `RuntimeException` exactly when the class uses `HasMagicProperties` or `HasInheritedMagicProperties`. On that route the suite would see that exception before any accessor runs. The fixture lemmas state what the core accessors return when called directly.
- The model follows PHP 8 semantics: `substr` on a one-token line (token 1 absent) gives "", `call_user_func` on a missing `is_<type>` raises an error (`MissingPredicate`), and the loose `in_array` at src/HasMagicProperties.php:97 keeps only the three tag names themselves, because under PHP 8 an integer key no longer compares equal to a non-numeric string. The model's tags are strings compared exactly. On PHP 7 the missing-function case is a warning and a falsy result, which the model does not give.
- `PhpStrings.DropFirst`: drops the first character, while PHP's `substr($s, 1)` drops the first byte. A name whose first character after `$` is multibyte in UTF-8 therefore splits differently; the model's strings are character sequences and do not model the byte encoding.
- `class_exists`, `instanceof` and the `is_<type>` functions are a `Runtime` parameter.
  - `StandardRuntime` is an illustration used by the fixtures, with `stdClass` as its only class. It is not all of PHP.
  - Floats are modelled by their literal text, since nothing computes with them.
- `MagicProperties.MagicObject.constructor`: it requires `TextualNames`, so no declared name is a canonical integer string. PHP's `array_merge` would renumber such keys, and that renumbering is not modelled.
- `MagicProperties.MagicObject.constructor`: it also requires `MemoFieldFree`, so no kept line declares a property named `definedProperties`. In PHP the backing fields and the memo are fields of one object, and such a property would read and overwrite the memo itself. The model keeps `storage` and `definedProperties` apart, and that aliasing is not modelled.
- The model's registry is a `map`, so the key order of the PHP array is not modelled. Nothing in the core depends on it.
- `PhpStrings.SplitOnWhitespace` treats space, tab, newline, vertical tab, form feed and carriage return as whitespace. These are PCRE's `\s` without Unicode mode.
- The fixture lemmas take the whitespace between type and name as a parameter, `sp` or `wide`, required to be a whitespace run. The literal spaces of the fixture files are one instance of it.
- `__CLASS__` and `__METHOD__` are constants: the using class's name, and `MagicSetMethod` in `MagicProperties`.
