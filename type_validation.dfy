/** validateTypes: does a value satisfy one of a property's declared types?
    The PHP runtime's class_exists, instanceof and is_<type> functions are
    parameters of the model. */
module TypeValidation {
  import opened Outcomes

  /** The PHP values the model distinguishes. Floats carry only their literal
      text, since nothing here computes with them. */
  datatype Value =
    | VNull
    | VBool(b: bool)
    | VInt(i: int)
    | VFloat(literal: string)
    | VString(s: string)
    | VArray(elements: seq<Value>)
    | VObject(className: string)

  /** The runtime facts validateTypes consults:
      - classExists(t): class_exists($t);
      - instanceOf(v, t): $v instanceof $t;
      - hasPredicate(t): a function named is_<t> exists;
      - isType(t, v): is_<t>($v), when it exists. */
  datatype Runtime = Runtime(
    classExists: string -> bool,
    instanceOf: (Value, string) -> bool,
    hasPredicate: string -> bool,
    isType: (string, Value) -> bool)

  /** Type t accepts v: an existing class v is an instance of, `mixed`, or a
      type whose is_<t> holds of v. */
  predicate Matches(rt: Runtime, v: Value, t: string): (r: bool)
    ensures t == "mixed" ==> r
    ensures !rt.classExists(t) && !rt.hasPredicate(t) ==> (r <==> t == "mixed")
  {
    (rt.classExists(t) && rt.instanceOf(v, t)) || t == "mixed" || (rt.hasPredicate(t) && rt.isType(t, v))
  }

  /** Checking t against v reaches a verdict without calling a missing is_<t>. */
  predicate Checkable(rt: Runtime, v: Value, t: string): (r: bool)
    ensures r <==> Matches(rt, v, t) || rt.hasPredicate(t)
    ensures !r ==> t != "mixed" && !rt.hasPredicate(t)
  {
    (rt.classExists(t) && rt.instanceOf(v, t)) || t == "mixed" || rt.hasPredicate(t)
  }

  /** The loop of validateTypes as a function: the types are tried in order and
      the first one that accepts ends the search; a type that reaches the
      is_<t> branch without such a function raises the call's error. */
  function ValidTypes(rt: Runtime, v: Value, types: seq<string>): (r: Outcome<bool>)
    ensures types == [] ==> r == Ok(false)
    ensures r == Ok(true) ==> exists k :: 0 <= k < |types| && Matches(rt, v, types[k])
    ensures r == Ok(false) ==> forall k {:trigger Matches(rt, v, types[k])} :: 0 <= k < |types| ==> !Matches(rt, v, types[k])
    ensures r == Ok(false) ==> forall k {:trigger Checkable(rt, v, types[k])} :: 0 <= k < |types| ==> Checkable(rt, v, types[k])
    ensures r.Err? ==> exists k :: 0 <= k < |types| && !Checkable(rt, v, types[k]) &&
                                   r.error == MissingPredicate("is_" + types[k])
  {
    if types == [] then Ok(false)
    else
      var t := types[0];
      if rt.classExists(t) && rt.instanceOf(v, t) then Ok(true)
      else if t == "mixed" then Ok(true)
      else if !rt.hasPredicate(t) then Err(MissingPredicate("is_" + t))
      else if rt.isType(t, v) then Ok(true)
      else
        assert forall k :: 1 <= k < |types| ==> types[k] == types[1..][k - 1];
        ValidTypes(rt, v, types[1..])
  }

  /** validateTypes, with its foreach and early returns. */
  method ValidateTypes(rt: Runtime, v: Value, types: seq<string>) returns (r: Outcome<bool>)
    ensures r == ValidTypes(rt, v, types)
  {
    var i := 0;
    while i < |types|
      invariant 0 <= i <= |types|
      invariant ValidTypes(rt, v, types) == ValidTypes(rt, v, types[i..])
    {
      var t := types[i];
      assert types[i..][1..] == types[i + 1..];
      if rt.classExists(t) && rt.instanceOf(v, t) {
        return Ok(true);
      } else if t == "mixed" {
        return Ok(true);
      } else if !rt.hasPredicate(t) {
        return Err(MissingPredicate("is_" + t));
      } else if rt.isType(t, v) {
        return Ok(true);
      }
      i := i + 1;
    }
    return Ok(false);
  }

  /** When every declared type can be checked, validation succeeds exactly
      when some declared type accepts the value; an empty list accepts nothing. */
  lemma {:induction false} ValidTypesIsAnyMatch(rt: Runtime, v: Value, types: seq<string>)
    requires forall k :: 0 <= k < |types| ==> Checkable(rt, v, types[k])
    ensures ValidTypes(rt, v, types) == Ok(exists k :: 0 <= k < |types| && Matches(rt, v, types[k]))
  {
    if types != [] {
      ValidTypesIsAnyMatch(rt, v, types[1..]);
      assert forall k :: 1 <= k < |types| ==> types[k] == types[1..][k - 1];
      if !Matches(rt, v, types[0]) {
        assert (exists k :: 0 <= k < |types| && Matches(rt, v, types[k])) ==
               (exists k :: 0 <= k < |types[1..]| && Matches(rt, v, types[1..][k]));
      }
    }
  }

  /** A type that accepts the value settles validation as true, provided every
      type tried before it can be checked, whatever follows it. */
  lemma {:induction false} ValidTypesFirstMatch(rt: Runtime, v: Value, types: seq<string>, k: nat)
    requires k < |types| && Matches(rt, v, types[k])
    requires forall j :: 0 <= j < k ==> Checkable(rt, v, types[j])
    ensures ValidTypes(rt, v, types) == Ok(true)
  {
    if k > 0 && !Matches(rt, v, types[0]) {
      assert types[1..][k - 1] == types[k];
      assert forall j :: 0 <= j < k - 1 ==> types[1..][j] == types[j + 1];
      ValidTypesFirstMatch(rt, v, types[1..], k - 1);
    }
  }

  /** With nothing accepting before it, the first uncheckable type raises the
      error of the call to its missing is_<t>. */
  lemma {:induction false} ValidTypesMissingPredicate(rt: Runtime, v: Value, types: seq<string>, k: nat)
    requires k < |types| && !Checkable(rt, v, types[k])
    requires forall j :: 0 <= j < k ==> Checkable(rt, v, types[j]) && !Matches(rt, v, types[j])
    ensures ValidTypes(rt, v, types) == Err(MissingPredicate("is_" + types[k]))
  {
    if k > 0 {
      assert types[1..][k - 1] == types[k];
      assert forall j :: 0 <= j < k - 1 ==> types[1..][j] == types[j + 1];
      ValidTypesMissingPredicate(rt, v, types[1..], k - 1);
    }
  }

  /** When every type can be checked, the order of the declared types does not
      change the verdict. */
  lemma ValidTypesOrderIrrelevant(rt: Runtime, v: Value, types: seq<string>, reordered: seq<string>)
    requires multiset(types) == multiset(reordered)
    requires forall k :: 0 <= k < |types| ==> Checkable(rt, v, types[k])
    ensures ValidTypes(rt, v, types) == ValidTypes(rt, v, reordered)
  {
    forall k | 0 <= k < |reordered| ensures Checkable(rt, v, reordered[k]) {
      assert reordered[k] in multiset(types);
    }
    ValidTypesIsAnyMatch(rt, v, types);
    ValidTypesIsAnyMatch(rt, v, reordered);
    if exists k :: 0 <= k < |types| && Matches(rt, v, types[k]) {
      var k :| 0 <= k < |types| && Matches(rt, v, types[k]);
      assert types[k] in multiset(reordered);
      var j :| 0 <= j < |reordered| && reordered[j] == types[k];
    }
    if exists k :: 0 <= k < |reordered| && Matches(rt, v, reordered[k]) {
      var k :| 0 <= k < |reordered| && Matches(rt, v, reordered[k]);
      assert reordered[k] in multiset(types);
      var j :| 0 <= j < |types| && types[j] == reordered[k];
    }
  }

  // ---------------------------------------------------------------------------
  // The standard PHP runtime for the value kinds above, with stdClass as the
  // only class.

  /** The type names whose is_<t> function PHP defines and the model evaluates. */
  predicate IsPredicateName(t: string)
  {
    t == "null" || t == "bool" || t == "int" || t == "float" || t == "string" ||
    t == "array" || t == "object" || t == "callable"
  }

  /** is_<t>(v) for those names; a string is callable when it names one of the
      is_ functions. */
  function StandardPredicate(t: string, v: Value): bool
  {
    if t == "null" then v.VNull?
    else if t == "bool" then v.VBool?
    else if t == "int" then v.VInt?
    else if t == "float" then v.VFloat?
    else if t == "string" then v.VString?
    else if t == "array" then v.VArray?
    else if t == "object" then v.VObject?
    else if t == "callable" then v.VString? && |v.s| > 3 && v.s[..3] == "is_" && IsPredicateName(v.s[3..])
    else false
  }

  /** class_exists accepts a class name with or without its leading backslash. */
  function BareClassName(t: string): string
  {
    if |t| > 0 && t[0] == '\\' then t[1..] else t
  }

  function StandardRuntime(): Runtime
  {
    Runtime(
      (t: string) => BareClassName(t) == "stdClass",
      (v: Value, t: string) => v.VObject? && v.className == BareClassName(t),
      (t: string) => IsPredicateName(t),
      (t: string, v: Value) => StandardPredicate(t, v))
  }
}
