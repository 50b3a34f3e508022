/** getPropertyTypes and the per-line part of getPropertyInfo: a doc-comment
    line `<types> $<name>` becomes a property name and a list of type names. */
module DocParsing {
  import opened Outcomes
  import opened PhpStrings

  /** The RuntimeException message for a misplaced nullability marker. */
  function InvalidTypesError(typeString: string): Error
  {
    InvalidTypes("Invalid property types: " + typeString)
  }

  /** It is the RuntimeException kind; its message starts with
      "Invalid property types: " and names the whole
      type expression after it, so distinct type expressions give distinct
      errors. */
  lemma InvalidTypesErrorNamesType(a: string, b: string)
    ensures InvalidTypesError(a).InvalidTypes?
    ensures |InvalidTypesError(a).message| == 24 + |a|
    ensures InvalidTypesError(a).message[..24] == "Invalid property types: "
    ensures InvalidTypesError(a).message[24..] == a
    ensures InvalidTypesError(a) == InvalidTypesError(b) ==> a == b
  {
  }

  /** getPropertyTypes: a leading '?' turns into a leading "null"; a first '?'
      anywhere else is rejected; the rest is split on '|'. Only the FIRST '?'
      is inspected, so characters after a leading '?' are not checked. */
  function PropertyTypes(typeString: string): (r: Outcome<seq<string>>)
    ensures r.Err? <==> '?' in typeString && typeString[0] != '?'
    ensures r.Err? ==> r.error == InvalidTypesError(typeString)
    ensures r.Ok? ==> |r.value| >= 1
  {
    match FirstIndex(typeString, '?')
    case None => Ok(Explode('|', typeString))
    case Some(k) =>
      if k == 0 then Ok(["null"] + Explode('|', typeString[1..]))
      else Err(InvalidTypesError(typeString))
  }

  /** Without a '?' the type names are the '|'-separated pieces in order:
      none of them holds a '|' and joining them with '|' gives the input back. */
  lemma PropertyTypesPlain(typeString: string)
    requires '?' !in typeString
    ensures PropertyTypes(typeString).Ok?
    ensures var ts := PropertyTypes(typeString).value;
      Implode('|', ts) == typeString &&
      forall k :: 0 <= k < |ts| ==> '|' !in ts[k]
  {
    ImplodeExplode('|', typeString);
  }

  /** A leading '?' gives "null" followed by the pieces of the remainder,
      whatever the remainder holds, further '?' characters included. */
  lemma PropertyTypesNullable(rest: string)
    ensures PropertyTypes("?" + rest) == Ok(["null"] + Explode('|', rest))
  {
    assert ("?" + rest)[1..] == rest;
  }

  /** `?T` declares the same type list as the explicit union `null|T`. */
  lemma NullableShorthand(t: string)
    requires '?' !in t
    ensures PropertyTypes("?" + t) == PropertyTypes("null|" + t)
  {
    PropertyTypesNullable(t);
    var u := "null|" + t;
    assert u == "null" + ['|'] + t;
    ExplodeCons('|', "null", t);
    assert '?' !in u by {
      forall k | 0 <= k < |u| ensures u[k] != '?' {
        if k >= 5 { assert u[k] == t[k - 5]; }
      }
    }
  }

  /** The type list can be read back from the '|'-joined form that magicSet
      puts into its TypeError message. */
  lemma TypesRoundTrip(typeString: string)
    requires PropertyTypes(typeString).Ok?
    ensures var ts := PropertyTypes(typeString).value;
      Explode('|', Implode('|', ts)) == ts
  {
    var ts := PropertyTypes(typeString).value;
    forall k | 0 <= k < |ts| ensures '|' !in ts[k] {
      if typeString != [] && typeString[0] == '?' && k > 0 {
        assert ts[k] == Explode('|', typeString[1..])[k - 1];
      }
    }
    ExplodeImplode('|', ts);
  }

  /** The name of a doc line: the second whitespace token without its first
      character. A line with a single token has no index 1, which PHP 8 reads
      as null, and substr(null, 1) is the empty string. */
  function LineName(docstring: string): string
  {
    var tokens := SplitOnWhitespace(docstring);
    DropFirst(if |tokens| > 1 then tokens[1] else "")
  }

  /** The type expression of a doc line: its first whitespace token. */
  function LineTypes(docstring: string): Outcome<seq<string>>
  {
    PropertyTypes(SplitOnWhitespace(docstring)[0])
  }

  /** Whatever the line, the name it declares holds no whitespace, its type
      list is never empty, and its only failure is the invalid-types exception
      for its first token. */
  lemma LineShape(docstring: string)
    ensures NoSpace(LineName(docstring))
    ensures LineTypes(docstring).Ok? ==> |LineTypes(docstring).value| >= 1
    ensures LineTypes(docstring).Err? ==>
      LineTypes(docstring).error == InvalidTypesError(SplitOnWhitespace(docstring)[0])
  {
  }

  /** A line of the documented form `<type-expr> $<name>` (optionally followed
      by whitespace and a description) yields that name and that type
      expression's types. */
  lemma {:induction false} WellFormedLine(typeExpr: string, name: string, ws: string, rest: string)
    requires NoSpace(typeExpr) && NoSpace(name)
    requires Whitespace(ws)
    requires rest == [] || IsSpace(rest[0])
    ensures LineName(typeExpr + ws + "$" + name + rest) == name
    ensures LineTypes(typeExpr + ws + "$" + name + rest) == PropertyTypes(typeExpr)
  {
    var line := typeExpr + ws + "$" + name + rest;
    var tail := "$" + name;
    assert NoSpace(tail) by {
      forall k | 0 <= k < |tail| ensures !IsSpace(tail[k]) {
        if k > 0 { assert tail[k] == name[k - 1]; }
      }
    }
    assert line == typeExpr + (ws + (tail + rest));
    SplitFirstToken(typeExpr, ws + (tail + rest));
    SplitAfterSpaces(ws, tail + rest);
    SplitFirstToken(tail, rest);
    var tokens := SplitOnWhitespace(line);
    assert tokens[0] == typeExpr;
    assert tokens[1..] == SplitOnWhitespace(ws + (tail + rest))[1..];
    assert tokens[1] == SplitOnWhitespace(tail + rest)[0] == tail;
    assert DropFirst(tail) == name;
  }

  /** The documented line form `<typeExpr><ws>$<name>`. */
  function DocLine(typeExpr: string, ws: string, name: string): string
  {
    typeExpr + ws + "$" + name
  }

  /** A line of the documented form declares its name with the types of its
      type expression, or fails with that type expression's error. */
  lemma DocLineDeclares(typeExpr: string, ws: string, name: string)
    requires NoSpace(typeExpr) && NoSpace(name) && Whitespace(ws)
    ensures LineName(DocLine(typeExpr, ws, name)) == name
    ensures LineTypes(DocLine(typeExpr, ws, name)) == PropertyTypes(typeExpr)
  {
    WellFormedLine(typeExpr, name, ws, "");
    assert typeExpr + ws + "$" + name + "" == DocLine(typeExpr, ws, name);
  }
}
