/** The PHP string builtins the trait relies on: stripos for one character,
    explode and implode, substr($s, 1), and preg_split("/\s+/", $s). */
module PhpStrings {
  import opened Outcomes

  /** stripos($s, c) for a character that has no upper/lower case, such as '?':
      the first position of c, or None where PHP returns false. */
  function FirstIndex(s: string, c: char): (r: Option<nat>)
    ensures r.None? <==> c !in s
    ensures r.Some? ==> r.value < |s| && s[r.value] == c && c !in s[..r.value]
  {
    if s == [] then None
    else if s[0] == c then Some(0)
    else
      match FirstIndex(s[1..], c)
      case None => None
      case Some(k) =>
        assert s[..k + 1] == [s[0]] + s[1..][..k];
        Some(k + 1)
  }

  /** explode(sep, s): the pieces between consecutive separators, empty pieces
      included, so that there is always at least one piece. */
  function Explode(sep: char, s: string): (parts: seq<string>)
    ensures |parts| >= 1
    ensures forall k :: 0 <= k < |parts| ==> sep !in parts[k]
  {
    if s == [] then [""]
    else
      var rest := Explode(sep, s[1..]);
      if s[0] == sep then [""] + rest
      else [[s[0]] + rest[0]] + rest[1..]
  }

  /** implode(sep, parts); implode of no pieces is the empty string. */
  function Implode(sep: char, parts: seq<string>): (r: string)
    ensures |parts| >= 2 ==> sep in r
    ensures forall k :: 0 <= k < |parts| ==> |parts[k]| <= |r|
    ensures forall c :: c in r ==> c == sep || exists k :: 0 <= k < |parts| && c in parts[k]
  {
    if parts == [] then ""
    else if |parts| == 1 then parts[0]
    else
      var rest := Implode(sep, parts[1..]);
      assert forall k :: 1 <= k < |parts| ==> parts[k] == parts[1..][k - 1];
      parts[0] + [sep] + rest
  }

  /** Joining the pieces of explode with the same separator gives back the input. */
  lemma {:induction false} ImplodeExplode(sep: char, s: string)
    ensures Implode(sep, Explode(sep, s)) == s
  {
    if s != [] {
      var rest := Explode(sep, s[1..]);
      ImplodeExplode(sep, s[1..]);
      if s[0] == sep {
        assert Explode(sep, s) == [""] + rest;
        assert Implode(sep, [""] + rest) == "" + [sep] + Implode(sep, rest);
      } else {
        var parts := [[s[0]] + rest[0]] + rest[1..];
        assert Explode(sep, s) == parts;
        if |rest| == 1 {
          assert Implode(sep, parts) == [s[0]] + rest[0];
        } else {
          assert parts[1..] == rest[1..];
          assert Implode(sep, rest) == rest[0] + [sep] + Implode(sep, rest[1..]);
          assert Implode(sep, parts) == [s[0]] + rest[0] + [sep] + Implode(sep, rest[1..]);
        }
      }
    }
  }

  /** A string without the separator explodes into itself alone. */
  lemma {:induction false} ExplodeWithoutSeparator(sep: char, s: string)
    requires sep !in s
    ensures Explode(sep, s) == [s]
  {
    if s != [] {
      ExplodeWithoutSeparator(sep, s[1..]);
      assert [s[0]] + s[1..] == s;
    }
  }

  /** A leading piece without the separator comes off as the first piece. */
  lemma {:induction false} ExplodeCons(sep: char, a: string, b: string)
    requires sep !in a
    ensures Explode(sep, a + [sep] + b) == [a] + Explode(sep, b)
  {
    if a == [] {
      assert a + [sep] + b == [sep] + b;
      assert ([sep] + b)[1..] == b;
    } else {
      var s := a + [sep] + b;
      assert s[1..] == a[1..] + [sep] + b;
      ExplodeCons(sep, a[1..], b);
      assert [a[0]] + a[1..] == a;
    }
  }

  /** explode inverts implode when no piece contains the separator. */
  lemma {:induction false} ExplodeImplode(sep: char, parts: seq<string>)
    requires |parts| >= 1
    requires forall k :: 0 <= k < |parts| ==> sep !in parts[k]
    ensures Explode(sep, Implode(sep, parts)) == parts
  {
    if |parts| == 1 {
      ExplodeWithoutSeparator(sep, parts[0]);
    } else {
      ExplodeImplode(sep, parts[1..]);
      ExplodeCons(sep, parts[0], Implode(sep, parts[1..]));
      assert [parts[0]] + parts[1..] == parts;
    }
  }

  /** substr($s, 1) in PHP 8: everything after the first character, and the
      empty string when there is no first character. */
  function DropFirst(s: string): (r: string)
    ensures |s| >= 1 ==> [s[0]] + r == s
    ensures |s| == 0 ==> r == ""
  {
    if |s| >= 1 then s[1..] else ""
  }

  /** The characters PCRE's \s matches without the u flag: tab, line feed,
      vertical tab, form feed, carriage return and space. */
  predicate IsSpace(c: char)
  {
    c == ' ' || (9 <= c as int <= 13)
  }

  predicate NoSpace(s: string)
  {
    forall k :: 0 <= k < |s| ==> !IsSpace(s[k])
  }

  /** The input with its leading whitespace removed. */
  function DropSpaces(s: string): (r: string)
    ensures |r| <= |s| && r == s[|s| - |r|..]
    ensures r == [] || !IsSpace(r[0])
    ensures forall k :: 0 <= k < |s| - |r| ==> IsSpace(s[k])
  {
    if s != [] && IsSpace(s[0]) then DropSpaces(s[1..]) else s
  }

  /** preg_split("/\s+/", s): the tokens between maximal runs of whitespace.
      A leading (trailing) run yields an empty first (last) token; every
      other token is non-empty, and no token holds whitespace. */
  function SplitOnWhitespace(s: string): (tokens: seq<string>)
    ensures |tokens| >= 1
    ensures forall k :: 0 <= k < |tokens| ==> NoSpace(tokens[k])
    ensures forall k :: 0 < k < |tokens| - 1 ==> tokens[k] != ""
    ensures s != [] && !IsSpace(s[0]) ==> tokens[0] != ""
    decreases |s|
  {
    if s == [] then [""]
    else if IsSpace(s[0]) then [""] + SplitOnWhitespace(DropSpaces(s[1..]))
    else
      var rest := SplitOnWhitespace(s[1..]);
      [[s[0]] + rest[0]] + rest[1..]
  }

  /** A token without whitespace followed by a whitespace character (or by
      nothing) is the first token. */
  lemma {:induction false} SplitFirstToken(t: string, rest: string)
    requires NoSpace(t)
    requires rest == [] || IsSpace(rest[0])
    ensures SplitOnWhitespace(t + rest)[0] == t
    ensures SplitOnWhitespace(t + rest)[1..] == SplitOnWhitespace(rest)[1..]
  {
    if t == [] {
      assert t + rest == rest;
      if rest != [] {
        assert SplitOnWhitespace(rest)[0] == "";
      }
    } else {
      var s := t + rest;
      assert s[1..] == t[1..] + rest;
      SplitFirstToken(t[1..], rest);
      assert [t[0]] + t[1..] == t;
    }
  }

  /** A non-empty run of whitespace. */
  predicate Whitespace(ws: string)
  {
    ws != [] && forall k :: 0 <= k < |ws| ==> IsSpace(ws[k])
  }

  /** Whitespace followed by a non-space character starts a new token. */
  lemma SplitAfterSpaces(ws: string, u: string)
    requires Whitespace(ws)
    requires u == [] || !IsSpace(u[0])
    ensures SplitOnWhitespace(ws + u) == [""] + SplitOnWhitespace(u)
  {
    var s := ws + u;
    assert s[0] == ws[0] && IsSpace(s[0]);
    assert s[1..] == ws[1..] + u;
    DropSpacesThrough(ws[1..], u);
    assert DropSpaces(s[1..]) == u;
    assert SplitOnWhitespace(s) == [""] + SplitOnWhitespace(DropSpaces(s[1..]));
  }

  lemma {:induction false} DropSpacesThrough(ws: string, u: string)
    requires forall k :: 0 <= k < |ws| ==> IsSpace(ws[k])
    requires u == [] || !IsSpace(u[0])
    ensures DropSpaces(ws + u) == u
  {
    if ws == [] {
      assert ws + u == u;
    } else {
      assert (ws + u)[1..] == ws[1..] + u;
      DropSpacesThrough(ws[1..], u);
    }
  }
}
