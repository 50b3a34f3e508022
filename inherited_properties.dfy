/** HasInheritedMagicProperties.getClassesToParse: the class using the trait,
    then its ancestors up the parent chain, then the interfaces it implements. */
module InheritedProperties {
  import opened Outcomes

  /** What PHP's reflection knows about a class: its name, its parent class
      (get_parent_class, None where PHP returns false) and the interface names
      class_implements reports for it, in that function's order. A PHP class
      hierarchy is finite, so the parent chain is a finite value. */
  datatype ClassInfo = ClassInfo(name: string, parent: Option<ClassInfo>, interfaces: seq<string>)

  /** The ancestors of c, nearest first. */
  function Ancestors(c: ClassInfo): (r: seq<ClassInfo>)
    ensures r == [] <==> c.parent.None?
  {
    match c.parent
    case None => []
    case Some(p) => [p] + Ancestors(p)
  }

  /** The ancestor list is the parent chain: it starts at c's parent, each
      element is the parent of the one before it, and it stops at a class
      without parent. */
  lemma {:induction false} AncestorsIsParentChain(c: ClassInfo)
    ensures Ancestors(c) == [] <==> c.parent.None?
    ensures Ancestors(c) != [] ==> Some(Ancestors(c)[0]) == c.parent
    ensures forall k :: 0 < k < |Ancestors(c)| ==> Ancestors(c)[k - 1].parent == Some(Ancestors(c)[k])
    ensures Ancestors(c) != [] ==> Ancestors(c)[|Ancestors(c)| - 1].parent.None?
  {
    match c.parent
    case None =>
    case Some(p) =>
      AncestorsIsParentChain(p);
      var a := Ancestors(c);
      assert a == [p] + Ancestors(p);
      forall k | 0 < k < |a| ensures a[k - 1].parent == Some(a[k]) {
        if k > 1 {
          assert a[k - 1] == Ancestors(p)[k - 2] && a[k] == Ancestors(p)[k - 1];
        }
      }
  }

  function Names(cs: seq<ClassInfo>): (r: seq<string>)
    ensures |r| == |cs|
    ensures forall k :: 0 <= k < |cs| ==> r[k] == cs[k].name
  {
    seq(|cs|, k requires 0 <= k < |cs| => cs[k].name)
  }

  /** One more step up the parent chain. */
  lemma AncestorsStep(c: ClassInfo, done: seq<ClassInfo>, cls: ClassInfo)
    requires Ancestors(c) == done + Ancestors(cls) && cls.parent.Some?
    ensures Ancestors(c) == (done + [cls.parent.value]) + Ancestors(cls.parent.value)
  {
    assert Ancestors(cls) == [cls.parent.value] + Ancestors(cls.parent.value);
  }

  lemma NamesSnoc(cs: seq<ClassInfo>, c: ClassInfo)
    ensures Names(cs + [c]) == Names(cs) + [c.name]
  {
  }

  /** Where the three parts of the list sit. */
  lemma ClassListLayout(parsers: seq<string>, name: string, chain: seq<string>, interfaces: seq<string>)
    requires parsers == [name] + chain + interfaces
    ensures |parsers| == 1 + |chain| + |interfaces| && parsers[0] == name
    ensures parsers[1..1 + |chain|] == chain && parsers[1 + |chain|..] == interfaces
  {
  }

  /** getClassesToParse: the class itself at index 0, its ancestors' names in
      chain order, then its interfaces in class_implements order. As it only
      takes the class description, it reads and writes no object state, and in
      particular not definedProperties. */
  method ClassesToParse(c: ClassInfo) returns (parsers: seq<string>)
    ensures |parsers| == 1 + |Ancestors(c)| + |c.interfaces|
    ensures parsers[0] == c.name
    ensures parsers[1..1 + |Ancestors(c)|] == Names(Ancestors(c))
    ensures parsers[1 + |Ancestors(c)|..] == c.interfaces
  {
    var cls := c;
    ghost var done: seq<ClassInfo> := [];
    parsers := [c.name];
    while cls.parent.Some?
      invariant Ancestors(c) == done + Ancestors(cls)
      invariant parsers == [c.name] + Names(done)
      decreases cls
    {
      AncestorsStep(c, done, cls);
      NamesSnoc(done, cls.parent.value);
      done := done + [cls.parent.value];
      cls := cls.parent.value;
      parsers := parsers + [cls.name];
    }
    assert done == Ancestors(c);
    ghost var chain := parsers;
    var interfaces := c.interfaces;
    var j := 0;
    while j < |interfaces|
      invariant 0 <= j <= |interfaces|
      invariant parsers == chain + interfaces[..j]
    {
      parsers := parsers + [interfaces[j]];
      j := j + 1;
      assert interfaces[..j] == interfaces[..j - 1] + [interfaces[j - 1]];
    }
    assert interfaces[..j] == interfaces;
    ClassListLayout(parsers, c.name, Names(Ancestors(c)), interfaces);
  }
}
