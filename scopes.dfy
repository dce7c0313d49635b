/**
 * How the serializer reads the `className` that `applyStyle` builds
 * (app/page.tsx:114-122 feeding app/page.tsx:153-155): the exported code of
 * a restyled span is the code of the first class in its list, and the new
 * class is appended last.
 */
module Scopes {
  import opened Text
  import opened Channels
  import opened Restyle
  import opened Serializer

  /** An `ansi-` class with no space is `ansi-` followed by a space-free
      rest. */
  lemma {:induction false} AnsiToken(c: string)
    requires IsAnsiClass(c) && ' ' !in c
    ensures c == "ansi-" + c[5..] && ' ' !in c[5..]
  {
    assert c[..5] == "ansi-";
  }

  /** A decorated class followed by anything is read as the class. */
  lemma {:induction false} DecoratedCode(c: string, suffix: string)
    requires IsAnsiClass(c) && ' ' !in c
    ensures ScopeCode(Decorate(c) + suffix) == ScopeCode(c)
  {
    var p := PreviewClass(ClassCode(c));
    AnsiToken(c);
    assert Decorate(c) + suffix == "ansi-" + c[5..] + " " + (p + suffix);
    FirstClassDecides(c[5..], p + suffix);
  }

  /** The code the serializer reads from a built `className` is that of
      the first class of the list. */
  lemma {:induction false} BuiltNameCode(classes: seq<string>)
    requires |classes| >= 1 && IsAnsiClass(classes[0]) && ' ' !in classes[0]
    ensures ScopeCode(BuildClassName(classes)) == ScopeCode(classes[0])
  {
    BuildClassNameCons(classes);
    if |classes| == 1 {
      assert BuildClassName(classes) == Decorate(classes[0]) + "";
      DecoratedCode(classes[0], "");
    } else {
      var suffix := " " + BuildClassName(classes[1..]);
      assert BuildClassName(classes) == Decorate(classes[0]) + suffix;
      DecoratedCode(classes[0], suffix);
    }
  }

  /** The exported code of the span `applyStyle` inserts: the code of the
      first preserved class when there is one, the requested code when
      nothing was preserved. */
  lemma {:induction false} RestyledSpanCode(parentClassName: string, code: nat)
    ensures var all := AllClasses(ExistingAnsiClasses(parentClassName), code);
      ScopeCode(RestyleClassName(parentClassName, code)) == ScopeCode(all[0])
    ensures PreservedClasses(ExistingAnsiClasses(parentClassName), code) == [] ==>
      ScopeCode(RestyleClassName(parentClassName, code)) == Some(Num(code))
  {
    var existing := ExistingAnsiClasses(parentClassName);
    var all := AllClasses(existing, code);
    ExistingAreTokens(parentClassName);
    NewClassCode(code);
    AllClassesShape(existing, code);
    if |all| >= 2 {
      assert all[0] in all[..|all| - 1];
    }
    BuiltNameCode(all);
    PrintedCodeIsRead(code, "");
  }

  /** Restyling text inside a span of another channel: the inner span keeps
      the outer class first and the new class second, so its export carries
      the outer code and not the one just requested. */
  lemma {:induction false} NestedRestyleExportsOuterCode(parentClassName: string, a: nat, b: nat)
    requires ExistingAnsiClasses(parentClassName) == []
    requires RequestChannel(a).Some? && RequestChannel(b).Some? && RequestChannel(a) != RequestChannel(b)
    ensures ScopeCode(RestyleClassName(RestyleClassName(parentClassName, a), b)) == Some(Num(a))
  {
    var outer := RestyleClassName(parentClassName, a);
    NewClassCode(a);
    assert AllClasses([], a) == [NewClass(a)];
    ExistingOfBuilt([NewClass(a)]);
    assert ExistingAnsiClasses(outer) == [NewClass(a)];
    ChannelsExclusive(NewClass(a), RequestChannel(a).value, RequestChannel(b).value);
    assert PreservedClasses([NewClass(a)], b) == [NewClass(a)];
    RestyledSpanCode(outer, b);
    PrintedCodeIsRead(a, "");
    assert ScopeCode(NewClass(a)) == Some(Num(a));
  }
}
