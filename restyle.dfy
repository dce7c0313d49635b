/**
 * The class-list rule of `applyStyle` (app/page.tsx:88-122): the new span
 * takes the `ansi-` classes of the selection's parent element, drops those
 * of the requested code's channel, appends the requested class, and gets
 * each class followed by its preview class as its `className`.
 *
 * The DOM surgery around it (reading the selection, replacing its contents
 * with the new span, re-selecting) is not part of this module.
 */
module Restyle {
  import opened Text
  import opened Channels

  /** `cls.split("-")[1]`; absent when the class holds no `-`. */
  function ClassCode(cls: string): (r: Option<string>)
    ensures r.Some? <==> IndexOf(cls, "-").Some?
    ensures r.Some? ==> IndexOf(r.value, "-").None?
  {
    var parts := SplitOn(cls, "-");
    if |parts| >= 2 then Some(parts[1]) else None
  }

  /** The per-channel tests the filter applies to an existing class
      (app/page.tsx:105-108): emphasis compares the code text with "1" and
      "4", the colour channels compare `parseInt` of it with 30, 40. */
  predicate InChannel(cls: string, ch: Channel)
  {
    var code := ClassCode(cls);
    match ch
    case Emphasis => code == Some("1") || code == Some("4")
    case Foreground => code.Some? && ParseInt(code.value).Num? && 30 <= ParseInt(code.value).n < 40
    case Background => code.Some? && ParseInt(code.value).Num? && ParseInt(code.value).n >= 40
  }

  /** Whether the filter keeps an existing class when `code` is requested:
      a class survives unless it belongs to the requested code's channel,
      and every class survives a code that belongs to no channel. */
  predicate Preserve(code: nat, cls: string)
  {
    match RequestChannel(code)
    case None => true
    case Some(ch) => !InChannel(cls, ch)
  }

  /** `preservedClasses` (app/page.tsx:104-110). */
  function PreservedClasses(existing: seq<string>, code: nat): seq<string>
  {
    Filter(existing, cls => Preserve(code, cls))
  }

  /** The classes of a list that belong to a channel. */
  function ClassesInChannel(classes: seq<string>, ch: Channel): seq<string>
  {
    Filter(classes, c => InChannel(c, ch))
  }

  /** `ansi-${ansiCode}` (app/page.tsx:113). */
  function NewClass(code: nat): string
  {
    "ansi-" + NatToString(code)
  }

  /** `allClasses` (app/page.tsx:114). */
  function AllClasses(existing: seq<string>, code: nat): seq<string>
  {
    PreservedClasses(existing, code) + [NewClass(code)]
  }

  /** One class followed by its preview class (app/page.tsx:118-121). */
  function Decorate(cls: string): string
  {
    cls + " " + PreviewClass(ClassCode(cls))
  }

  /** The new span's `className` (app/page.tsx:117-122). */
  function BuildClassName(classes: seq<string>): string
  {
    Join(seq(|classes|, i requires 0 <= i < |classes| => Decorate(classes[i])), " ")
  }

  predicate IsAnsiClass(cls: string)
  {
    StartsWith(cls, "ansi-")
  }

  /** `existingClasses` (app/page.tsx:89-92): the `ansi-` tokens of the
      parent's `className`; an empty name, or a parent that is not an
      element, is given as "" and yields none. */
  function ExistingAnsiClasses(className: string): seq<string>
  {
    Filter(SplitOn(className, " "), IsAnsiClass)
  }

  /** The `className` of the span `applyStyle` inserts for `code` under a
      parent whose `className` is `parentClassName`. */
  function RestyleClassName(parentClassName: string, code: nat): string
  {
    BuildClassName(AllClasses(ExistingAnsiClasses(parentClassName), code))
  }

  // ---------------------------------------------------------------------
  // Properties
  // ---------------------------------------------------------------------

  /** The code part of an `ansi-` class is what follows `ansi-` up to the
      next `-`. */
  lemma {:induction false} ClassCodeOfAnsi(t: string)
    ensures ClassCode("ansi-" + t) == Some(SplitOn(t, "-")[0])
  {
    SplitOnCons("ansi", t, "-");
    assert "ansi-" + t == "ansi" + "-" + t;
  }

  /** The requested class carries the printed code, and it belongs to the
      channel the code was requested on. */
  lemma {:induction false} NewClassCode(code: nat)
    ensures ClassCode(NewClass(code)) == Some(NatToString(code))
    ensures IsAnsiClass(NewClass(code)) && ' ' !in NewClass(code)
    ensures RequestChannel(code).Some? ==> InChannel(NewClass(code), RequestChannel(code).value)
  {
    var d := NatToString(code);
    ClassCodeOfAnsi(d);
    IndexOfChar(d, "-");
    NumberRoundTrip(code);
    if code == 1 || code == 4 {
      assert d == [DigitChar(code)];
    }
    assert NewClass(code)[..5] == "ansi-";
    assert forall i :: 5 <= i < |NewClass(code)| ==> NewClass(code)[i] == d[i - 5];
  }

  /** The new list is the existing classes outside the requested channel,
      in their order, followed by the requested class. When the code has a
      channel, no class of that channel survives and every class of the
      other channels does. */
  lemma {:induction false} AllClassesShape(existing: seq<string>, code: nat)
    ensures var all := AllClasses(existing, code);
      && all[|all| - 1] == NewClass(code)
      && (forall c :: c in all[..|all| - 1] <==> c in existing && Preserve(code, c))
      && (RequestChannel(code).Some? ==>
            forall c :: c in all[..|all| - 1] ==> !InChannel(c, RequestChannel(code).value))
  {
    var all := AllClasses(existing, code);
    assert all[..|all| - 1] == PreservedClasses(existing, code);
  }

  /** When no existing class is in the requested channel, the existing
      list is kept whole and in order. */
  lemma {:induction false} NoConflictKeepsAll(existing: seq<string>, code: nat)
    requires forall c :: c in existing ==> Preserve(code, c)
    ensures AllClasses(existing, code) == existing + [NewClass(code)]
  {
    FilterAll(existing, cls => Preserve(code, cls));
  }

  /** Classes kept from two runs of a list come out in the same order as
      the runs. */
  lemma {:induction false} PreservedKeepsOrder(a: seq<string>, b: seq<string>, code: nat)
    ensures PreservedClasses(a + b, code) == PreservedClasses(a, code) + PreservedClasses(b, code)
  {
    FilterAppend(a, b, cls => Preserve(code, cls));
  }

  /** Exactly one class of the requested channel remains: the new one. */
  lemma {:induction false} ExactlyOneInChannel(existing: seq<string>, code: nat, ch: Channel)
    requires RequestChannel(code) == Some(ch)
    ensures ClassesInChannel(AllClasses(existing, code), ch) == [NewClass(code)]
  {
    var kept := PreservedClasses(existing, code);
    FilterAppend(kept, [NewClass(code)], c => InChannel(c, ch));
    NewClassCode(code);
    FilterNone(kept, c => InChannel(c, ch));
    assert ClassesInChannel([NewClass(code)], ch) == [NewClass(code)];
  }

  /** A class belongs to at most one channel. */
  lemma {:induction false} ChannelsExclusive(cls: string, ch: Channel, other: Channel)
    requires InChannel(cls, ch) && ch != other
    ensures !InChannel(cls, other)
  {
    NumberRoundTrip(1);
    NumberRoundTrip(4);
  }

  /** Applying the same code to the result list changes nothing. */
  lemma {:induction false} AllClassesIdempotent(existing: seq<string>, code: nat)
    requires RequestChannel(code).Some?
    ensures AllClasses(AllClasses(existing, code), code) == AllClasses(existing, code)
  {
    var kept := PreservedClasses(existing, code);
    PreservedKeepsOrder(kept, [NewClass(code)], code);
    NoConflictKeepsAll(kept, code);
    NewClassDropped(code);
  }

  /** The requested class itself does not survive a second request of its
      code. */
  lemma {:induction false} NewClassDropped(code: nat)
    requires RequestChannel(code).Some?
    ensures PreservedClasses([NewClass(code)], code) == []
  {
    NewClassCode(code);
    assert [NewClass(code)][1..] == [];
  }

  lemma {:induction false} BuildClassNameCons(classes: seq<string>)
    requires |classes| >= 1
    ensures |classes| == 1 ==> BuildClassName(classes) == Decorate(classes[0])
    ensures |classes| >= 2 ==>
      BuildClassName(classes) == Decorate(classes[0]) + " " + BuildClassName(classes[1..])
  {
    var decorated := seq(|classes|, i requires 0 <= i < |classes| => Decorate(classes[i]));
    var rest := classes[1..];
    assert decorated[1..] == seq(|rest|, i requires 0 <= i < |rest| => Decorate(rest[i]));
  }

  /** A preview class is one token and not an `ansi-` class. */
  lemma {:induction false} PreviewIsToken(c: string)
    ensures ' ' !in PreviewClass(ClassCode(c)) && !IsAnsiClass(PreviewClass(ClassCode(c)))
  {
    var key := ClassCode(c);
    if key.Some? && key.value in AnsiClasses {
      PreviewClassesAreSingleTokens(key.value);
    }
  }

  /** Two space-free tokens joined by a space split back into the two. */
  lemma {:induction false} TwoTokens(c: string, p: string)
    requires ' ' !in c && ' ' !in p
    ensures SplitOn(c + " " + p, " ") == [c, p]
  {
    IndexOfChar(p, " ");
    SplitOnCons(c, p, " ");
  }

  /** Two space-free tokens in front of the rest of a class name split off
      as two parts. */
  lemma {:induction false} TwoTokensThen(c: string, p: string, rest: string)
    requires ' ' !in c && ' ' !in p
    ensures SplitOn(c + " " + p + " " + rest, " ") == [c, p] + SplitOn(rest, " ")
  {
    var tail := p + " " + rest;
    var whole := c + " " + tail;
    assert c + " " + p + " " + rest == whole;
    SplitOnCons(c, tail, " ");
    var x := SplitOn(tail, " ");
    SplitOnCons(p, rest, " ");
    assert SplitOn(whole, " ") == [c] + x;
    assert x == [p] + SplitOn(rest, " ");
  }

  /** Of an `ansi-` class and a token that is not one, only the class
      is kept. */
  lemma {:induction false} FilterPair(c: string, p: string)
    requires IsAnsiClass(c) && !IsAnsiClass(p)
    ensures Filter([c, p], IsAnsiClass) == [c]
  {
    assert [c, p][1..] == [p];
    assert [p][1..] == [];
  }

  /** Of a decorated class's two tokens only the class itself is kept. */
  lemma {:induction false} DecoratedFilter(c: string)
    requires IsAnsiClass(c)
    ensures Filter([c, PreviewClass(ClassCode(c))], IsAnsiClass) == [c]
  {
    PreviewIsToken(c);
    FilterPair(c, PreviewClass(ClassCode(c)));
  }

  /** One step of reading classes back: a class and a non-`ansi-` token
      in front of a name whose classes are known. */
  lemma {:induction false} ExistingStep(c: string, p: string, restName: string)
    requires IsAnsiClass(c) && ' ' !in c && ' ' !in p && !IsAnsiClass(p)
    ensures ExistingAnsiClasses(c + " " + p + " " + restName) == [c] + ExistingAnsiClasses(restName)
  {
    var pieces := SplitOn(restName, " ");
    TwoTokensThen(c, p, restName);
    FilterAppend([c, p], pieces, IsAnsiClass);
    FilterPair(c, p);
  }

  /** Reading the `ansi-` classes back out of a built `className` gives
      the class list it was built from. */
  lemma {:induction false} ExistingOfBuilt(classes: seq<string>)
    requires |classes| >= 1 && AnsiTokens(classes)
    ensures ExistingAnsiClasses(BuildClassName(classes)) == classes
    decreases |classes|
  {
    if |classes| == 1 {
      BuildClassNameCons(classes);
      ExistingOfOne(classes[0]);
    } else {
      AnsiTokensTail(classes);
      ExistingOfBuilt(classes[1..]);
      ExistingOfMore(classes);
    }
  }

  /** Every class of the list is an `ansi-` class with no space. */
  predicate AnsiTokens(classes: seq<string>)
  {
    forall i :: 0 <= i < |classes| ==> IsAnsiClass(classes[i]) && ' ' !in classes[i]
  }

  lemma {:induction false} AnsiTokensTail(classes: seq<string>)
    requires |classes| >= 1 && AnsiTokens(classes)
    ensures AnsiTokens(classes[1..])
  {
    var rest := classes[1..];
    forall i | 0 <= i < |rest| ensures IsAnsiClass(rest[i]) && ' ' !in rest[i] {
      assert rest[i] == classes[i + 1];
    }
  }

  /** A decorated class in front of a built name whose classes read back
      reads back as that class followed by them. */
  lemma {:induction false} ExistingOfMore(classes: seq<string>)
    requires |classes| >= 2 && IsAnsiClass(classes[0]) && ' ' !in classes[0]
    requires ExistingAnsiClasses(BuildClassName(classes[1..])) == classes[1..]
    ensures ExistingAnsiClasses(BuildClassName(classes)) == classes
  {
    var c := classes[0];
    BuildClassNameCons(classes);
    var p := PreviewClass(ClassCode(c));
    PreviewIsToken(c);
    var restName := BuildClassName(classes[1..]);
    assert BuildClassName(classes) == c + " " + p + " " + restName;
    ExistingStep(c, p, restName);
    assert classes == [c] + classes[1..];
  }

  /** A single decorated class reads back as itself. */
  lemma {:induction false} ExistingOfOne(c: string)
    requires IsAnsiClass(c) && ' ' !in c
    ensures ExistingAnsiClasses(Decorate(c)) == [c]
  {
    var p := PreviewClass(ClassCode(c));
    PreviewIsToken(c);
    TwoTokens(c, p);
    DecoratedFilter(c);
  }

  /** Every class read from a `className` is an `ansi-` class with no space. */
  lemma {:induction false} ExistingAreTokens(className: string)
    ensures forall c :: c in ExistingAnsiClasses(className) ==> IsAnsiClass(c) && ' ' !in c
  {
    var pieces := SplitOn(className, " ");
    forall c | c in ExistingAnsiClasses(className)
      ensures IsAnsiClass(c) && ' ' !in c
    {
      var i :| 0 <= i < |pieces| && pieces[i] == c;
      IndexOfChar(c, " ");
    }
  }

  /** Re-applying a code to the span it produced, with the selection
      covering that span's text, builds the same `className` again. */
  lemma {:induction false} RestyleIdempotent(parentClassName: string, code: nat)
    requires RequestChannel(code).Some?
    ensures RestyleClassName(RestyleClassName(parentClassName, code), code)
         == RestyleClassName(parentClassName, code)
  {
    var existing := ExistingAnsiClasses(parentClassName);
    var all := AllClasses(existing, code);
    ExistingAreTokens(parentClassName);
    NewClassCode(code);
    AllClassesShape(existing, code);
    assert AnsiTokens(all) by {
      forall i | 0 <= i < |all|
        ensures IsAnsiClass(all[i]) && ' ' !in all[i]
      {
        if i < |all| - 1 {
          assert all[i] in all[..|all| - 1];
        }
      }
    }
    ExistingOfBuilt(all);
    AllClassesIdempotent(existing, code);
  }
}
