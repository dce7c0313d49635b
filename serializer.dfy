/**
 * `nodesToANSI` (app/page.tsx:135-181): the editor's child nodes are
 * written out as text with SGR escapes (select graphic rendition, section
 * 8.3.117 of ECMA-48). A stack of `{fg, bg, st}` frames, seeded with the
 * value 2 for "unset" in every field, tracks the style in force; an element
 * whose class names hold `ansi-N` opens a scope for code N.
 *
 * `SerializeNodes` is the meaning of the serializer as a function of the
 * nodes and the frame on top of the stack; `NodesToAnsi` is the loop of the
 * source over an explicit, shared stack, proved to compute it and to leave
 * the stack as it found it.
 */
module Serializer {
  import opened Text
  import opened Channels

  /** A child node of the editable element. */
  datatype Node =
    | TextNode(content: string)                    // a text node: its `textContent`
    | Br                                           // a `<br>` element
    | Element(className: string, kids: seq<Node>)  // any other HTML element
    | Other                                        // a comment or any other non-element node

  /** One frame of the `states` stack: foreground, background and emphasis
      codes in force, each 2 when unset. */
  datatype Style = Style(fg: nat, bg: nat, st: nat)

  /** The literal 2 the source uses for "unset". */
  const Unset: nat := 2

  /** The frame the stack starts with. */
  const Seed: Style := Style(Unset, Unset, Unset)

  const Esc: char := '\U{1B}'

  /** The field of a frame that holds a channel. */
  function Field(s: Style, ch: Channel): nat
  {
    match ch
    case Emphasis => s.st
    case Foreground => s.fg
    case Background => s.bg
  }

  /** The frame pushed on entering a scope with code `code`
      (app/page.tsx:156-160): a copy of the top frame with the field of the
      code's channel overwritten; a NaN code matches none of the three tests
      and leaves the copy as it is. */
  function Enter(top: Style, code: Number): (s: Style)
    ensures code.NaN? ==> s == top
    ensures code.Num? ==> forall ch :: Field(s, ch) == (if ch == ScopeChannel(code.n) then code.n else Field(top, ch))
  {
    match code
    case NaN => top
    case Num(n) =>
      if n < 30 then top.(st := n)
      else if n < 40 then top.(fg := n)
      else top.(bg := n)
  }

  /** `ESC[a;bm`. */
  function Sgr(a: nat, b: nat): string
  {
    [Esc] + "[" + NatToString(a) + ";" + NatToString(b) + "m"
  }

  /** `ESC[0m`. */
  const Reset: string := [Esc] + "[0m"

  /** The escape that opens a scope (app/page.tsx:163): the emphasis of the
      new frame, then its background for a code of 40 or more and its
      foreground otherwise. */
  function Open(s: Style, code: Number): string
  {
    Sgr(s.st, if code.Num? && code.n >= 40 then s.bg else s.fg)
  }

  /** What follows `ESC[0m` when a scope closes (app/page.tsx:168-173): the
      restored frame's foreground, then its background, each only when set. */
  function Reassert(p: Style): string
  {
    (if p.fg != Unset then Sgr(p.st, p.fg) else "")
    + (if p.bg != Unset then Sgr(p.st, p.bg) else "")
  }

  /** The code of an element (app/page.tsx:153-155): none unless the class
      name contains `ansi-`; otherwise unary `+` of what follows the first
      `ansi-`, cut at the next `ansi-` and then at the first space. */
  function ScopeCode(className: string): (r: Option<Number>)
    ensures r.Some? <==> IndexOf(className, "ansi-").Some?
  {
    if IndexOf(className, "ansi-").None? then None
    else Some(ToNumber(SplitOn(SplitOn(className, "ansi-")[1], " ")[0]))
  }

  /** A class name that starts with `ansi-` splits right after it. */
  lemma {:induction false} LeadingAnsi(t: string)
    ensures IndexOf("ansi-" + t, "ansi-") == Some(0)
    ensures SplitOn("ansi-" + t, "ansi-")[1] == SplitOn(t, "ansi-")[0]
  {
    var c := "ansi-" + t;
    assert c[0..5] == "ansi-";
    SplitOnFirst(c, "ansi-");
    assert c[5..] == t;
  }

  /** The code of a name that starts with `ansi-`. */
  lemma {:induction false} ScopeCodeAfterAnsi(u: string)
    ensures ScopeCode("ansi-" + u) == Some(ToNumber(SplitOn(SplitOn(u, "ansi-")[0], " ")[0]))
  {
    LeadingAnsi(u);
  }

  /** Only the first `ansi-` class of a name counts: when the name starts
      with a space-free `ansi-` class, whatever follows its space (other
      `ansi-` classes included) leaves the code unchanged. */
  lemma {:induction false} FirstClassDecides(t: string, rest: string)
    requires ' ' !in t
    ensures ScopeCode("ansi-" + t + " " + rest) == ScopeCode("ansi-" + t)
  {
    ScopeCodeAfterAnsi(t);
    ScopeCodeAfterAnsi(t + " " + rest);
    assert "ansi-" + t + " " + rest == "ansi-" + (t + " " + rest);
    FirstTokenDecides(t, rest, "ansi-");
  }

  /** A space-free `ansi-` class with no second `ansi-` in it has the
      number after `ansi-` as its code. */
  lemma {:induction false} ClassTokenCode(t: string)
    requires ' ' !in t && IndexOf(t, "ansi-").None?
    ensures ScopeCode("ansi-" + t) == Some(ToNumber(t))
  {
    ScopeCodeAfterAnsi(t);
    FirstPartPastToken(t, "", "ansi-");
  }

  /** The output for one node, with `top` the frame on top of the stack. */
  function SerializeNode(node: Node, top: Style): string
    decreases node, 1
  {
    match node
    case TextNode(content) => content
    case Br => "\n"
    case Other => ""
    case Element(className, kids) =>
      match ScopeCode(className)
      case None => SerializeNodes(kids, top)
      case Some(code) =>
        var s := Enter(top, code);
        Open(s, code) + SerializeNodes(kids, s) + Reset + Reassert(top)
  }

  /** The output for a run of sibling nodes, in order. */
  function SerializeNodes(nodes: seq<Node>, top: Style): string
    decreases nodes, 0
  {
    if nodes == [] then ""
    else SerializeNodes(nodes[..|nodes| - 1], top) + SerializeNode(nodes[|nodes| - 1], top)
  }

  // ---------------------------------------------------------------------
  // Properties of the output
  // ---------------------------------------------------------------------

  /** A printed code is read back as that code, with or without classes
      after it. */
  lemma {:induction false} PrintedCodeIsRead(code: nat, rest: string)
    ensures ScopeCode("ansi-" + NatToString(code)) == Some(Num(code))
    ensures ScopeCode("ansi-" + NatToString(code) + " " + rest) == Some(Num(code))
  {
    var d := NatToString(code);
    IndexOfMissingStart(d, "ansi-");
    ClassTokenCode(d);
    FirstClassDecides(d, rest);
    NumberRoundTrip(code);
  }

  /** The escape that opens a scope: an emphasis code opens with the
      inherited foreground, a colour code opens with itself after the
      inherited emphasis, and a NaN code repeats the inherited emphasis and
      foreground. */
  lemma {:induction false} OpeningEscape(top: Style, code: Number)
    ensures Open(Enter(top, code), code) ==
      match code
      case NaN => Sgr(top.st, top.fg)
      case Num(n) => if n < 30 then Sgr(n, top.fg) else Sgr(top.st, n)
  {
  }

  /** Nothing follows the reset when the restored frame has no colour:
      emphasis alone is never re-asserted. */
  lemma {:induction false} ReassertOnlyColours(p: Style)
    ensures Reassert(p) == "" <==> p.fg == Unset && p.bg == Unset
    ensures p.fg == Unset && p.bg != Unset ==> Reassert(p) == Sgr(p.st, p.bg)
  {
  }

  /** A scope at the top level ends its output with `ESC[0m`. */
  lemma {:induction false} TopLevelScopeEndsWithReset(className: string, kids: seq<Node>)
    requires ScopeCode(className).Some?
    ensures var out := SerializeNode(Element(className, kids), Seed);
      |out| >= |Reset| && out[|out| - |Reset|..] == Reset
  {
  }

  lemma {:induction false} PrintedOneDigit()
    ensures NatToString(1) == "1" && NatToString(2) == "2"
  {
  }

  /** `ESC[2;31m` and the other escapes of the examples below. */
  lemma {:induction false} SgrTexts()
    ensures Sgr(2, 31) == [Esc] + "[2;31m"
    ensures Sgr(2, 45) == [Esc] + "[2;45m" && Sgr(2, 37) == [Esc] + "[2;37m"
    ensures Sgr(1, 2) == [Esc] + "[1;2m" && Sgr(1, 31) == [Esc] + "[1;31m"
  {
    PrintedOneDigit();
    PrintTwoDigits(31);
    PrintTwoDigits(45);
    PrintTwoDigits(37);
  }

  /** A scope at the top level: the unset fields print as 2, so a
      foreground 31 scope opens with `ESC[2;31m` and an emphasis scope with
      `ESC[<code>;2m`; nothing follows the closing `ESC[0m`. */
  lemma {:induction false} TopLevelScope(className: string, code: nat, kids: seq<Node>)
    requires ScopeCode(className) == Some(Num(code))
    ensures SerializeNode(Element(className, kids), Seed)
         == (if code < 30 then Sgr(code, Unset) else Sgr(Unset, code))
            + SerializeNodes(kids, Enter(Seed, Num(code))) + Reset
  {
  }

  lemma {:induction false} OneNode(n: Node, top: Style)
    ensures SerializeNodes([n], top) == SerializeNode(n, top)
  {
    assert [n][..0] == [];
  }

  lemma {:induction false} TwoNodes(m: Node, n: Node, top: Style)
    ensures SerializeNodes([m, n], top) == SerializeNode(m, top) + SerializeNode(n, top)
  {
    assert [m, n][..1] == [m];
    OneNode(m, top);
  }

  lemma {:induction false} ScopeNode(className: string, code: Number, kids: seq<Node>, top: Style)
    requires ScopeCode(className) == Some(code)
    ensures SerializeNode(Element(className, kids), top)
         == Open(Enter(top, code), code) + SerializeNodes(kids, Enter(top, code)) + Reset + Reassert(top)
  {
  }

  /** A coloured scope inside an emphasis scope: after the inner scope's
      `ESC[0m` only colours would be re-asserted, so the text after it is
      written with no escape and shows without the emphasis. */
  lemma {:induction false} EmphasisLostAfterInnerScope(outer: string, e: nat, inner: string, c: nat,
                                     kids: seq<Node>, after: string)
    requires ScopeCode(outer) == Some(Num(e)) && e < 30
    requires ScopeCode(inner) == Some(Num(c)) && c >= 30
    ensures SerializeNodes([Element(outer, [Element(inner, kids), TextNode(after)])], Seed)
         == Sgr(e, Unset) + (Sgr(e, c) + SerializeNodes(kids, Enter(Style(Unset, Unset, e), Num(c))) + Reset)
            + after + Reset
  {
    var s := Style(Unset, Unset, e);
    var innerOut := SerializeNode(Element(inner, kids), s);
    ScopeNode(inner, Num(c), kids, s);
    assert innerOut == Sgr(e, c) + SerializeNodes(kids, Enter(s, Num(c))) + Reset;
    NestedPair(outer, Num(e), Element(inner, kids), after);
  }

  /** A foreground scope inside a background scope: the background is
      re-asserted after the inner scope's `ESC[0m`. */
  lemma {:induction false} BackgroundReassertedAfterInnerScope(outer: string, g: nat, inner: string, c: nat,
                                            kids: seq<Node>, after: string)
    requires ScopeCode(outer) == Some(Num(g)) && g >= 40
    requires ScopeCode(inner) == Some(Num(c)) && 30 <= c < 40
    ensures SerializeNodes([Element(outer, [Element(inner, kids), TextNode(after)])], Seed)
         == Sgr(Unset, g) + (Sgr(Unset, c) + SerializeNodes(kids, Style(c, g, Unset)) + Reset + Sgr(Unset, g))
            + after + Reset
  {
    var s := Style(Unset, g, Unset);
    var innerOut := SerializeNode(Element(inner, kids), s);
    ScopeNode(inner, Num(c), kids, s);
    assert Enter(s, Num(c)) == Style(c, g, Unset);
    assert Open(Style(c, g, Unset), Num(c)) == Sgr(Unset, c);
    assert Reassert(s) == Sgr(Unset, g);
    assert innerOut == Sgr(Unset, c) + SerializeNodes(kids, Style(c, g, Unset)) + Reset + Sgr(Unset, g);
    NestedPair(outer, Num(g), Element(inner, kids), after);
  }

  /** A top-level scope holding a node and then a text. */
  lemma {:induction false} NestedPair(outer: string, code: Number, first: Node, after: string)
    requires ScopeCode(outer) == Some(code)
    ensures var s := Enter(Seed, code);
      SerializeNodes([Element(outer, [first, TextNode(after)])], Seed)
        == Open(s, code) + SerializeNode(first, s) + after + Reset
  {
    var s := Enter(Seed, code);
    OneNode(Element(outer, [first, TextNode(after)]), Seed);
    ScopeNode(outer, code, [first, TextNode(after)], Seed);
    TwoNodes(first, TextNode(after), s);
    assert Reassert(Seed) == "";
    Assoc(Open(s, code), SerializeNode(first, s), after);
  }

  /** The JavaScript array `states`, shared by every level of the recursion. */
  class StateStack {
    var frames: seq<Style>

    constructor (seed: Style)
      ensures frames == [seed]
    {
      frames := [seed];
    }

    /** `states[states.length - 1]`. */
    function Top(): Style
      reads this
      requires frames != []
    {
      frames[|frames| - 1]
    }

    /** `states.push(s)`. */
    method Push(s: Style)
      modifies this
      ensures frames == old(frames) + [s]
    {
      frames := frames + [s];
    }

    /** `states.pop()`, its result unused. */
    method Pop()
      requires frames != []
      modifies this
      ensures frames == old(frames)[..|old(frames)| - 1]
    {
      frames := frames[..|frames| - 1];
    }
  }

  /** `nodesToANSI(nodes, states)`: every push is matched by a pop, so the
      stack comes back unchanged, and the text is `SerializeNodes` of the
      nodes under the frame that was on top. */
  method NodesToAnsi(nodes: seq<Node>, states: StateStack) returns (text: string)
    requires states.frames != []
    modifies states
    ensures states.frames == old(states.frames)
    ensures text == SerializeNodes(nodes, old(states.Top()))
    decreases nodes, 0
  {
    ghost var top := states.Top();
    text := "";
    var i := 0;
    while i < |nodes|
      invariant 0 <= i <= |nodes|
      invariant states.frames == old(states.frames)
      invariant text == SerializeNodes(nodes[..i], top)
    {
      assert nodes[..i + 1][..i] == nodes[..i];
      var out := NodeToAnsi(nodes[i], states);
      text := text + out;
      i := i + 1;
    }
    assert nodes[..|nodes|] == nodes;
  }

  /** One pass of the loop of `nodesToANSI` (app/page.tsx:142-177): the
      output for one node, with the stack back as it was. */
  method NodeToAnsi(node: Node, states: StateStack) returns (text: string)
    requires states.frames != []
    modifies states
    ensures states.frames == old(states.frames)
    ensures text == SerializeNode(node, old(states.Top()))
    decreases node, 1
  {
    match node {
      case TextNode(content) =>
        text := content;
      case Br =>
        text := "\n";
      case Other =>
        text := "";
      case Element(className, kids) =>
        var code := ScopeCode(className);
        if code.Some? {
          text := ScopeToAnsi(code.value, kids, states);
        } else {
          text := NodesToAnsi(kids, states);
        }
    }
  }

  /** The scope branch of `nodesToANSI` (app/page.tsx:155-173): push the new
      frame, open, write the children, pop, reset, re-assert the colours of
      the frame now on top. */
  method ScopeToAnsi(ansiCode: Number, kids: seq<Node>, states: StateStack) returns (text: string)
    requires states.frames != []
    modifies states
    ensures states.frames == old(states.frames)
    ensures var s := Enter(old(states.Top()), ansiCode);
      text == Open(s, ansiCode) + SerializeNodes(kids, s) + Reset + Reassert(old(states.Top()))
    decreases kids, 2
  {
    ghost var top := states.Top();
    var newState := NewFrame(states.Top(), ansiCode);
    states.Push(newState);
    text := Sgr(newState.st, if ansiCode.Num? && ansiCode.n >= 40 then newState.bg else newState.fg);
    var inner := NodesToAnsi(kids, states);
    text := text + inner;
    states.Pop();
    assert states.Top() == top;
    text := text + Reset;
    var after := Reassertion(states.Top());
    text := text + after;
  }

  /** `{ ...states[states.length - 1] }` and the three range tests
      (app/page.tsx:156-160). */
  method NewFrame(top: Style, ansiCode: Number) returns (newState: Style)
    ensures newState == Enter(top, ansiCode)
  {
    newState := top;
    if ansiCode.Num? && ansiCode.n < 30 {
      newState := newState.(st := ansiCode.n);
    }
    if ansiCode.Num? && 30 <= ansiCode.n < 40 {
      newState := newState.(fg := ansiCode.n);
    }
    if ansiCode.Num? && ansiCode.n >= 40 {
      newState := newState.(bg := ansiCode.n);
    }
  }

  /** The two re-assertions after the reset (app/page.tsx:168-173). */
  method Reassertion(p: Style) returns (text: string)
    ensures text == Reassert(p)
  {
    text := "";
    if p.fg != Unset {
      text := text + Sgr(p.st, p.fg);
    }
    if p.bg != Unset {
      text := text + Sgr(p.st, p.bg);
    }
  }

  /** The body of the export: `nodesToANSI` called with its default stack. */
  method ExportBody(editor: seq<Node>) returns (body: string)
    ensures body == SerializeNodes(editor, Seed)
  {
    var states := new StateStack(Seed);
    body := NodesToAnsi(editor, states);
  }
}
