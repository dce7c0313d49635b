/**
 * What a terminal shows of the serializer's output. `PlainText` is an
 * independent reference for the text of the editor: text nodes verbatim,
 * a newline per `<br>`, elements by their children. `Strip` removes every
 * escape sequence (from `ESC` up to and including the next `m`), leaving
 * the characters a terminal prints. Whatever the styling, the output minus
 * its escapes is the plain text, and a tree without scopes serializes to
 * its plain text with no escape at all (app/page.tsx:142-150, 174-176).
 */
module Visible {
  import opened Text
  import opened Serializer

  /** The text of one node. */
  function PlainTextOf(node: Node): string
    decreases node, 1
  {
    match node
    case TextNode(content) => content
    case Br => "\n"
    case Other => ""
    case Element(_, kids) => PlainText(kids)
  }

  /** The text of a run of sibling nodes. */
  function PlainText(nodes: seq<Node>): string
    decreases nodes, 0
  {
    if nodes == [] then ""
    else PlainText(nodes[..|nodes| - 1]) + PlainTextOf(nodes[|nodes| - 1])
  }

  /** No text node in the tree holds an escape character. */
  predicate EscapeFree(node: Node)
    decreases node, 1
  {
    match node
    case TextNode(content) => Esc !in content
    case Element(_, kids) => AllEscapeFree(kids)
    case _ => true
  }

  predicate AllEscapeFree(nodes: seq<Node>)
    decreases nodes, 0
  {
    nodes == [] || (AllEscapeFree(nodes[..|nodes| - 1]) && EscapeFree(nodes[|nodes| - 1]))
  }

  /** No element in the tree opens a scope. */
  predicate Unscoped(node: Node)
    decreases node, 1
  {
    match node
    case Element(className, kids) => ScopeCode(className).None? && AllUnscoped(kids)
    case _ => true
  }

  predicate AllUnscoped(nodes: seq<Node>)
    decreases nodes, 0
  {
    nodes == [] || (AllUnscoped(nodes[..|nodes| - 1]) && Unscoped(nodes[|nodes| - 1]))
  }

  /** The rest of an escape sequence: everything up to and including the
      first `m`. */
  function SkipEscape(s: string): (r: string)
    ensures |r| <= |s|
  {
    if s == [] then ""
    else if s[0] == 'm' then s[1..]
    else SkipEscape(s[1..])
  }

  /** The characters a terminal prints. */
  function Strip(s: string): (r: string)
    ensures Esc !in r
    ensures |r| <= |s|
    decreases |s|
  {
    if s == [] then ""
    else if s[0] == Esc then Strip(SkipEscape(s[1..]))
    else [s[0]] + Strip(s[1..])
  }

  /** Text with no escape character passes through unchanged. */
  lemma {:induction false} StripPlain(t: string, rest: string)
    requires Esc !in t
    ensures Strip(t + rest) == t + Strip(rest)
    decreases |t|
  {
    if t != [] {
      assert (t + rest)[1..] == t[1..] + rest;
      StripPlain(t[1..], rest);
      assert t == [t[0]] + t[1..];
    } else {
      assert t + rest == rest;
    }
  }

  /** Skipping over text without an `m` and then an `m`. */
  lemma {:induction false} SkipPastM(t: string, rest: string)
    requires 'm' !in t
    ensures SkipEscape(t + "m" + rest) == rest
    decreases |t|
  {
    if t != [] {
      assert (t + "m" + rest)[1..] == t[1..] + "m" + rest;
      SkipPastM(t[1..], rest);
    }
  }

  lemma {:induction false} DigitsHaveNoM(n: nat)
    ensures 'm' !in NatToString(n) && Esc !in NatToString(n)
  {
    var d := NatToString(n);
    assert forall i :: 0 <= i < |d| ==> IsDigit(d[i]);
  }

  /** An SGR escape prints nothing. */
  lemma {:induction false} StripSgr(a: nat, b: nat, rest: string)
    ensures Strip(Sgr(a, b) + rest) == Strip(rest)
  {
    var body := "[" + NatToString(a) + ";" + NatToString(b);
    DigitsHaveNoM(a);
    DigitsHaveNoM(b);
    assert 'm' !in body;
    assert Sgr(a, b) + rest == [Esc] + (body + "m" + rest);
    SkipPastM(body, rest);
  }

  /** `ESC[0m` prints nothing. */
  lemma {:induction false} StripReset(rest: string)
    ensures Strip(Reset + rest) == Strip(rest)
  {
    assert Reset + rest == [Esc] + ("[0" + "m" + rest);
    SkipPastM("[0", rest);
  }

  /** The re-assertion after a reset prints nothing. */
  lemma {:induction false} StripReassert(p: Style, rest: string)
    ensures Strip(Reassert(p) + rest) == Strip(rest)
  {
    var first := if p.fg != Unset then Sgr(p.st, p.fg) else "";
    var second := if p.bg != Unset then Sgr(p.st, p.bg) else "";
    assert Reassert(p) == first + second;
    Assoc(first, second, rest);
    if p.bg != Unset {
      StripSgr(p.st, p.bg, rest);
    } else {
      assert second + rest == rest;
    }
    if p.fg != Unset {
      StripSgr(p.st, p.fg, second + rest);
    } else {
      assert first + (second + rest) == second + rest;
    }
  }

  /** A scope prints its children's text and nothing else. */
  lemma {:induction false} StripScope(a: nat, b: nat, inner: string, top: Style, rest: string)
    ensures Strip(Sgr(a, b) + inner + Reset + Reassert(top) + rest)
         == Strip(inner + (Reset + (Reassert(top) + rest)))
  {
    var open := Sgr(a, b);
    var r := Reassert(top);
    var t1 := open + inner;
    Assoc(t1 + Reset, r, rest);
    Assoc(t1, Reset, r + rest);
    Assoc(open, inner, Reset + (r + rest));
    StripSgr(a, b, inner + (Reset + (r + rest)));
  }

  /** The output of one node, escapes removed, is the node's text. */
  lemma {:induction false} VisibleNode(node: Node, top: Style, rest: string)
    requires EscapeFree(node)
    ensures Strip(SerializeNode(node, top) + rest) == PlainTextOf(node) + Strip(rest)
    decreases node, 1
  {
    match node {
      case TextNode(content) =>
        StripPlain(content, rest);
      case Br =>
        StripPlain("\n", rest);
      case Other =>
        assert "" + rest == rest;
      case Element(className, kids) =>
        match ScopeCode(className) {
          case None =>
            VisibleNodes(kids, top, rest);
          case Some(code) =>
            var s := Enter(top, code);
            StripScope(s.st, if code.Num? && code.n >= 40 then s.bg else s.fg, SerializeNodes(kids, s), top, rest);
            VisibleNodes(kids, s, Reset + (Reassert(top) + rest));
            StripReset(Reassert(top) + rest);
            StripReassert(top, rest);
        }
    }
  }

  /** The output of a run of nodes, escapes removed, is their text. */
  lemma {:induction false} VisibleNodes(nodes: seq<Node>, top: Style, rest: string)
    requires AllEscapeFree(nodes)
    ensures Strip(SerializeNodes(nodes, top) + rest) == PlainText(nodes) + Strip(rest)
    decreases nodes, 0
  {
    if nodes != [] {
      var init := nodes[..|nodes| - 1];
      var last := nodes[|nodes| - 1];
      var tail := SerializeNode(last, top) + rest;
      calc {
        Strip(SerializeNodes(nodes, top) + rest);
        { assert SerializeNodes(nodes, top) + rest == SerializeNodes(init, top) + tail; }
        Strip(SerializeNodes(init, top) + tail);
        { VisibleNodes(init, top, tail); }
        PlainText(init) + Strip(tail);
        { VisibleNode(last, top, rest); }
        PlainText(init) + (PlainTextOf(last) + Strip(rest));
        PlainText(nodes) + Strip(rest);
      }
    } else {
      assert SerializeNodes(nodes, top) + rest == rest;
    }
  }

  /** Whatever its styling, the exported body shows exactly the editor's
      text. */
  lemma {:induction false} VisibleTextIsPlainText(nodes: seq<Node>, top: Style)
    requires AllEscapeFree(nodes)
    ensures Strip(SerializeNodes(nodes, top)) == PlainText(nodes)
  {
    VisibleNodes(nodes, top, "");
    assert SerializeNodes(nodes, top) + "" == SerializeNodes(nodes, top);
  }

  /** A tree with no scope serializes to its plain text. */
  lemma {:induction false} UnscopedNode(node: Node, top: Style)
    requires Unscoped(node)
    ensures SerializeNode(node, top) == PlainTextOf(node)
    decreases node, 1
  {
    match node {
      case TextNode(_) =>
      case Br =>
      case Other =>
      case Element(_, kids) =>
        UnscopedNodes(kids, top);
    }
  }

  lemma {:induction false} UnscopedNodes(nodes: seq<Node>, top: Style)
    requires AllUnscoped(nodes)
    ensures SerializeNodes(nodes, top) == PlainText(nodes)
    decreases nodes, 0
  {
    if nodes != [] {
      UnscopedNodes(nodes[..|nodes| - 1], top);
      UnscopedNode(nodes[|nodes| - 1], top);
    }
  }
}
