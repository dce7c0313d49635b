/**
 * The copy button (app/page.tsx:57-58, 184-205): the exported body is
 * wrapped in a Discord `ansi` code block, and a counter, capped at 10,
 * picks one of eleven messages for the button.
 */
module Copy {
  import opened Text
  import opened Serializer

  const Opening: string := "```ansi\n"
  const Closing: string := "\n```"

  /** The string handed to the clipboard (app/page.tsx:187). */
  function Wrap(body: string): (s: string)
    ensures |s| == |Opening| + |body| + |Closing|
    ensures s[..|Opening|] == Opening && s[|s| - |Closing|..] == Closing
    ensures s[|Opening|..|s| - |Closing|] == body
  {
    Opening + body + Closing
  }

  /** The body of a code block, when the text is one. */
  function Unwrap(s: string): Option<string>
  {
    if |s| >= |Opening| + |Closing| && s[..|Opening|] == Opening && s[|s| - |Closing|..] == Closing
    then Some(s[|Opening|..|s| - |Closing|])
    else None
  }

  lemma {:induction false} WrapUnwrap(body: string)
    ensures Unwrap(Wrap(body)) == Some(body)
  {
  }

  lemma {:induction false} UnwrapWrap(s: string)
    requires Unwrap(s).Some?
    ensures Wrap(Unwrap(s).value) == s
  {
    assert s == s[..|Opening|] + s[|Opening|..|s| - |Closing|] + s[|s| - |Closing|..];
  }

  /** `funnyCopyMessages` (app/page.tsx:190-202). */
  const Messages: seq<string> := [
    "Copied!",
    "Double Copy!",
    "Triple Copy!",
    "Dominating!!",
    "Rampage!!",
    "Mega Copy!!",
    "Unstoppable!!",
    "Wicked Sick!!",
    "Monster Copy!!!",
    "GODLIKE!!!",
    "BEYOND GODLIKE!!!!"
  ]

  /** The button's label when no copy message is showing (app/page.tsx:57). */
  const Idle: string := "Copy text as Discord formatted"

  /** `Math.min(copyCount, funnyCopyMessages.length - 1)`
      (app/page.tsx:204): always an index of the array, the count itself
      while the count is below eleven. */
  function MessageIndex(count: nat): (i: nat)
    ensures i < |Messages|
    ensures i <= count && (count < |Messages| ==> i == count)
  {
    if count < |Messages| - 1 then count else |Messages| - 1
  }

  /** `Math.min(10, prev + 1)` (app/page.tsx:205). */
  function NextCount(count: nat): (n: nat)
    ensures n <= 10
    ensures count < 10 ==> n == count + 1
    ensures count >= 10 ==> n == 10
  {
    if count + 1 < 10 then count + 1 else 10
  }

  /** The count after `k` copies from a fresh page, with no timer firing in
      between. */
  function CountAfter(k: nat): nat
  {
    if k == 0 then 0 else NextCount(CountAfter(k - 1))
  }

  lemma {:induction false} CountAfterCopies(k: nat)
    ensures CountAfter(k) == if k < 10 then k else 10
  {
    if k > 0 {
      CountAfterCopies(k - 1);
    }
  }

  /** The `k`-th copy (counting from 0) shows the `k`-th message, and every
      copy from the eleventh on shows the last one. */
  lemma {:induction false} MessageOfCopy(k: nat)
    ensures Messages[MessageIndex(CountAfter(k))] == Messages[if k < 10 then k else 10]
    ensures k >= 10 ==> Messages[MessageIndex(CountAfter(k))] == "BEYOND GODLIKE!!!!"
  {
    CountAfterCopies(k);
  }

  /** The copy button's state. */
  class CopyButton {
    var copyCount: nat
    var copyMessage: string

    /** The counter never leaves 0..10. */
    predicate Valid()
      reads this
    {
      copyCount <= 10
    }

    constructor ()
      ensures copyCount == 0 && copyMessage == Idle
      ensures Valid()
    {
      copyCount := 0;
      copyMessage := Idle;
    }

    /** `handleCopy` (app/page.tsx:184-205): nothing happens without an
        editor; otherwise the wrapped export goes to the clipboard, the
        message is chosen by the count before the click, and the count
        grows by one up to 10. */
    method HandleCopy(editor: Option<seq<Node>>) returns (copied: Option<string>)
      modifies this
      ensures editor.None? ==> copied.None? && copyCount == old(copyCount) && copyMessage == old(copyMessage)
      ensures editor.Some? ==> copied == Some(Wrap(SerializeNodes(editor.value, Seed)))
      ensures editor.Some? ==> copyMessage == Messages[MessageIndex(old(copyCount))]
      ensures editor.Some? ==> copyCount == NextCount(old(copyCount))
      ensures old(Valid()) ==> Valid()
    {
      if editor.None? {
        return None;
      }
      var body := ExportBody(editor.value);
      copied := Some(Opening + body + Closing);
      copyMessage := Messages[MessageIndex(copyCount)];
      copyCount := NextCount(copyCount);
    }
  }
}
