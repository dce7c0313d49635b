# Discord coloured-text generator: a verified model of its core

The page lets a user type text into an editable box, select part of it and
click a style button (bold, underline, eight foreground colours, eight
background colours). Each click replaces the selection with a new `<span>`
holding only the selection's plain text. The span's classes are the
`ansi-` classes of the selection's immediate parent that the new code does
not conflict with, then the new code's class (`ansi-31`, `ansi-45`, ...),
each followed by a Tailwind class for the live preview. The copy button then walks the box's
DOM tree and writes it out as text with SGR escapes (`ESC[st;colourm`,
section 8.3.117 of ECMA-48), wrapped in a Discord `ansi` code block.

This project models that core in Dafny:

- `text.dfy` (module `Text`): the JavaScript string operations the page
  relies on: `indexOf`, `split` with a string separator, `join`,
  `startsWith`, decimal printing, unary `+` and `parseInt` on a string.
- `channels.dfy` (module `Channels`): the three style channels, the codes
  the buttons offer and the `ansiClasses` preview table.
- `restyle.dfy` (module `Restyle`): the class-list rule of `applyStyle`.
  It reads the parent's `ansi-` classes, drops those of the requested
  code's channel, appends the new class and builds the new `className`.
- `serializer.dfy` (module `Serializer`): `nodesToANSI`. It has a pure
  specification `SerializeNodes` and an imperative method `NodesToAnsi`
  that loops over the nodes with the shared `states` stack, modelled as
  the class `StateStack`. The method is proved equal to the specification
  and to leave the stack as it found it.
- `scopes.dfy` (module `Scopes`): which code the serializer reads back
  from a `className` that `applyStyle` built.
- `visible.dfy` (module `Visible`): a reference definition of the
  editor's plain text. It is proved equal to the serializer's output once
  the escapes are removed.
- `copy.dfy` (module `Copy`): the code-block wrapper, the eleven copy
  messages and the capped copy counter, with the button as a class.

The model follows the code as written:

- The unset value is the literal 2. A top-level red scope therefore opens
  with `ESC[2;31m`.
- An emphasis scope opens with the inherited foreground.
- After `ESC[0m` only colours are re-asserted, never emphasis on its own.
- Only the first `ansi-` class of an element counts.
- `applyStyle` appends the new class last. So a span restyled inside a
  span of another channel is exported with the outer code.
- A non-numeric code after `ansi-` is carried as NaN. It matches none of
  the range tests, as in the code.

## Model

| member | source | states |
|---|---|---|
| Channels.ChannelsAgreeOnButtons | app/page.tsx:99-101 | For every code a button offers, the channel `applyStyle` assigns to the request is the channel the serializer later assigns to the scope. |
| Channels.RequestChannel | app/page.tsx:99-101 | `applyStyle`'s reading of a requested code: emphasis for 1 and 4 only, foreground for 30-39, background from 40, and no channel otherwise. |
| Channels.ScopeChannel | app/page.tsx:158-160 | The serializer's reading of a scope code: emphasis below 30, foreground for 30-39, background from 40. |
| Channels.PreviewClass | app/page.tsx:120 | `ansiClasses[code] \|\| ""`: the table's class for a key in the table, which is never empty, and the empty string for a missing key or one outside the table. |
| Channels.TableMatchesButtons | app/page.tsx:8-30 | The decimal form of a code is a key of `ansiClasses` exactly when the code is one a button offers (1, 4, 30-37, 40-47). |
| Channels.PreviewClassesAreSingleTokens | app/page.tsx:8-30 | Every preview class is one space-free token and does not start with `ansi-`. |
| Restyle.ClassCode | app/page.tsx:105 | `cls.split("-")[1]`: present exactly when the class holds a `-`, and then free of `-` itself. |
| Restyle.InChannel | app/page.tsx:105-108 | The filter's channel tests on an existing class: its code text is "1" or "4" for emphasis; `parseInt` of it is in 30..39 for foreground and at least 40 for background. |
| Restyle.Preserve | app/page.tsx:104-110 | A class is kept unless it is in the requested code's channel; every class is kept when the code has no channel. |
| Restyle.PreservedClasses | app/page.tsx:104-110 | `preservedClasses`: the existing classes that `Preserve` keeps, in their order. |
| Restyle.NewClass | app/page.tsx:113 | `ansi-` followed by the printed code. |
| Restyle.AllClasses | app/page.tsx:114 | The preserved classes followed by the new class. |
| Restyle.Decorate | app/page.tsx:118-121 | A class, a space, then the preview class of its code part. |
| Restyle.BuildClassName | app/page.tsx:117-122 | The decorated classes joined by single spaces. |
| Restyle.ExistingAnsiClasses | app/page.tsx:89-91 | The tokens of the parent's `className` split on spaces that start with `ansi-`, in order. |
| Restyle.ClassCodeOfAnsi | app/page.tsx:105 | `cls.split("-")[1]` of an `ansi-` class is the text after `ansi-` up to the next `-`. |
| Restyle.NewClassCode | app/page.tsx:99-101 | The appended class `ansi-<code>` is a space-free `ansi-` class, its code part is the printed code, and it belongs to the requested channel. |
| Restyle.AllClassesShape | app/page.tsx:104-114 | The new list ends with the new class; before it are exactly the existing classes the filter keeps; when the code has a channel, none of them is in that channel. |
| Restyle.NoConflictKeepsAll | app/page.tsx:104-114 | With no existing class in the requested channel, the list is the existing classes, whole and in order, plus the new class. |
| Restyle.PreservedKeepsOrder | app/page.tsx:104-110 | Filtering distributes over concatenation, so kept classes keep their relative order. |
| Restyle.ExactlyOneInChannel | app/page.tsx:99-114 | Of the new list, the classes in the requested channel are exactly the one new class. |
| Restyle.ChannelsExclusive | app/page.tsx:105-108 | A class passes at most one of the emphasis, foreground and background tests. |
| Restyle.AllClassesIdempotent | app/page.tsx:104-114 | Applying the same code to the resulting list gives the same list. |
| Restyle.NewClassDropped | app/page.tsx:104-110 | A second request of the same code filters out the class the first one added. |
| Restyle.ExistingAreTokens | app/page.tsx:89-91 | Every class read from a `className` is a space-free `ansi-` class. |
| Restyle.ExistingOfBuilt | app/page.tsx:89-91 | Reading the `ansi-` classes back out of a built `className` (split on spaces, keep the `ansi-` tokens) gives the list it was built from. |
| Restyle.RestyleIdempotent | app/page.tsx:88-122 | Restyling the span `applyStyle` produced with the same code builds the same `className` again. |
| Serializer.SerializeNode | app/page.tsx:142-177 | One node's export: a text node verbatim, `<br>` as a newline, an element without `ansi-` by its children, a scope by its opening escape, its children under the new frame, `ESC[0m` and the re-assertion; any other node gives nothing. |
| Serializer.SerializeNodes | app/page.tsx:141-178 | The export of a run of nodes: their exports concatenated in order, all under the same top frame. |
| Serializer.Open | app/page.tsx:163 | The opening escape: the new frame's emphasis, then its background for a code of 40 or above and its foreground otherwise. |
| Serializer.Reassert | app/page.tsx:168-173 | After the reset: the restored foreground, then the restored background, each only when set. |
| Serializer.Enter | app/page.tsx:156-160 | The pushed frame copies the top frame and overwrites exactly one field, chosen by range: below 30 emphasis, 30-39 foreground, 40 and above background. A NaN code changes nothing. |
| Serializer.ScopeCode | app/page.tsx:154-155 | An element opens a scope exactly when its `className` contains `ansi-`. |
| Serializer.FirstClassDecides | app/page.tsx:155 | When the name starts with a space-free `ansi-` class, what follows the first space, other `ansi-` classes included, does not change the code. |
| Serializer.ClassTokenCode | app/page.tsx:155 | A space-free `ansi-<t>` class with no second `ansi-` has code `+t`. |
| Serializer.PrintedCodeIsRead | app/page.tsx:155 | `ansi-<n>`, alone or followed by more classes, is read back as the number n. |
| Serializer.OpeningEscape | app/page.tsx:163 | An emphasis scope opens with `ESC[code;inherited-fgm`. A colour scope opens with `ESC[inherited-st;codem`. A NaN scope repeats the inherited emphasis and foreground. |
| Serializer.ReassertOnlyColours | app/page.tsx:168-173 | Nothing follows the reset exactly when the restored frame has neither colour set. With only a background set, it is re-asserted alone. |
| Serializer.TopLevelScopeEndsWithReset | app/page.tsx:164-173 | A scope at the top level ends with `ESC[0m`; nothing follows it. |
| Serializer.TopLevelScope | app/page.tsx:156-173 | A top-level scope prints the unset fields as 2 (`ESC[2;31m` for red, `ESC[1;2m` for bold), then its children, then `ESC[0m`. |
| Serializer.SgrTexts | app/page.tsx:163 | The escapes used above, written out character by character, e.g. `ESC[2;31m`. |
| Serializer.EmphasisLostAfterInnerScope | app/page.tsx:155-173 | Text after a colour scope nested in an emphasis scope follows the inner `ESC[0m` with no escape, so the emphasis is lost there. |
| Serializer.BackgroundReassertedAfterInnerScope | app/page.tsx:155-173 | Text after a foreground scope nested in a background scope is preceded by the re-asserted background `ESC[2;<bg>m`. |
| Serializer.StateStack.constructor | app/page.tsx:137 | The default stack holds the one seed frame. |
| Serializer.StateStack.Push | app/page.tsx:162 | `states.push` appends the frame. |
| Serializer.StateStack.Pop | app/page.tsx:165 | `states.pop` removes the last frame. |
| Serializer.NodesToAnsi | app/page.tsx:135-181 | The loop's output is `SerializeNodes` of the nodes under the frame on top, and the stack is returned unchanged in length and contents. |
| Serializer.NodeToAnsi | app/page.tsx:142-177 | One loop pass: text verbatim, `<br>` as a newline, a non-scope element by its children, a scope by `ScopeToAnsi`; the stack comes back unchanged. |
| Serializer.ScopeToAnsi | app/page.tsx:155-173 | A scope prints the opening escape of the new frame, its children under that frame, `ESC[0m` and the re-assertion of the restored frame; the push is matched by the pop. |
| Serializer.NewFrame | app/page.tsx:156-160 | The three range tests compute `Enter` of the top frame. |
| Serializer.Reassertion | app/page.tsx:168-173 | The two tests after the reset compute `Reassert` of the restored frame. |
| Serializer.ExportBody | app/page.tsx:187 | Calling `nodesToANSI` with its default stack gives `SerializeNodes` under the seed frame. |
| Scopes.BuiltNameCode | app/page.tsx:117-122 | The code read from a built `className` is the code of the first class of its list. |
| Scopes.RestyledSpanCode | app/page.tsx:114 | The new span is read with the code of its first class. When nothing was preserved, that is the requested code. |
| Scopes.NestedRestyleExportsOuterCode | app/page.tsx:104-114 | Restyling, with a code of another channel, a span built under an unstyled parent makes a span that is exported with the first span's code, not the new one. |
| Visible.VisibleNode | app/page.tsx:142-177 | The output of one node, escapes removed, is the node's plain text. |
| Visible.VisibleNodes | app/page.tsx:141-178 | The output of a run of nodes, escapes removed, is their plain text, in order. |
| Visible.VisibleTextIsPlainText | app/page.tsx:135-181 | When no text node holds an ESC character, whatever the styling, the serializer's output with every escape removed is the editor's text. |
| Visible.UnscopedNode | app/page.tsx:142-150 | A node with no scope in it serializes to its plain text. |
| Visible.UnscopedNodes | app/page.tsx:174-176 | A tree with no scope serializes to its plain text, with no escape at all. |
| Copy.Wrap | app/page.tsx:187 | The clipboard text is the opening fence with the language `ansi` and a newline, then the body, then a newline and the closing fence. |
| Copy.WrapUnwrap | app/page.tsx:187 | Unwrapping the clipboard text gives back the body. |
| Copy.UnwrapWrap | app/page.tsx:187 | Any code block that unwraps is the wrapping of what it unwraps to. |
| Copy.MessageIndex | app/page.tsx:204 | The message index is always within the eleven messages, and equals the count while the count is below eleven. |
| Copy.NextCount | app/page.tsx:205 | The count grows by one up to 10 and then stays at 10. |
| Copy.CountAfterCopies | app/page.tsx:205 | After k copies from a fresh page the count is min(k, 10). |
| Copy.MessageOfCopy | app/page.tsx:190-205 | Copy number k (from 0) shows message min(k, 10); every copy from the eleventh on shows "BEYOND GODLIKE!!!!". |
| Copy.CopyButton.constructor | app/page.tsx:57-58 | The button starts with count 0 and message "Copy text as Discord formatted". |
| Copy.CopyButton.HandleCopy | app/page.tsx:184-205 | Without an editor nothing changes. Otherwise the wrapped export goes to the clipboard, the message is picked by the old count, and the count steps to `NextCount`, staying within 0..10. |
| Text.SplitOn | app/page.tsx:90 | `split` with a non-empty separator gives at least one part, at least two exactly when the separator occurs, and no part contains it. |
| Text.JoinSplit | app/page.tsx:90 | Joining the parts of a split with the same separator gives the string back. |
| Text.Join | app/page.tsx:122 | `join`: the parts with the separator between each two neighbours. |
| Text.SplitJoin | app/page.tsx:122 | Splitting a join on a one-character separator that no part contains gives the parts back. |
| Text.ParseInt | app/page.tsx:100 | `parseInt` is a number exactly when the text starts with a digit. |
| Text.ToNumber | app/page.tsx:155 | Unary `+` is a number exactly when the text is all digits; the empty text is 0, so `ansi-` followed by a space reads as code 0. |
| Text.IndexOf | app/page.tsx:154 | The first position where the separator occurs, and none exactly when it occurs nowhere; `includes` is its presence. |
| Text.NatToString | app/page.tsx:113 | A number in a template literal prints as its shortest decimal form: at least one digit, no leading zero, and its decimal value is the number. |
| Text.NumberRoundTrip | app/page.tsx:113 | Printing a code in decimal and reading it back with `+` or `parseInt` gives the code. |

## Left out

- DOM selection and range handling in `applyStyle` is not modelled: `getSelection`, `deleteContents`, `insertNode`, `selectNodeContents`. The class-list rule takes the parent's `className` as a string; an empty name stands for a parent that is not an element or has no class.
- "Reset All" (`innerText = innerText`) is left out. It depends on how the browser renders text.
- The paste sanitizer is left out. It is an event handler working on browser-serialised HTML with JavaScript regular expressions.
- The clipboard write, the two-second `setTimeout` that resets the message (and, through a stale closure, the count), and the Enter-key `execCommand` handler are left out. They are I/O and timers. `HandleCopy` returns the clipboard text instead of writing it.
- React state, JSX, the Mantine UI and `app/layout.tsx` are page chrome and are not part of this model.
- Text.ToNumber models unary `+` on decimal digit strings only. For signs, surrounding whitespace, hexadecimal, exponents, fractions and `Infinity` it gives NaN, where JavaScript gives a number.
- Text.ParseInt reads the leading decimal digits, as `parseInt` does, so `31.5` and `3e1` give 31 and 3. It differs from JavaScript on a leading sign or whitespace, where it gives NaN, and on a `0x` prefix, where it gives 0 and JavaScript the hexadecimal value.
- Text.ToNumber / Text.NatToString: codes are exact naturals. JavaScript numbers are doubles: a code above 2^53 is rounded, and one from 10^21 on prints in exponent form (`ESC[2;1e+23m`). Only a pasted `ansi-` class with at least sixteen digits reaches these cases.
- The plain-text replacement of the selection (app/page.tsx:95-96, 124-125) is not modelled: styled spans inside the selection are dropped by it, and only the immediate parent's classes carry over.
- Channels.PreviewClass does not model JavaScript prototype properties: a code part such as `constructor` finds nothing here, while the object literal would return an inherited function.
- Serializer.StateStack.Pop, Serializer.NodesToAnsi, Serializer.NodeToAnsi and Serializer.ScopeToAnsi require a non-empty stack. The code never calls them otherwise, because the default stack holds the seed and every push is matched by a pop.
- Restyle.RestyleIdempotent and Restyle.AllClassesIdempotent require a code with a channel. A code such as 7 keeps every class and adds another `ansi-7`, so repeating it grows the list; no button offers such a code.
- Scopes.NestedRestyleExportsOuterCode is stated for a parent with no `ansi-` classes and two codes of different channels, the case where the exported code differs from the requested one.
- Restyle requests are modelled as numbers printed in decimal, as the buttons send them; the button strings are exactly those prints.
- Node kinds are modelled as text, `<br>`, an HTML element with its `className`, and any other node (comments, non-HTML elements), which the serializer skips.
