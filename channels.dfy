/**
 * The style channels of the editor and the `ansiClasses` table that maps
 * each SGR code of a style button to the Tailwind class used for the
 * live preview (app/page.tsx:8-30).
 */
module Channels {
  import opened Text

  /** The three independent style channels. */
  datatype Channel = Emphasis | Foreground | Background

  /** The SGR codes the style buttons offer: bold and underline, eight
      foreground colours and eight background colours. */
  const ButtonCodes: set<nat> :=
    {1, 4, 30, 31, 32, 33, 34, 35, 36, 37, 40, 41, 42, 43, 44, 45, 46, 47}

  /** The serializer's reading of a code (app/page.tsx:158-160): below 30
      is emphasis, 30 to 39 foreground, 40 and above background. */
  function ScopeChannel(code: nat): Channel
  {
    if code < 30 then Emphasis else if code < 40 then Foreground else Background
  }

  /** The re-styler's reading of a requested code (app/page.tsx:99-101):
      only 1 and 4 are emphasis, so a code such as 7 belongs to no channel. */
  function RequestChannel(code: nat): Option<Channel>
  {
    if code == 1 || code == 4 then Some(Emphasis)
    else if 30 <= code < 40 then Some(Foreground)
    else if code >= 40 then Some(Background)
    else None
  }

  /** The two readings agree on every code a button can request. */
  lemma {:induction false} ChannelsAgreeOnButtons(code: nat)
    requires code in ButtonCodes
    ensures RequestChannel(code) == Some(ScopeChannel(code))
  {
  }

  /** `ansiClasses`: code (as a string key) to preview class. */
  const AnsiClasses: map<string, string> := map[
    "1" := "font-bold",
    "4" := "underline",
    "30" := "text-[#4f545c]",
    "31" := "text-[#dc322f]",
    "32" := "text-[#859900]",
    "33" := "text-[#b58900]",
    "34" := "text-[#268bd2]",
    "35" := "text-[#d33682]",
    "36" := "text-[#2aa198]",
    "37" := "text-[#ffffff]",
    "40" := "bg-[#002b36]",
    "41" := "bg-[#cb4b16]",
    "42" := "bg-[#586e75]",
    "43" := "bg-[#657b83]",
    "44" := "bg-[#839496]",
    "45" := "bg-[#6c71c4]",
    "46" := "bg-[#93a1a1]",
    "47" := "bg-[#fdf6e3]"
  ]

  /** `ansiClasses[code] || ""`: the preview class of a key, or the empty
      string when the key is missing or absent from the table. */
  function PreviewClass(key: Option<string>): (c: string)
    ensures key.Some? && key.value in AnsiClasses ==> c == AnsiClasses[key.value] && c != ""
    ensures (key.None? || key.value !in AnsiClasses) ==> c == ""
  {
    if key.Some? && key.value in AnsiClasses then AnsiClasses[key.value] else ""
  }

  lemma {:induction false} PrintTwoDigits(code: nat)
    requires 10 <= code < 100
    ensures NatToString(code) == [DigitChar(code / 10), DigitChar(code % 10)]
  {
  }

  /** The table has an entry for a code exactly when a button requests it. */
  lemma {:induction false} TableMatchesButtons(code: nat)
    ensures NatToString(code) in AnsiClasses <==> code in ButtonCodes
  {
    if code in ButtonCodes {
      ButtonIsKey(code);
    }
    if NatToString(code) in AnsiClasses {
      KeyIsButton(code);
    }
  }

  lemma {:induction false} ButtonIsKey(code: nat)
    requires code in ButtonCodes
    ensures NatToString(code) in AnsiClasses
  {
    if code < 10 {
      OneDigitButton(code);
    } else {
      TwoDigitButton(code);
    }
  }

  lemma {:induction false} OneDigitButton(code: nat)
    requires code == 1 || code == 4
    ensures NatToString(code) in AnsiClasses
  {
    assert NatToString(1) == "1" && NatToString(4) == "4";
  }

  lemma {:induction false} TwoDigitButton(code: nat)
    requires 30 <= code <= 37 || 40 <= code <= 47
    ensures NatToString(code) in AnsiClasses
  {
    assert (code / 10 == 3 || code / 10 == 4) && code % 10 <= 7;
    PrintTwoDigits(code);
    TwoDigitKey(NatToString(code));
  }

  /** A two-character key of a tens digit 3 or 4 and a units digit 0 to 7
      is a key of the table. */
  lemma {:induction false} TwoDigitKey(key: string)
    requires |key| == 2 && (key[0] == '3' || key[0] == '4') && '0' <= key[1] <= '7'
    ensures key in AnsiClasses
  {
    assert key == [key[0], key[1]];
  }

  lemma {:induction false} KeyIsButton(code: nat)
    requires NatToString(code) in AnsiClasses
    ensures code in ButtonCodes
  {
    var key := NatToString(code);
    assert code == DecimalValue(key);
    if |key| == 1 {
      assert key == "1" || key == "4";
    } else if key[0] == '3' {
      ForegroundKeyValue(key);
    } else {
      BackgroundKeyValue(key);
    }
  }

  lemma {:induction false} ForegroundKeyValue(key: string)
    requires key in {"30", "31", "32", "33", "34", "35", "36", "37"}
    ensures 30 <= DecimalValue(key) <= 37
  {
  }

  lemma {:induction false} BackgroundKeyValue(key: string)
    requires key in {"40", "41", "42", "43", "44", "45", "46", "47"}
    ensures 40 <= DecimalValue(key) <= 47
  {
  }

  /** A class token that cannot be split by a space and is not an `ansi-`
      class: no space in it, and it does not begin with `a`. */
  predicate IsPreviewToken(c: string)
  {
    (forall i :: 0 <= i < |c| ==> c[i] != ' ') && |c| > 0 && c[0] != 'a'
  }

  lemma {:induction false} PreviewTokenProperties(c: string)
    requires IsPreviewToken(c)
    ensures ' ' !in c && !StartsWith(c, "ansi-")
  {
  }

  /** Every preview class is a single class token that is not itself an
      `ansi-` class. */
  lemma {:induction false} PreviewClassesAreSingleTokens(key: string)
    requires key in AnsiClasses
    ensures ' ' !in AnsiClasses[key] && !StartsWith(AnsiClasses[key], "ansi-")
  {
    var c := AnsiClasses[key];
    assert c in {"font-bold", "underline", "text-[#4f545c]", "text-[#dc322f]",
                 "text-[#859900]", "text-[#b58900]", "text-[#268bd2]", "text-[#d33682]",
                 "text-[#2aa198]", "text-[#ffffff]", "bg-[#002b36]", "bg-[#cb4b16]",
                 "bg-[#586e75]", "bg-[#657b83]", "bg-[#839496]", "bg-[#6c71c4]",
                 "bg-[#93a1a1]", "bg-[#fdf6e3]"};
    assert IsPreviewToken(c);
    PreviewTokenProperties(c);
  }
}
