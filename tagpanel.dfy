/**
 * The tag palette: the Japanese display names of the tag categories and the
 * custom-tag field, whose content is inserted as a bracketed tag.
 */
module TagPanel {
  import opened Text
  import opened Wrappers

  // ------------------------------------------------------------ category names

  /** The category names the palette knows, paired with their display labels. */
  const CategoryLabels: seq<(string, string)> := [
    ("Structure", "構成 (Structure)"),
    ("Vocals", "ボーカル (Vocals)"),
    ("Instruments", "楽器 (Instruments)"),
    ("Mood & Speed", "ムード・速度 (Mood)")
  ]

  predicate KnownCategory(name: string)
  {
    exists k :: 0 <= k < |CategoryLabels| && CategoryLabels[k].0 == name
  }

  /** `getCategoryName`: a known category gets its fixed label, any other
      name is returned as it is. */
  function CategoryName(name: string): (r: string)
    ensures KnownCategory(name) ==>
      exists k :: 0 <= k < |CategoryLabels| && CategoryLabels[k] == (name, r)
    ensures !KnownCategory(name) ==> r == name
    ensures r != name <==> KnownCategory(name)
  {
    assert CategoryLabels[0].0 == "Structure" && CategoryLabels[1].0 == "Vocals";
    assert CategoryLabels[2].0 == "Instruments" && CategoryLabels[3].0 == "Mood & Speed";
    match name
    case "Structure" => "構成 (Structure)"
    case "Vocals" => "ボーカル (Vocals)"
    case "Instruments" => "楽器 (Instruments)"
    case "Mood & Speed" => "ムード・速度 (Mood)"
    case _ => name
  }

  // ------------------------------------------------------------ custom tags

  predicate Bracketed(s: string)
  {
    StartsWithChar(s, '[') && EndsWithChar(s, ']')
  }

  /** The value inserted for the field content `s`: `s` itself when it
      already starts with `[` and ends with `]`, else `s` in brackets. The
      content is not trimmed. */
  function WrapCustomTag(s: string): (r: string)
    ensures Bracketed(r)
    ensures r == s <==> Bracketed(s)
    ensures r == s || r == "[" + s + "]"
  {
    if Bracketed(s) then s else "[" + s + "]"
  }

  /** Wrapping twice is wrapping once. */
  lemma WrapIdempotent(s: string)
    ensures WrapCustomTag(WrapCustomTag(s)) == WrapCustomTag(s)
  {
  }

  /** Surrounding blanks stay inside the brackets, and a leading blank before
      a bracketed value defeats the pass-through. */
  lemma WrapUntrimmed()
    ensures WrapCustomTag(" x ") == "[ x ]"
    ensures WrapCustomTag(" [x]") == "[ [x]]"
    ensures WrapCustomTag("[x]") == "[x]"
  {
    assert !Bracketed(" x ") && !Bracketed(" [x]");
  }

  /** The palette's custom-tag field. */
  class Palette {
    var customTag: string

    constructor ()
      ensures customTag == ""
    {
      customTag := "";
    }

    /** `handleAddCustom`: a blank field inserts nothing and is left as it
        is; otherwise the wrapped content is handed to the editor's tag
        insertion and the field is cleared. */
    method AddCustom() returns (inserted: Option<string>)
      modifies this
      ensures AllWhitespace(old(customTag)) ==> inserted == None && customTag == old(customTag)
      ensures !AllWhitespace(old(customTag)) ==>
        inserted == Some(WrapCustomTag(old(customTag))) && customTag == ""
    {
      TrimEmptyIff(customTag);
      if Trim(customTag) != "" {
        var val := if StartsWithChar(customTag, '[') && EndsWithChar(customTag, ']')
          then customTag else "[" + customTag + "]";
        inserted := Some(val);
        customTag := "";
      } else {
        inserted := None;
      }
    }
  }
}
