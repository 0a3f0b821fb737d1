/**
 * The selection lists of the prompt generator: vocal textures, genres and
 * emphasised instruments, each with a catalog, a list of custom entries and
 * the current selection; the artist/audio analysis that fills them; and the
 * vocal presets.
 */
module Selections {
  import opened Text
  import opened Wrappers

  // ------------------------------------------------------------ toggling

  /** `list.filter(i => i !== item)` */
  function Remove(list: seq<string>, item: string): seq<string>
  {
    if list == [] then [] else (if list[0] == item then [] else [list[0]]) + Remove(list[1..], item)
  }

  /** `toggleSelection`: a present item is removed, an absent one appended. */
  function Toggle(list: seq<string>, item: string): (r: seq<string>)
    ensures item in r <==> item !in list
  {
    RemoveMembers(list, item);
    if item in list then Remove(list, item) else list + [item]
  }

  /** Removal drops every occurrence of the item and keeps everything else. */
  lemma {:induction false} RemoveMembers(list: seq<string>, item: string)
    ensures forall y :: y in Remove(list, item) <==> y in list && y != item
  {
    if list != [] {
      RemoveMembers(list[1..], item);
      assert list == [list[0]] + list[1..];
    }
  }

  /** Removal works piecewise, so the other items keep their relative order. */
  lemma {:induction false} RemoveConcat(a: seq<string>, b: seq<string>, item: string)
    ensures Remove(a + b, item) == Remove(a, item) + Remove(b, item)
  {
    if a == [] {
      assert a + b == b;
    } else {
      assert (a + b)[0] == a[0] && (a + b)[1..] == a[1..] + b;
      RemoveConcat(a[1..], b, item);
    }
  }

  lemma {:induction false} RemoveAbsent(list: seq<string>, item: string)
    requires item !in list
    ensures Remove(list, item) == list
  {
    if list != [] {
      assert list == [list[0]] + list[1..];
      RemoveAbsent(list[1..], item);
    }
  }

  /** A present item leaves the list in every occurrence; an absent one is
      appended at the end. */
  lemma ToggleSpec(list: seq<string>, item: string)
    ensures item in list ==>
      item !in Toggle(list, item) && forall y :: y != item ==> (y in Toggle(list, item) <==> y in list)
    ensures item !in list ==> Toggle(list, item) == list + [item]
  {
    RemoveMembers(list, item);
  }

  /** Toggling an absent item twice restores the list. */
  lemma ToggleTwice(list: seq<string>, item: string)
    requires item !in list
    ensures Toggle(Toggle(list, item), item) == list
  {
    assert item in list + [item];
    RemoveConcat(list, [item], item);
    RemoveAbsent(list, item);
    assert Remove([item], item) == [];
    assert list + [] == list;
  }

  // ------------------------------------------------------------ catalog match

  /** `catalog.find(c => fold(c) === fold(s))`, where `fold` stands for
      `toLowerCase`. */
  function Find(catalog: seq<string>, s: string, fold: string -> string): (r: Option<string>)
    ensures r.Some? ==> r.value in catalog && fold(r.value) == fold(s)
    ensures r.None? ==> forall c :: c in catalog ==> fold(c) != fold(s)
  {
    if catalog == [] then None
    else if fold(catalog[0]) == fold(s) then Some(catalog[0])
    else Find(catalog[1..], s, fold)
  }

  /** `find` returns the first catalog entry that matches. */
  lemma {:induction false} FindFirst(catalog: seq<string>, s: string, fold: string -> string) returns (i: nat)
    requires Find(catalog, s, fold).Some?
    ensures i < |catalog| && catalog[i] == Find(catalog, s, fold).value
    ensures forall j :: 0 <= j < i ==> fold(catalog[j]) != fold(s)
  {
    if fold(catalog[0]) == fold(s) {
      i := 0;
    } else {
      var k := FindFirst(catalog[1..], s, fold);
      i := k + 1;
    }
  }

  /** `if (match)`: the entry found counts only when it is truthy, so a found
      empty label is no match. */
  predicate Hit(catalog: seq<string>, s: string, fold: string -> string)
  {
    Find(catalog, s, fold).Some? && Find(catalog, s, fold).value != ""
  }

  /** The catalog entries that the suggestions match, in suggestion order. */
  function Matched(catalog: seq<string>, suggestions: seq<string>, fold: string -> string): seq<string>
  {
    if suggestions == [] then []
    else
      var n := |suggestions| - 1;
      Matched(catalog, suggestions[..n], fold)
        + (if Hit(catalog, suggestions[n], fold) then [Find(catalog, suggestions[n], fold).value] else [])
  }

  /** The suggestions no catalog entry matches, in order. */
  function Unmatched(catalog: seq<string>, suggestions: seq<string>, fold: string -> string): seq<string>
  {
    if suggestions == [] then []
    else
      var n := |suggestions| - 1;
      Unmatched(catalog, suggestions[..n], fold)
        + (if !Hit(catalog, suggestions[n], fold) then [suggestions[n]] else [])
  }

  /** The `forEach` of `applyAnalysisResult`: each suggestion becomes its
      catalog entry, or is kept as a custom entry. */
  method ClassifySuggestions(catalog: seq<string>, suggestions: seq<string>, fold: string -> string)
    returns (matched: seq<string>, custom: seq<string>)
    ensures matched == Matched(catalog, suggestions, fold)
    ensures custom == Unmatched(catalog, suggestions, fold)
  {
    matched := [];
    custom := [];
    for i := 0 to |suggestions|
      invariant matched == Matched(catalog, suggestions[..i], fold)
      invariant custom == Unmatched(catalog, suggestions[..i], fold)
    {
      assert suggestions[..i + 1][..i] == suggestions[..i];
      var t := suggestions[i];
      var found := Find(catalog, t, fold);
      if found.Some? && found.value != "" {
        matched := matched + [found.value];
      } else {
        custom := custom + [t];
      }
    }
    assert suggestions[..|suggestions|] == suggestions;
  }

  /** Every suggestion is accounted for exactly once; the matched entries are
      non-empty catalog entries; the custom ones are exactly the suggestions
      that match no catalog entry or whose first match is the empty label, so
      over a catalog without an empty label exactly those matching no entry. */
  lemma {:induction false} ClassifySpec(catalog: seq<string>, suggestions: seq<string>, fold: string -> string)
    ensures |Matched(catalog, suggestions, fold)| + |Unmatched(catalog, suggestions, fold)| == |suggestions|
    ensures forall m :: m in Matched(catalog, suggestions, fold) ==> m in catalog && m != ""
    ensures forall u :: u in Unmatched(catalog, suggestions, fold) <==>
      u in suggestions && (Find(catalog, u, fold).None? || Find(catalog, u, fold).value == "")
    ensures (forall c :: c in catalog ==> c != "") ==>
      forall u :: u in Unmatched(catalog, suggestions, fold) <==>
        u in suggestions && forall c :: c in catalog ==> fold(c) != fold(u)
  {
    if suggestions != [] {
      var n := |suggestions| - 1;
      ClassifySpec(catalog, suggestions[..n], fold);
      assert suggestions == suggestions[..n] + [suggestions[n]];
    }
    if forall c :: c in catalog ==> c != "" {
      forall u | u in suggestions && Find(catalog, u, fold).Some?
        ensures exists c :: c in catalog && fold(c) == fold(u)
      {
        assert Find(catalog, u, fold).value in catalog;
      }
    }
  }

  /** A suggestion whose first catalog match is the empty label is kept as a
      custom entry, as the truthiness test does. */
  lemma EmptyLabelIsCustom(fold: string -> string)
    ensures Matched([""], [""], fold) == []
    ensures Unmatched([""], [""], fold) == [""]
  {
    assert [""][..0] == [];
  }

  // ------------------------------------------------------------ dedup

  predicate NoDups(s: seq<string>)
  {
    forall i, j :: 0 <= i < j < |s| ==> s[i] != s[j]
  }

  /** `Array.from(new Set(...))` continued from `acc`: each item is kept at its
      first occurrence. */
  function DedupInto(acc: seq<string>, s: seq<string>): seq<string>
    decreases |s|
  {
    if s == [] then acc
    else DedupInto(if s[0] in acc then acc else acc + [s[0]], s[1..])
  }

  function Dedup(s: seq<string>): seq<string>
  {
    DedupInto([], s)
  }

  /** The result starts with `acc`, holds no duplicates when `acc` holds none,
      and holds exactly the items of `acc` and `s`. */
  lemma {:induction false} DedupIntoSpec(acc: seq<string>, s: seq<string>)
    ensures |acc| <= |DedupInto(acc, s)| && DedupInto(acc, s)[..|acc|] == acc
    ensures NoDups(acc) ==> NoDups(DedupInto(acc, s))
    ensures forall x :: x in DedupInto(acc, s) <==> x in acc || x in s
    decreases |s|
  {
    if s != [] {
      var next := if s[0] in acc then acc else acc + [s[0]];
      DedupIntoSpec(next, s[1..]);
      assert next[..|acc|] == acc;
      assert s == [s[0]] + s[1..];
    }
  }

  /** Items already without duplicates come through unchanged. */
  lemma {:induction false} DedupIntoDistinct(acc: seq<string>, s: seq<string>)
    requires NoDups(acc + s)
    ensures DedupInto(acc, s) == acc + s
    decreases |s|
  {
    if s != [] {
      forall i | 0 <= i < |acc| ensures acc[i] != s[0] {
        assert acc[i] == (acc + s)[i] && s[0] == (acc + s)[|acc|];
      }
      assert acc + s == (acc + [s[0]]) + s[1..];
      DedupIntoDistinct(acc + [s[0]], s[1..]);
    }
  }

  lemma {:induction false} DedupIntoConcat(acc: seq<string>, a: seq<string>, b: seq<string>)
    ensures DedupInto(acc, a + b) == DedupInto(DedupInto(acc, a), b)
    decreases |a|
  {
    if a == [] {
      assert a + b == b;
    } else {
      assert (a + b)[0] == a[0] && (a + b)[1..] == a[1..] + b;
      DedupIntoConcat(if a[0] in acc then acc else acc + [a[0]], a[1..], b);
    }
  }

  /** The custom list after an analysis: a previous list without duplicates is
      kept as it is, at the front, followed by the new items it lacked, each
      once, in first-occurrence order. */
  lemma CustomUnion(prev: seq<string>, add: seq<string>)
    requires NoDups(prev)
    ensures Dedup(prev + add) == DedupInto(prev, add)
    ensures |prev| <= |Dedup(prev + add)| && Dedup(prev + add)[..|prev|] == prev
    ensures NoDups(Dedup(prev + add))
    ensures forall x :: x in Dedup(prev + add) <==> x in prev || x in add
  {
    DedupIntoConcat([], prev, add);
    assert [] + prev == prev;
    DedupIntoDistinct([], prev);
    DedupIntoSpec(prev, add);
  }

  // ------------------------------------------------------------ pickers

  /** One selection group: the custom-entry input field, the custom entries
      and the current selection. */
  datatype Picker = Picker(input: string, custom: seq<string>, selected: seq<string>)

  datatype Kind = Texture | Genre | Instrument

  /** `addCustomGenre` and its two siblings: a blank input changes nothing;
      otherwise the trimmed input is appended to both lists and the field is
      cleared. */
  function AddCustom(p: Picker): (r: Picker)
    ensures AllWhitespace(p.input) ==> r == p
    ensures !AllWhitespace(p.input) ==>
      r == Picker("", p.custom + [Trim(p.input)], p.selected + [Trim(p.input)])
      && Trim(p.input) != "" && Trim(Trim(p.input)) == Trim(p.input)
  {
    TrimEmptyIff(p.input);
    TrimIdempotent(p.input);
    if Trim(p.input) != "" then Picker("", p.custom + [Trim(p.input)], p.selected + [Trim(p.input)])
    else p
  }

  /** The group after an analysis suggested `suggestions`: the selection is
      the matched catalog entries followed by the unmatched suggestions, and
      these are merged into the custom entries. */
  function Applied(p: Picker, catalog: seq<string>, suggestions: seq<string>, fold: string -> string): Picker
  {
    var custom := Unmatched(catalog, suggestions, fold);
    Picker(p.input, Dedup(p.custom + custom), Matched(catalog, suggestions, fold) + custom)
  }

  method ApplySuggestions(p: Picker, catalog: seq<string>, suggestions: seq<string>, fold: string -> string)
    returns (r: Picker)
    ensures r == Applied(p, catalog, suggestions, fold)
  {
    var newItems, customToAdd := ClassifySuggestions(catalog, suggestions, fold);
    r := Picker(p.input, Dedup(p.custom + customToAdd), newItems + customToAdd);
  }

  /** An applied group selects every suggestion exactly once (as its catalog
      entry or as itself). Its custom list is the earlier list with repeats
      dropped, followed by the new items it lacked: no entry twice, nothing
      lost, and the earlier list itself at the front when it had no repeats
      (the custom adders append without a check, so it may have some). */
  lemma AppliedSpec(p: Picker, catalog: seq<string>, suggestions: seq<string>, fold: string -> string)
    ensures var r := Applied(p, catalog, suggestions, fold);
      var u := Unmatched(catalog, suggestions, fold);
      && |r.selected| == |suggestions|
      && r.custom == DedupInto(Dedup(p.custom), u)
      && |Dedup(p.custom)| <= |r.custom| && r.custom[..|Dedup(p.custom)|] == Dedup(p.custom)
      && NoDups(r.custom)
      && (forall x :: x in r.custom <==> x in p.custom || x in u)
      && (NoDups(p.custom) ==> |p.custom| <= |r.custom| && r.custom[..|p.custom|] == p.custom)
  {
    var u := Unmatched(catalog, suggestions, fold);
    ClassifySpec(catalog, suggestions, fold);
    DedupIntoConcat([], p.custom, u);
    DedupIntoSpec([], p.custom);
    DedupIntoSpec(Dedup(p.custom), u);
    DedupIntoSpec([], p.custom + u);
    if NoDups(p.custom) {
      assert [] + p.custom == p.custom;
      DedupIntoDistinct([], p.custom);
    }
  }

  // ------------------------------------------------------------ presets

  datatype VocalPreset = VocalPreset(id: string, name: string, vocalX: real, vocalY: real, textures: seq<string>)

  /** `vocalPresets.filter(p => p.id !== id)` */
  function RemoveById(presets: seq<VocalPreset>, id: string): seq<VocalPreset>
  {
    if presets == [] then []
    else (if presets[0].id == id then [] else [presets[0]]) + RemoveById(presets[1..], id)
  }

  predicate HasId(presets: seq<VocalPreset>, id: string)
  {
    exists p :: p in presets && p.id == id
  }

  /** Deletion leaves no preset with the id and keeps every other preset. */
  lemma {:induction false} RemoveByIdSpec(presets: seq<VocalPreset>, id: string)
    ensures !HasId(RemoveById(presets, id), id)
    ensures forall p :: p in RemoveById(presets, id) <==> p in presets && p.id != id
  {
    if presets != [] {
      RemoveByIdSpec(presets[1..], id);
      assert presets == [presets[0]] + presets[1..];
    }
  }

  lemma {:induction false} RemoveByIdConcat(a: seq<VocalPreset>, b: seq<VocalPreset>, id: string)
    ensures RemoveById(a + b, id) == RemoveById(a, id) + RemoveById(b, id)
  {
    if a == [] {
      assert a + b == b;
    } else {
      assert (a + b)[0] == a[0] && (a + b)[1..] == a[1..] + b;
      RemoveByIdConcat(a[1..], b, id);
    }
  }

  lemma {:induction false} RemoveByIdAbsent(presets: seq<VocalPreset>, id: string)
    requires !HasId(presets, id)
    ensures RemoveById(presets, id) == presets
  {
    if presets != [] {
      assert presets == [presets[0]] + presets[1..];
      RemoveByIdAbsent(presets[1..], id);
    }
  }

  /** Deleting a preset saved under a fresh id restores the list. */
  lemma SaveThenDelete(presets: seq<VocalPreset>, p: VocalPreset)
    requires !HasId(presets, p.id)
    ensures RemoveById(presets + [p], p.id) == presets
  {
    RemoveByIdConcat(presets, [p], p.id);
    RemoveByIdAbsent(presets, p.id);
    assert RemoveById([p], p.id) == [];
    assert presets + [] == presets;
  }

  // ------------------------------------------------------------ the state

  /** Analysis output: the XY-pad values and the suggested entries; genres and
      instruments may be missing. */
  datatype Analysis = Analysis(
    vocalX: real, vocalY: real,
    textures: seq<string>, genres: Option<seq<string>>, instruments: Option<seq<string>>)

  /** The catalogs the suggestions are matched against. */
  datatype Catalogs = Catalogs(textures: seq<string>, genres: seq<string>, instruments: seq<string>)

  /** The prompt generator's state. */
  class PromptSettings {
    var vocalX: real
    var vocalY: real
    var textures: Picker
    var genres: Picker
    var instruments: Picker
    var vocalPresets: seq<VocalPreset>
    var presetName: string

    constructor ()
      ensures vocalX == 0.0 && vocalY == 0.0
      ensures textures == Picker("", [], []) && genres == Picker("", [], []) && instruments == Picker("", [], [])
      ensures vocalPresets == [] && presetName == ""
    {
      vocalX := 0.0;
      vocalY := 0.0;
      textures := Picker("", [], []);
      genres := Picker("", [], []);
      instruments := Picker("", [], []);
      vocalPresets := [];
      presetName := "";
    }

    function Group(kind: Kind): Picker
      reads this
    {
      match kind
      case Texture => textures
      case Genre => genres
      case Instrument => instruments
    }

    /** Writes one group and nothing else. */
    method SetGroup(kind: Kind, p: Picker)
      modifies this
      ensures Group(kind) == p
      ensures forall k :: k != kind ==> Group(k) == old(Group(k))
      ensures vocalX == old(vocalX) && vocalY == old(vocalY)
      ensures vocalPresets == old(vocalPresets) && presetName == old(presetName)
    {
      match kind
      case Texture => textures := p;
      case Genre => genres := p;
      case Instrument => instruments := p;
    }

    /** A click on a chip: `toggleSelection` on the group's selection. */
    method ToggleItem(kind: Kind, item: string)
      modifies this
      ensures Group(kind) == old(Group(kind)).(selected := Toggle(old(Group(kind)).selected, item))
      ensures forall k :: k != kind ==> Group(k) == old(Group(k))
      ensures vocalX == old(vocalX) && vocalY == old(vocalY)
      ensures vocalPresets == old(vocalPresets) && presetName == old(presetName)
    {
      var p := Group(kind);
      SetGroup(kind, p.(selected := Toggle(p.selected, item)));
    }

    /** `addCustomGenre`, `addCustomTexture`, `addCustomInstrument`. */
    method AddCustomItem(kind: Kind)
      modifies this
      ensures Group(kind) == AddCustom(old(Group(kind)))
      ensures forall k :: k != kind ==> Group(k) == old(Group(k))
      ensures vocalX == old(vocalX) && vocalY == old(vocalY)
      ensures vocalPresets == old(vocalPresets) && presetName == old(presetName)
    {
      var p := Group(kind);
      if Trim(p.input) != "" {
        SetGroup(kind, Picker("", p.custom + [Trim(p.input)], p.selected + [Trim(p.input)]));
      }
    }

    /** `applyAnalysisResult`: the pad takes the analysed values, the texture
        group is always replaced, the genre and instrument groups only when the
        analysis names them. */
    method ApplyAnalysisResult(result: Analysis, catalogs: Catalogs, fold: string -> string)
      modifies this
      ensures vocalX == result.vocalX && vocalY == result.vocalY
      ensures textures == Applied(old(textures), catalogs.textures, result.textures, fold)
      ensures genres == if result.genres.Some?
        then Applied(old(genres), catalogs.genres, result.genres.value, fold) else old(genres)
      ensures instruments == if result.instruments.Some?
        then Applied(old(instruments), catalogs.instruments, result.instruments.value, fold) else old(instruments)
      ensures vocalPresets == old(vocalPresets) && presetName == old(presetName)
    {
      vocalX := result.vocalX;
      vocalY := result.vocalY;
      textures := ApplySuggestions(textures, catalogs.textures, result.textures, fold);
      if result.genres.Some? {
        genres := ApplySuggestions(genres, catalogs.genres, result.genres.value, fold);
      }
      if result.instruments.Some? {
        instruments := ApplySuggestions(instruments, catalogs.instruments, result.instruments.value, fold);
      }
    }

    /** `handleSavePreset`: `id` is the clock-derived identifier. A blank name
        is refused; otherwise the preset, under the untrimmed name, is appended
        and the name field cleared. */
    method SavePreset(id: string) returns (saved: bool)
      modifies this
      ensures saved <==> !AllWhitespace(old(presetName))
      ensures !saved ==> vocalPresets == old(vocalPresets) && presetName == old(presetName)
      ensures saved ==>
        presetName == "" && vocalPresets == old(vocalPresets) + [VocalPreset(id, old(presetName), vocalX, vocalY, textures.selected)]
      ensures vocalX == old(vocalX) && vocalY == old(vocalY)
      ensures textures == old(textures) && genres == old(genres) && instruments == old(instruments)
    {
      TrimEmptyIff(presetName);
      if Trim(presetName) == "" {
        return false;
      }
      var newPreset := VocalPreset(id, presetName, vocalX, vocalY, textures.selected);
      vocalPresets := vocalPresets + [newPreset];
      presetName := "";
      saved := true;
    }

    /** `handleLoadPreset` */
    method LoadPreset(preset: VocalPreset)
      modifies this
      ensures vocalX == preset.vocalX && vocalY == preset.vocalY
      ensures textures == old(textures).(selected := preset.textures)
      ensures genres == old(genres) && instruments == old(instruments)
      ensures vocalPresets == old(vocalPresets) && presetName == old(presetName)
    {
      vocalX := preset.vocalX;
      vocalY := preset.vocalY;
      textures := textures.(selected := preset.textures);
    }

    /** `handleDeletePreset`, given the user's answer to the confirmation. */
    method DeletePreset(id: string, confirmed: bool)
      modifies this
      ensures vocalPresets == if confirmed then RemoveById(old(vocalPresets), id) else old(vocalPresets)
      ensures vocalX == old(vocalX) && vocalY == old(vocalY) && presetName == old(presetName)
      ensures textures == old(textures) && genres == old(genres) && instruments == old(instruments)
    {
      if !confirmed {
        return;
      }
      vocalPresets := RemoveById(vocalPresets, id);
    }
  }
}
