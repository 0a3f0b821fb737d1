# Suno songwriting assistant: lyric editor, prompt settings and audio helpers

A Dafny model of the deterministic logic inside the songwriting assistant's
React front end and its Gemini service layer:

- **Lyric editor** (`Editor`, `Spacing`, `Merge`). There are two text buffers: the original lyrics and their hiragana reading. A tab selects the buffer being edited.
  - Text entering the editor (a paste or generated lyrics) has its line breaks normalised and doubled. Text leaving it (copy) has pairs of line breaks collapsed.
  - Copying the hiragana tab rebuilds the text. It keeps the original's tag lines and blank lines, and takes the hiragana content lines in order.
  - Tags are spliced in at the caret.
- **Section parser** (`Sections`). The lyrics are cut into sections at every line that the tag regex `/\[(.*?)\]/` matches. The regex is modelled exactly:
  - it finds the leftmost `[` that has a `]` after it with no line terminator in between;
  - the capture ends at the first `]` after that `[`.
- **Prompt settings** (`Selections`). This covers:
  - the texture, genre and instrument selections, with toggling and custom entries;
  - the artist/audio analysis that matches suggestions against a catalog and merges the unmatched ones into the custom lists, deduplicated;
  - the vocal presets.
- **Prompt and audio helpers** (`Prompt`, `Wav`). This covers:
  - the vocal description and text-to-speech voice read off the XY pad;
  - the 1000-character cut of the generated Suno prompt;
  - the payload strip of base64 data URLs (RFC 2397, section 3);
  - the WAV writer. It writes the canonical 44-byte RIFF/WAVE header (Microsoft/IBM Multimedia Programming Interface and Data Specifications 1.0) and 16-bit mono PCM into a byte buffer in place.
- **Tag palette** (`TagPanel`). This covers the bracket wrapping of custom tags and the Japanese category labels.

JavaScript built-ins are written out in `Text`:
- `trim`, with the ECMAScript whitespace and line-terminator set;
- `split` on one character and `join`;
- the global literal `replace`, which matches leftmost and without overlap;
- `substring`, which clamps and swaps its bounds (in `Editor`).

`toLowerCase` is a function parameter `fold`, because its Unicode behaviour is not modelled. Each AI reply, clipboard read or user confirmation is a parameter of the operation that receives it.

Where a comment and the code disagree, the model follows the code. `mergeStructureAndContent` says it falls back to the structure line when the content runs out, but it returns `""`, and so does `Merge.MergedLine`.

Files: `wrappers.dfy`, `text.dfy`, `spacing.dfy`, `merge.dfy`, `sections.dfy`,
`editor.dfy`, `selections.dfy`, `prompt.dfy`, `wav.dfy`, `tagpanel.dfy`.

## Model

| member | source | states |
|---|---|---|
| Merge.MergeStructureAndContent | App.tsx:37-60 | The one-pass merge with a content cursor computes exactly the positional merge `MergeResult`: one emitted line per structure line, joined with line breaks. |
| Merge.QueueOf | App.tsx:40-42 | The content queue is no longer than the content lines. Every queued line is non-empty and does not start with `[`. |
| Merge.MergeSplitsBack | App.tsx:37-60 | Splitting the merged text at line breaks gives back the emitted lines, one per structure line. A queued content line never holds a line break. |
| Merge.MergeLineByLine | App.tsx:45-58 | Line i of the merged text is one of three things. A tag line gives its trimmed form. A blank line gives `""`. The k-th text line gives the k-th queued content line, or `""` once the queue is exhausted. |
| Merge.MergeAlignment | App.tsx:44-58 | Read in order, the merged text lines are the content queue, padded with `""` to the number of structure text lines. Tag and blank lines do not advance the cursor. |
| Merge.MergeExactSupply | App.tsx:44-58 | When the queue has exactly one entry per structure text line, the merged text lines are the whole queue, in order. |
| Merge.UnclosedBracketAsymmetry | App.tsx:42-47 | For `[abc` the two classifications differ: it is a text line of the structure, yet it is filtered out of the content queue. |
| Text.Split | App.tsx:38-40 | `split` yields at least one piece, and no piece holds the separator. |
| Text.SplitJoin | App.tsx:59 | Splitting a joined text gives back the lines when no line holds the separator. |
| Text.JoinSplit | App.tsx:182 | Joining the pieces of a split with the separator gives back the text. |
| Text.JoinSplitIsReplace | App.tsx:182 | `split('\n').join(r)` is the global replace of every line break by `r`. |
| Text.TrimEmptyIff | App.tsx:194 | `trim()` yields `""` exactly when every character is whitespace. |
| Text.TrimIdempotent | App.tsx:330 | Trimming an already trimmed value changes nothing. |
| Spacing.NormalizeLineEndings | App.tsx:181 | `replace(/\r\n/g, '\n')`. What it contributes is stated by Spacing.PastedText, Spacing.CopyAfterPaste and Spacing.CopyAfterAppend. |
| Spacing.DoubleSpace | App.tsx:199 | `replace(/\n/g, '\n\n')`. Its properties are Spacing.DoubleSpaceCounts, Spacing.DoubleSpaceNotIdempotent and its inverse Spacing.CompressDoubleSpace. |
| Spacing.PastedText | App.tsx:181-182 | The stored paste, `split('\n').join('\n\n')` of the CRLF-normalised text, is the text with every line break doubled. |
| Spacing.CompressDoubleSpace | App.tsx:249 | Collapsing `\n\n` to `\n` (left to right, without overlap) after doubling every `\n` gives back exactly the text, blank lines included. |
| Spacing.CopyAfterPaste | App.tsx:181-182 | Copying after a paste yields the pasted text with CRLF normalised. |
| Spacing.Compress | App.tsx:249 | `replace(/\n\n/g, '\n')` on copy never lengthens the text and yields `""` only for `""`. The rest of its behaviour is carried by Spacing.CompressDoubleSpace (it undoes doubling) and Spacing.CompressNoBreak (text without line breaks is kept). |
| Spacing.CompressNoBreak | App.tsx:249 | A text without line breaks is copied unchanged. |
| Spacing.AppendGenerated | App.tsx:197-202 | A null or empty answer yields nothing. Otherwise the result ends with the doubled, normalised answer. A non-empty buffer is kept at the front, followed by exactly `\n\n` and then the answer. An empty buffer gets the answer alone. What a copy gives back is stated by Spacing.CopyAfterAppend. |
| Spacing.CopyAfterAppend | App.tsx:197-202 | For a pasted buffer, a null or empty answer leaves nothing to store. Any other answer copies back as the pasted text, one line break and the normalised lyrics, or as the normalised lyrics alone when the buffer was empty. |
| Spacing.DoubleSpaceCounts | App.tsx:199 | Doubling adds one character per line break and doubles the number of line breaks. |
| Spacing.DoubleSpaceNotIdempotent | App.tsx:199 | Doubling twice differs from doubling once on text with a line break. |
| Editor.SpliceTag | App.tsx:293-296 | `substring(0, start) + tag + substring(end)`, with JavaScript's clamping and swapping of bounds. Its contract is carried by Editor.SpliceSpec and Editor.SpliceUndo. |
| Editor.SpliceSpec | App.tsx:293-306 | For a selection 0 <= start <= end <= length, several things hold. The new text is the prefix, the tag, then the suffix. Prefix and suffix are unchanged. The length changes by the tag length minus the selection length. The tag occupies `[start, start+|tag|)`, which is the new selection. |
| Editor.SpliceUndo | App.tsx:296-299 | Splicing the removed text back over the inserted tag restores the text. |
| Editor.Session.InsertTag | App.tsx:287-311 | The active buffer becomes the splice of the tag at the caret selection. The other buffer is untouched. The returned selection is `[start, start+|tag|)`. |
| Editor.Session.CurrentText | App.tsx:171 | The active tab's buffer (`currentText`). Its contract is carried by Editor.Session.SetCurrentText, Editor.Session.InsertTag and the copy-after-paste lemmas. |
| Editor.Session.SetCurrentText | App.tsx:172-178 | Writes the active buffer and nothing else. |
| Editor.Session.SelectTab | App.tsx:80 | Switches the tab and leaves both buffers alone. |
| Editor.Session.ProcessText | App.tsx:180-191 | The original buffer becomes the normalised, doubled paste. The hiragana buffer becomes the conversion. Edit mode is left. |
| Editor.Session.NativePaste | App.tsx:233-237 | An empty clipboard text changes nothing. Any other text is processed as a paste. |
| Editor.Session.PasteButton | App.tsx:218-231 | Without a clipboard reading API, edit mode is entered and the buffers are kept. A rejected read is caught and changes nothing. A text read is processed as a paste. |
| Editor.Session.GenerateLyrics | App.tsx:193-216 | Blank keywords change nothing. An empty answer is a failure that changes nothing. Otherwise the answer is appended, the conversion stored and the keywords cleared. |
| Editor.Session.Clear | App.tsx:262-275 | Nothing changes when both buffers are empty or the user declines. Otherwise only the active buffer is emptied, and edit mode is entered. |
| Editor.CopyMergeOfDoubleSpaced | App.tsx:243-249 | Merging a doubled structure and then collapsing gives the merge of the undoubled structure. The doubled blank lines add no cursor steps. |
| Editor.Session.CopiedText | App.tsx:239-249 | `handleCopy` as written: on the hiragana tab with an original text, the merge of the original's structure with the hiragana content, and otherwise the text passed in, then collapsed. Its contract is carried by Editor.CopyMergeOfDoubleSpaced and Editor.PromptCopyAsWritten. |
| Editor.Session.CopiedTextFor | App.tsx:749 | The copy per button: the lyric button copies as `handleCopy` does. A prompt button copies the collapsed prompt, whatever the tab. Its contract is carried by Editor.PromptCopyCorrected and the two copy-after-paste lemmas. |
| Editor.PromptCopyAsWritten | App.tsx:1067 | On the hiragana tab with original `a` and no hiragana text, the prompt copy button copies `""` instead of the prompt `p`. |
| Editor.PromptCopyCorrected | App.tsx:1067 | Copied per button, a prompt copies the same in every editor state and a one-line prompt copies as itself. The lyric button keeps the merge. |
| Editor.CopyOriginalAfterPaste | App.tsx:239-249 | On the original tab, copying after a paste yields the normalised pasted text. |
| Editor.CopyHiraganaAfterPaste | App.tsx:239-249 | On the hiragana tab, copying after a paste yields the merge of the normalised pasted text with the hiragana content. |
| Sections.SectionsOf | App.tsx:508-552 | The sections as a function of the text. Its contract is carried by Sections.SectionsEmptyIff, Sections.SectionContentsTrimmed, Sections.SectionTitles and Sections.UntaggedText. |
| Sections.TagMatch | App.tsx:522-525 | `line.match(/\[(.*?)\]/)?.[1]`. Its contract is carried by Sections.TagMatchSpec. |
| Sections.ParseLyricSections | App.tsx:508-552 | Several things hold for the parsed sections. They are `SectionsOf` the original text, or of the hiragana text when the original is empty. They are empty exactly when that text is blank. Every content is trimmed and non-empty. The "Whole Song" fallback is never taken. |
| Sections.ScanLines | App.tsx:515-540 | The line loop with its title/buffer state yields the non-blank opening buffer as "Intro/Start", then one section per tag line. |
| Sections.ScanPending | App.tsx:525-540 | A scan from any state appends to what it has emitted the flush of the open buffer extended by the rest's opening lines, and then the rest's tag sections. |
| Sections.TagMatchSpec | App.tsx:522-524 | `line.match(/\[(.*?)\]/)` succeeds exactly when some `[` has a `]` after it that is reachable without a line terminator. The capture lies between the leftmost such `[` and the first `]` after it. |
| Sections.FindTagSpec | App.tsx:522-524 | The bracket pair found is a match. Its close is the first `]` after the open, and no match starts further left. When none is found, no match exists. |
| Sections.CloseFromSpec | App.tsx:522 | The lazy `.*?]` stops at the first `]`. It fails when no `]` is reachable without crossing a line terminator. |
| Sections.SectionsEmptyIff | App.tsx:509-545 | A text yields no section exactly when it is blank. |
| Sections.SectionContentsTrimmed | App.tsx:528-538 | Every emitted content is trimmed and non-empty. |
| Sections.TagLineNotBlank | App.tsx:527-531 | A buffer opened by a tag line is never blank, and its trimmed content starts with the trimmed tag line. |
| Sections.TagLineOpensSection | App.tsx:525-531 | The tag line at index j opens the section after the j-th label, titled with its capture, and the content of that section starts with that line. |
| Sections.TagSectionTitles | App.tsx:530 | The tag sections are titled with the captured labels, in source order. |
| Sections.SectionTitles | App.tsx:513-540 | The titles are "Intro/Start" when the text before the first tag is not blank, followed by the labels in source order. |
| Sections.UntaggedText | App.tsx:513-538 | A text without tag lines yields only the opening section, whose content is the trimmed text. |
| Selections.Toggle | App.tsx:320-326 | After `toggleSelection` the item is selected exactly when it was not selected before. The rest is carried by Selections.ToggleSpec and Selections.ToggleTwice. |
| Selections.ToggleSpec | App.tsx:320-326 | A present item leaves the list in every occurrence and the other items stay. An absent one is appended at the end. |
| Selections.Remove | App.tsx:322 | `list.filter(i => i !== item)`. Its contract is carried by Selections.RemoveMembers and Selections.RemoveConcat. |
| Selections.RemoveConcat | App.tsx:322 | `filter` works piecewise, so the other items keep their relative order. |
| Selections.RemoveMembers | App.tsx:322 | After `filter`, an item is present exactly when it was present and differs from the removed one. |
| Selections.ToggleTwice | App.tsx:320-326 | Toggling an absent item twice restores the list. |
| Selections.Find | App.tsx:373 | A found entry is in the catalog and folds equal to the suggestion. When nothing is found, no catalog entry folds equal. |
| Selections.FindFirst | App.tsx:373 | `find` returns the first matching catalog entry. |
| Selections.ClassifySuggestions | App.tsx:371-376 | The `forEach` loop yields the matched catalog entries and the unmatched suggestions, each in suggestion order. A found entry counts as a match only when it is truthy (`if (match)`). |
| Selections.ClassifySpec | App.tsx:371-376 | Every suggestion is accounted for exactly once. Matched entries are non-empty catalog entries. The custom ones are exactly the suggestions whose first match is missing or the empty label. Over a catalog without an empty label, they are exactly the suggestions no catalog entry matches. |
| Selections.EmptyLabelIsCustom | App.tsx:374-376 | A suggestion whose first catalog match is the empty label goes to the custom entries, not to the matched ones. |
| Selections.CustomUnion | App.tsx:378 | `Array.from(new Set([...prev, ...add]))` keeps a duplicate-free previous list as it is, at the front. It adds each new item once, in first-occurrence order, and holds exactly the items of both. |
| Selections.DedupIntoSpec | App.tsx:378 | Deduplication keeps the list it started with as a prefix, introduces no duplicates and loses no item. |
| Selections.DedupIntoDistinct | App.tsx:378 | Items without duplicates come through deduplication unchanged. |
| Selections.AppliedSpec | App.tsx:371-379 | After an analysis, the selection holds one entry per suggestion. The custom list is the old list with repeats dropped, followed by the new items it lacked. It has no duplicates and holds exactly the old and the new items. An old list without repeats stays at the front unchanged. |
| Selections.ApplySuggestions | App.tsx:370-379 | The selection becomes the matched entries followed by the unmatched ones, and the custom list becomes the deduplicated union. |
| Selections.PromptSettings.ApplyAnalysisResult | App.tsx:367-404 | The pad takes the analysed values and the textures are always replaced. Genres and instruments are replaced only when the analysis names them. |
| Selections.AddCustom | App.tsx:328-350 | A blank input changes nothing. Otherwise the trimmed input is appended to the custom list and to the selection, and the input is cleared. |
| Selections.PromptSettings.AddCustomItem | App.tsx:328-350 | Applies that rule to one group and leaves the others alone. |
| Selections.PromptSettings.ToggleItem | App.tsx:320-326 | Toggles one group's selection and leaves everything else alone. |
| Selections.PromptSettings.SavePreset | App.tsx:443-459 | A blank name is refused. Otherwise the preset (untrimmed name, pad values, selected textures) is appended and the name field cleared. |
| Selections.PromptSettings.LoadPreset | App.tsx:461-465 | Restores the pad values and the texture selection only. |
| Selections.PromptSettings.DeletePreset | App.tsx:467-472 | With confirmation, removes the presets with that id. Otherwise nothing changes. |
| Selections.RemoveById | App.tsx:469 | `vocalPresets.filter(p => p.id !== id)`. Its contract is carried by Selections.RemoveByIdSpec, Selections.RemoveByIdConcat and Selections.SaveThenDelete. |
| Selections.RemoveByIdSpec | App.tsx:469 | After deletion no preset has the id, and every other preset stays. |
| Selections.RemoveByIdConcat | App.tsx:469 | Deletion works piecewise, so the remaining presets keep their order. |
| Selections.SaveThenDelete | App.tsx:469 | Deleting a preset just saved under a fresh id restores the list. |
| Prompt.VocalDescription | services/geminiService.ts:201-212 | The description starts with "Male vocals" below -30, "Female vocals" above 30, and the neutral part otherwise. It ends with ", Low pitch/Deep" exactly when y < -30 and with ", High pitch/Soprano" exactly when y > 30. |
| Prompt.PitchSuffixes | services/geminiService.ts:210-212 | The suffix of a description determines its pitch band: no gender part ends with a pitch suffix. |
| Prompt.VoiceFor | services/geminiService.ts:441-448 | "Charon" exactly when x < -20, "Kore" exactly when x > 20, "Puck" exactly in between. Never "Zephyr". |
| Prompt.Truncated | services/geminiService.ts:246-248 | The result has at most 1000 characters and is a prefix of the input. An input that already fits is unchanged. |
| Prompt.SunoPrompt | services/geminiService.ts:243-254 | A failure yields the fixed error message. An answer yields a prefix of its trimmed text of at most 1000 characters: the whole text when it fits, and `""` for a missing text. |
| Prompt.CleanBase64 | services/geminiService.ts:163 | The field after the first comma, or the whole input when that field is missing or empty: the result is the input or a non-empty field without a comma. The exact field is given by Prompt.CleanBase64Field, Prompt.CleanBase64NoComma and Prompt.CleanBase64DataUrl. |
| Prompt.CleanBase64Field | services/geminiService.ts:163 | The strip yields the field between the first and second comma when that field is non-empty, and the whole input otherwise. |
| Prompt.CleanBase64NoComma | services/geminiService.ts:163 | Input without a comma is passed through. |
| Prompt.CleanBase64DataUrl | services/geminiService.ts:163 | On a base64 data URL of RFC 2397 with a non-empty payload, the strip yields the payload. |
| Prompt.ImageData | App.tsx:624 | `image.split(',')[1]`: missing exactly when the image holds no comma, and otherwise a field without a comma. |
| Prompt.ImageMimeType | App.tsx:625 | `image.split(';')[0].split(':')[1]`: when present, a field without a `:`. |
| Prompt.ImagePartsDataUrl | App.tsx:624-625 | On a base64 data URL whose media type holds no `;`, `:` or `,`, the split yields the media type and the payload. |
| Wav.CreateWavFile | services/geminiService.ts:386-418 | A fresh buffer of 44 + 2n bytes holds exactly the header followed by the sample bytes. |
| Wav.WriteSamples | services/geminiService.ts:409-415 | The loop with its advancing offset writes the samples from byte 44 on, two bytes each, and keeps the header. |
| Wav.WriteRiffDescriptor | services/geminiService.ts:390-393 | Bytes 0-12 become `RIFF`, the size 36 + 2n, `WAVE`; bytes from 12 on are kept. |
| Wav.WriteFmtChunk | services/geminiService.ts:395-403 | Bytes 12-36 become the `fmt ` chunk; bytes before 12 and from 36 on are kept. |
| Wav.WriteDataChunkHeader | services/geminiService.ts:405-407 | Bytes 36-44 become `data` and the size 2n; bytes before 36 and from 44 on are kept. |
| Wav.WriteString | services/geminiService.ts:420-424 | Byte offset+i becomes the code of character i modulo 256. Only bytes `[offset, offset+|s|)` change. |
| Wav.SetUint16 | services/geminiService.ts:398-403 | Writes the little-endian 16 bits of the value modulo 2^16 and nothing else. |
| Wav.SetUint32 | services/geminiService.ts:392-407 | Writes the little-endian 32 bits of the value modulo 2^32 and nothing else. |
| Wav.SetInt16 | services/geminiService.ts:413 | Writes the two's-complement little-endian bytes of the sample and nothing else. |
| Wav.WavHeaderLayout | services/geminiService.ts:387-407 | The file holds 44 + 2n bytes, and every header field decodes to its canonical value. `RIFF` is at 0, with the size 36 + 2n at 4. Then come `WAVE` and `fmt `, 16, format 1, 1 channel, the rate, 2·rate, the block align 2 and 16 bits. Last are `data` and the size 2n. Sizes beyond 32 bits wrap, as `setUint32` does. |
| Wav.WavSampleAt | services/geminiService.ts:410-415 | Sample i decodes, as a signed little-endian 16-bit value, from bytes 44 + 2i and 45 + 2i. |
| Wav.LE32Decode | services/geminiService.ts:392 | Reading back the four little-endian bytes gives the value modulo 2^32. |
| Wav.LE16DecodeSigned | services/geminiService.ts:413 | Reading back the two bytes of a sample as signed gives the sample. |
| TagPanel.WrapCustomTag | components/TagPanel.tsx:29 | The value is always bracketed. It equals the input exactly when the input already starts with `[` and ends with `]`, and otherwise it is the input in brackets. |
| TagPanel.WrapIdempotent | components/TagPanel.tsx:29 | Wrapping twice is wrapping once. |
| TagPanel.WrapUntrimmed | components/TagPanel.tsx:28-29 | The content is used untrimmed: `" x "` becomes `"[ x ]"` and `" [x]"` becomes `"[ [x]]"`. |
| TagPanel.Palette.AddCustom | components/TagPanel.tsx:27-33 | A blank field inserts nothing and is kept. Otherwise the wrapped content is inserted and the field reset to `""`. |
| TagPanel.CategoryName | components/TagPanel.tsx:17-25 | Each of the four known category names gets its fixed label. Every other name is returned unchanged. |

## Left out

- Every Gemini request is left out: conversion to hiragana, lyric generation, artist and audio analysis, the visual prompts, image generation and chat. So is the client setup. Their answers are parameters (`converted`, `generated`, `Reply`, `Analysis`).
- The prompt text sent to Gemini is left out. It is free text that no logic reads back.
- Browser storage and JSON are left out: presets and the API key in `localStorage`, and `JSON.parse`.
- The `Date.now()` preset id is a parameter of `SavePreset`.
- Base64 decoding (`decodeBase64ToInt16`), `Blob`, `URL`, `Audio` and playback are left out. They are foreign browser APIs with platform byte order.
- UI plumbing is left out: the clipboard, `FileReader`, `confirm`/`alert` (the answer to `confirm` is a parameter), focus, scroll, timers, `requestAnimationFrame` and the button class toggling in `handleCopy`.
- React rendering, themes, the `useEffect` re-parse trigger, the auto-selection of the first section and the panel visibility flags are left out. This includes the closing of the AI lyrics panel after successful generation (`setIsAiLyricsOpen(false)`), which Editor.Session.GenerateLyrics does not model. So is the `isAiLoading`/`isLyricsGenerating` flags' sequencing around the awaited conversions: each handler is modelled as one atomic update with the answers given.
- Prompt.VoiceFor, Prompt.VocalDescription: pad values are reals. JavaScript `NaN` is not modelled; it would fall through to the neutral branches.
- Text.Trim, Wav.WriteString, Prompt.Truncated, Editor.SpliceTag, Editor.Session.InsertTag: strings are sequences of Unicode scalar values, not UTF-16 code units. `substring(0, 1000)`, `charCodeAt` and the caret offsets `selectionStart`/`selectionEnd` (and the returned `start + tag.length`) therefore agree with the source only where no character lies outside the Basic Multilingual Plane; with an emoji before the caret the same numbers name a different place.
- Selections.Find: `toLowerCase` is the abstract parameter `fold`. Its Unicode case mapping is not modelled.
- Wav.WriteString, Wav.SetUint16, Wav.SetUint32, Wav.SetInt16: each requires the write to fit the buffer. `DataView` would throw `RangeError` otherwise, which `createWavFile` never triggers because it sizes the buffer itself. Wav.CreateWavFile takes an integer sample rate; a fractional rate is not modelled.
- Wav.CreateWavFile: the header writes are grouped into three methods, one per chunk, and the sample loop into a fourth. They are called in the source's order.
- The component catalogs (`VOCAL_TEXTURES`, `GENRES`, `EMPHASIS_INSTRUMENTS`) live in constants.ts, which is not part of this model. They are the `Catalogs` parameter.

## Findings

| source | as written | input that shows it | evidently intended | confidence | as-written member | corrected member |
|---|---|---|---|---|---|---|
| App.tsx:1067 | The prompt copy button calls `handleCopy(generatedPrompt, …)`, which replaces its argument by the merged lyrics whenever the hiragana tab is active and the original holds text (App.tsx:244-246). The image and Sora prompt buttons share it. | Hiragana tab, original text `a`, hiragana text empty, prompt `p`: the clipboard gets `""`. | A prompt button copies its prompt; only the lyric button merges. | medium, not executed | Editor.PromptCopyAsWritten | Editor.PromptCopyCorrected |
