/**
 * The deterministic parts of the Suno prompt and audio helpers: the vocal
 * description read off the XY pad, the text-to-speech voice, the cut of the
 * generated prompt to the Suno limit, and the payload strip of data URLs.
 */
module Prompt {
  import opened Text
  import opened Wrappers

  // ------------------------------------------------------------ vocal description

  const MaleVocals := "Male vocals"
  const FemaleVocals := "Female vocals"
  const NeutralVocals := "Androgynous/Neutral vocals"
  const LowPitch := ", Low pitch/Deep"
  const HighPitch := ", High pitch/Soprano"

  /** The gender part, chosen by the horizontal pad value. */
  function GenderPart(x: real): string
  {
    if x < -30.0 then MaleVocals else if x > 30.0 then FemaleVocals else NeutralVocals
  }

  /** The pitch suffix, chosen by the vertical pad value. */
  function PitchPart(y: real): string
  {
    if y < -30.0 then LowPitch else if y > 30.0 then HighPitch else ""
  }

  /** `vocalDesc` in `generateSunoPrompt`, built by appending. */
  method VocalDescription(x: real, y: real) returns (desc: string)
    ensures desc == GenderPart(x) + PitchPart(y)
    ensures x < -30.0 ==> StartsWith(desc, MaleVocals)
    ensures x > 30.0 ==> StartsWith(desc, FemaleVocals)
    ensures -30.0 <= x <= 30.0 ==> StartsWith(desc, NeutralVocals)
    ensures EndsWith(desc, LowPitch) <==> y < -30.0
    ensures EndsWith(desc, HighPitch) <==> y > 30.0
  {
    desc := "";
    if x < -30.0 {
      desc := desc + MaleVocals;
    } else if x > 30.0 {
      desc := desc + FemaleVocals;
    } else {
      desc := desc + NeutralVocals;
    }
    var gender := desc;
    if y < -30.0 {
      desc := desc + LowPitch;
    } else if y > 30.0 {
      desc := desc + HighPitch;
    }
    assert desc[..|gender|] == gender;
    PitchSuffixes(gender, y);
  }

  /** No gender part ends with a pitch suffix, and the two suffixes differ in
      their last character, so the suffix of a description tells its pitch. */
  lemma PitchSuffixes(gender: string, y: real)
    requires gender == MaleVocals || gender == FemaleVocals || gender == NeutralVocals
    ensures EndsWith(gender + PitchPart(y), LowPitch) <==> y < -30.0
    ensures EndsWith(gender + PitchPart(y), HighPitch) <==> y > 30.0
  {
    var d := gender + PitchPart(y);
    assert LowPitch[|LowPitch| - 1] == 'p' && HighPitch[|HighPitch| - 1] == 'o';
    assert gender[|gender| - 1] == 's';
    if y < -30.0 {
      assert d[|d| - |LowPitch|..] == LowPitch;
      assert d[|d| - 1] == 'p';
    } else if y > 30.0 {
      assert d[|d| - |HighPitch|..] == HighPitch;
      assert d[|d| - 1] == 'o';
    } else {
      assert d == gender;
    }
  }

  // ------------------------------------------------------------ voice

  /** The voice of `playVoiceSample`; the initial `Zephyr` is always
      overwritten. */
  function VoiceFor(x: real): (voice: string)
    ensures voice == "Charon" <==> x < -20.0
    ensures voice == "Kore" <==> x > 20.0
    ensures voice == "Puck" <==> -20.0 <= x <= 20.0
    ensures voice != "Zephyr"
  {
    if x < -20.0 then "Charon" else if x > 20.0 then "Kore" else "Puck"
  }

  // ------------------------------------------------------------ the generated prompt

  /** Suno's limit on a style prompt, in characters. */
  const MaxPromptLength: nat := 1000

  const ErrorMessage := "エラー: APIキーを確認してください。"

  /** The model's reply: a failure anywhere in the request, or an answer whose
      text may be missing. */
  datatype Reply = Failed | Answered(text: Option<string>)

  /** `response.text?.trim() || ""` */
  function ResponseText(text: Option<string>): string
  {
    match text
    case None => ""
    case Some(t) => Trim(t)
  }

  /** `if (result.length > 1000) result = result.substring(0, 1000)` */
  function Truncated(result: string): (r: string)
    ensures |r| <= MaxPromptLength
    ensures |r| == if |result| <= MaxPromptLength then |result| else MaxPromptLength
    ensures r == result[..|r|]
  {
    if |result| > MaxPromptLength then result[..MaxPromptLength] else result
  }

  /** What `generateSunoPrompt` returns: a failed request yields the error
      message; an answer yields a prefix of its trimmed text of at most the
      limit, the whole trimmed text when that already fits, and nothing when
      the text is missing. */
  function SunoPrompt(reply: Reply): (r: string)
    ensures reply.Failed? ==> r == ErrorMessage
    ensures reply.Answered? ==>
      var t := ResponseText(reply.text);
      |r| <= MaxPromptLength && StartsWith(t, r)
      && (|t| <= MaxPromptLength ==> r == t)
      && (|t| > MaxPromptLength ==> |r| == MaxPromptLength)
    ensures reply == Answered(None) ==> r == ""
  {
    match reply
    case Failed => ErrorMessage
    case Answered(text) => Truncated(ResponseText(text))
  }

  // ------------------------------------------------------------ data URLs

  /** `base64Audio.split(',')[1] || base64Audio`: the field after the first
      comma when it exists and is non-empty, the whole input otherwise. */
  function CleanBase64(s: string): (r: string)
    ensures r == s || (r != "" && NoChar(r, ','))
  {
    var parts := Split(s, ',');
    if |parts| > 1 && parts[1] != "" then parts[1] else s
  }

  /** An input `a,f...` whose first field `a` and second field `f` hold no
      comma, with `f` ended by a comma or the end of the input: the result is
      `f`, or the whole input when `f` is empty. */
  lemma CleanBase64Field(a: string, f: string, rest: string)
    requires NoChar(a, ',') && NoChar(f, ',')
    requires rest == "" || rest[0] == ','
    ensures CleanBase64(a + [','] + f + rest) == if f != "" then f else a + [','] + f + rest
  {
    assert a + [','] + f + rest == a + [','] + (f + rest);
    SplitConcat(a, ',', f + rest);
    if rest == "" {
      assert f + rest == f;
      SplitNoSep(f, ',');
    } else {
      assert f + rest == f + [','] + rest[1..];
      SplitConcat(f, ',', rest[1..]);
    }
  }

  /** Input without a comma is passed through. */
  lemma CleanBase64NoComma(s: string)
    requires NoChar(s, ',')
    ensures CleanBase64(s) == s
  {
    SplitNoSep(s, ',');
  }

  lemma NoCharConcat(a: string, b: string, c: char)
    requires NoChar(a, c) && NoChar(b, c)
    ensures NoChar(a + b, c)
  {
    forall j | 0 <= j < |a + b| ensures (a + b)[j] != c {
      if j >= |a| {
        assert (a + b)[j] == b[j - |a|];
      }
    }
  }

  /** A base64 data URL of RFC 2397 (`data:` media type `;base64,` data): the
      base64 alphabet holds no comma, so a non-empty payload is exactly what
      the strip returns. */
  lemma CleanBase64DataUrl(mediaType: string, payload: string)
    requires NoChar(mediaType, ',') && NoChar(payload, ',')
    requires payload != ""
    ensures CleanBase64("data:" + mediaType + ";base64," + payload) == payload
  {
    var head := "data:" + mediaType + ";base64";
    NoCharConcat("data:", mediaType, ',');
    NoCharConcat("data:" + mediaType, ";base64", ',');
    assert "data:" + mediaType + ";base64," + payload == head + [','] + payload + "";
    CleanBase64Field(head, payload, "");
  }

  /** The image split before a chat message: the data is the field after the
      first comma (missing when there is no comma), the MIME type the part
      between the first `:` and the next `:` within the text before the first
      `;`. */
  function ImageData(image: string): (r: Option<string>)
    ensures r.Some? ==> NoChar(r.value, ',')
    ensures r.None? <==> NoChar(image, ',')
  {
    SplitSingleIff(image, ',');
    var parts := Split(image, ',');
    if |parts| > 1 then Some(parts[1]) else None
  }

  function ImageMimeType(image: string): (r: Option<string>)
    ensures r.Some? ==> NoChar(r.value, ':')
  {
    var parts := Split(Split(image, ';')[0], ':');
    if |parts| > 1 then Some(parts[1]) else None
  }

  /** On an RFC 2397 base64 data URL whose media type holds no `;`, `:` or
      `,`, the split yields the media type and the payload. */
  lemma ImagePartsDataUrl(mediaType: string, payload: string)
    requires NoChar(mediaType, ';') && NoChar(mediaType, ':') && NoChar(mediaType, ',')
    requires NoChar(payload, ',')
    ensures ImageData("data:" + mediaType + ";base64," + payload) == Some(payload)
    ensures ImageMimeType("data:" + mediaType + ";base64," + payload) == Some(mediaType)
  {
    var url := "data:" + mediaType + ";base64," + payload;
    var head := "data:" + mediaType;
    NoCharConcat("data:", mediaType, ',');
    NoCharConcat(head, ";base64", ',');
    assert url == (head + ";base64") + [','] + payload;
    SplitConcat(head + ";base64", ',', payload);
    SplitNoSep(payload, ',');
    NoCharConcat("data:", mediaType, ';');
    assert url == head + [';'] + ("base64," + payload);
    SplitConcat(head, ';', "base64," + payload);
    assert head == "data" + [':'] + mediaType;
    SplitConcat("data", ':', mediaType);
    SplitNoSep(mediaType, ':');
  }
}
