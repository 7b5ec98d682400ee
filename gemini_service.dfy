/**
 * The generation service (services/geminiService.ts) without its network calls.
 * Every call to the model provider becomes a parameter holding what the
 * provider answered (or that it rejected); what remains is the shaping of
 * requests and replies: the story parser, the length and tone instructions,
 * the data-URL handling of images, the forwarding of stream chunks and the
 * fallback text of an empty assessment report.
 */
module GeminiService {
  import opened Wrappers
  import opened Utf16
  import opened Lists
  import opened Types

  /** Why a call to the provider produced no result. */
  datatype ServiceError = Rejected | NoImageData

  /** What a single-shot text call returned: a rejection, or a response whose
      `text` may be missing. */
  datatype TextReply = TextRejected | TextAnswered(text: Option<Str>)

  // ---------------------------------------------------------------------------
  // Story generation (generateStory)
  // ---------------------------------------------------------------------------

  const TitleLabel: Str := Units("标题：")
  const MoralLabel: Str := Units("故事里的小道理：")
  const Divider: Str := Units("---")
  const Untitled: Str := Units("无题")
  const FallbackMoral: seq<Str> := [Units("勇敢面对挑战"), Units("相信自己")]
  const Dot: CodeUnit := 0x2E

  const ShortLength: Str := Units("short")
  const LongLength: Str := Units("long")
  const ShortInstruction: Str := Units("目标字数约300-500字。故事要短小精悍，节奏轻快。")
  const LongInstruction: Str := Units("目标字数约1500字。这是一个长篇故事，需要有宏大的世界观、复杂的起承转合。")
  const MediumInstruction: Str := Units("目标字数约800-1000字。标准中篇故事，情节完整。")

  const AdventureTone: Str := Units("adventure")
  const HappyTone: Str := Units("happy")
  const BraveTone: Str := Units("brave")
  const AdventureInstruction: Str := Units("情感基调：【奇幻冒险】。充满想象力、惊险刺激。")
  const HappyInstruction: Str := Units("情感基调：【欢乐有趣】。幽默风趣，结局皆大欢喜。")
  const BraveInstruction: Str := Units("情感基调：【勇敢励志】。刻画主角克服恐惧。")
  const WarmInstruction: Str := Units("情感基调：【温馨治愈】。柔和、温暖，重点描写亲情或友情。")

  /** The instruction on story length that goes into the prompt. */
  function LengthInstruction(length: Str): Str {
    if length == ShortLength then ShortInstruction
    else if length == LongLength then LongInstruction
    else MediumInstruction
  }

  /** The instruction on the story's tone that goes into the prompt. */
  function ToneInstruction(tone: Str): Str {
    if tone == AdventureTone then AdventureInstruction
    else if tone == HappyTone then HappyInstruction
    else if tone == BraveTone then BraveInstruction
    else WarmInstruction
  }

  /** 'short' and 'long' have their own instructions; every other value gets the medium one. */
  lemma LengthInstructionCases(length: Str)
    ensures LengthInstruction(length) == ShortInstruction <==> length == ShortLength
    ensures LengthInstruction(length) == LongInstruction <==> length == LongLength
    ensures LengthInstruction(length) == MediumInstruction <==> length != ShortLength && length != LongLength
  {
    assert ShortInstruction[5] != LongInstruction[5] && ShortInstruction[5] != MediumInstruction[5];
    assert LongInstruction[5] != MediumInstruction[5];
  }

  /** The three named tones have their own instructions; every other value gets the warm one. */
  lemma ToneInstructionCases(tone: Str)
    ensures ToneInstruction(tone) == AdventureInstruction <==> tone == AdventureTone
    ensures ToneInstruction(tone) == HappyInstruction <==> tone == HappyTone
    ensures ToneInstruction(tone) == BraveInstruction <==> tone == BraveTone
    ensures ToneInstruction(tone) == WarmInstruction
            <==> tone != AdventureTone && tone != HappyTone && tone != BraveTone
  {
    var k := 6;
    assert AdventureInstruction[k] != HappyInstruction[k] && AdventureInstruction[k] != BraveInstruction[k];
    assert AdventureInstruction[k] != WarmInstruction[k] && HappyInstruction[k] != BraveInstruction[k];
    assert HappyTone[0] != BraveTone[0] && |AdventureTone| != |BraveTone| && |AdventureTone| != |HappyTone|;
    assert HappyInstruction[k] != WarmInstruction[k] && BraveInstruction[k] != WarmInstruction[k];
  }

  /** What the story prompt is built from; the prompt's fixed wording is not modelled. */
  datatype StoryRequest = StoryRequest(keywords: Str, ageGroup: Str, lengthInstruction: Str, toneInstruction: Str)

  function StoryRequestFor(keywords: Str, ageGroup: Str, length: Str, tone: Str): StoryRequest {
    StoryRequest(keywords, ageGroup, LengthInstruction(length), ToneInstruction(tone))
  }

  lemma LineEndAt(s: Str, from: nat, q: nat)
    requires from <= q < |s| && IsLineTerminator(s[q]) && NoLineTerminator(s[from..q])
    ensures LineEnd(s, from) == q
  {
  }

  /** The first line terminator at or after `from`, or `|s|`: where a regular-expression `.*` stops. */
  function LineEnd(s: Str, from: nat): (q: nat)
    requires from <= |s|
    ensures from <= q <= |s|
    ensures q < |s| ==> IsLineTerminator(s[q])
    ensures forall k | from <= k < q :: !IsLineTerminator(s[k])
    decreases |s| - from
  {
    if from == |s| || IsLineTerminator(s[from]) then from else LineEnd(s, from + 1)
  }

  /** `/标题：(.*?)\n/` matches at `p`: the label starts there and the first line
      terminator after it is a line feed. */
  predicate TitleLineAt(s: Str, p: int) {
    && OccursAt(s, TitleLabel, p)
    && var q := LineEnd(s, p + |TitleLabel|);
    && q < |s| && s[q] == LF
  }

  /** One match of the title pattern: where it starts, its captured group and where it ends. */
  datatype TitleMatch = TitleMatch(index: nat, group: Str, end: nat)

  /** `text.match(/标题：(.*?)\n/)`: the leftmost match, if any. */
  function MatchTitle(s: Str): (m: Option<TitleMatch>)
    ensures m.Some? ==>
      && TitleLineAt(s, m.value.index)
      && m.value.end == LineEnd(s, m.value.index + |TitleLabel|) + 1 <= |s|
      && m.value.group == s[m.value.index + |TitleLabel|..m.value.end - 1]
    ensures forall k | 0 <= k && (m.None? || k < m.value.index) :: !TitleLineAt(s, k)
  {
    match FindTitleFrom(s, 0)
    case None => None
    case Some(p) =>
      var q := LineEnd(s, p + |TitleLabel|);
      Some(TitleMatch(p, s[p + |TitleLabel|..q], q + 1))
  }

  function FindTitleFrom(s: Str, from: nat): (p: Option<nat>)
    ensures p.Some? ==> from <= p.value && TitleLineAt(s, p.value)
    ensures forall k | from <= k && (p.None? || k < p.value) :: !TitleLineAt(s, k)
    decreases |s| + 1 - from
  {
    if from > |s| then None
    else if TitleLineAt(s, from) then Some(from)
    else FindTitleFrom(s, from + 1)
  }

  /** The number of decimal digits `s` starts with. */
  function LeadingDigits(s: Str): (n: nat)
    ensures n <= |s|
    ensures forall i | 0 <= i < n :: IsDigit(s[i])
    ensures n < |s| ==> !IsDigit(s[n])
  {
    if s != [] && IsDigit(s[0]) then 1 + LeadingDigits(s[1..]) else 0
  }

  /** `line.match(/^\d+\./)`. */
  predicate IsNumbered(line: Str) {
    var n := LeadingDigits(line);
    1 <= n < |line| && line[n] == Dot
  }

  /** Removes a leading number, its dot and the white space after them (`^\d+\.\s*`), then trims. */
  function StripNumbering(line: Str): Str {
    Trim(if IsNumbered(line) then TrimStart(AfterNumber(line)) else line)
  }

  /** What follows the leading digits and the character after them. */
  function AfterNumber(line: Str): Str {
    var n := LeadingDigits(line);
    if n < |line| then line[n + 1..] else []
  }

  /** The lines of the moral section that carry a number. */
  function NumberedLines(moralText: Str): (lines: seq<Str>)
    ensures forall i | 0 <= i < |lines| :: IsNumbered(lines[i]) && LF !in lines[i]
    ensures forall line | line in Split(moralText, LF) && IsNumbered(line) :: line in lines
  {
    var parts := Split(moralText, LF);
    var lines := Filter(parts, IsNumbered);
    assert forall i | 0 <= i < |lines| :: LF !in lines[i] by {
      forall i | 0 <= i < |lines| ensures LF !in lines[i] {
        var j :| 0 <= j < |parts| && parts[j] == lines[i];
      }
    }
    lines
  }

  /** A single line (no line feed) contributes itself when it is numbered, nothing otherwise. */
  lemma NumberedLinesOfLine(line: Str)
    requires LF !in line
    ensures NumberedLines(line) == if IsNumbered(line) then [line] else []
  {
    SplitNone(line, LF);
  }

  /** Lines are picked up one at a time, in the order they come: the first line, when it is
      numbered, comes before every numbered line after it. */
  lemma NumberedLinesAppend(first: Str, rest: Str)
    requires LF !in first
    ensures NumberedLines(first + [LF] + rest)
         == (if IsNumbered(first) then [first] else []) + NumberedLines(rest)
  {
    var s := first + [LF] + rest;
    assert s[..|first|] == first && s[|first| + 1..] == rest && s[|first|] == LF;
    SplitAt(s, LF, |first|);
    FilterAppend([first], Split(rest, LF), IsNumbered);
  }

  /** `moralLines.map(...)`: one item per numbered line. */
  function MoralItems(lines: seq<Str>): seq<Str> {
    Map(lines, StripNumbering)
  }

  /** `generateStory`'s parse of the model's free text. It never fails and never
      leaves the list of morals empty. */
  function ParseStory(text: Str): (story: StoryData)
    ensures story.moral != []
  {
    StoryData(StoryTitle(text), StoryContent(text), StoryMoral(text))
  }

  /** The captured group of the first title line, trimmed, or "无题". */
  function StoryTitle(text: Str): Str {
    var m := MatchTitle(text);
    if m.Some? then Trim(m.value.group) else Untitled
  }

  /** Without the moral label: the text less its first title line, trimmed. With it: what lies
      between the end of the title line (or the start) and the label, less its first "---",
      trimmed. */
  function StoryContent(text: Str): Str {
    var m := MatchTitle(text);
    var moralIndex := IndexOf(text, MoralLabel);
    if moralIndex != -1 then
      var afterTitle := if m.Some? then m.value.end else 0;
      Trim(RemoveFirst(Substring(text, afterTitle, moralIndex), Divider))
    else
      Trim(if m.Some? then text[..m.value.index] + text[m.value.end..] else text)
  }

  /** The numbered lines after the moral label, or the fallback when there are none. */
  function StoryMoral(text: Str): (moral: seq<Str>)
    ensures moral != []
  {
    var moralIndex := IndexOf(text, MoralLabel);
    var items := if moralIndex != -1 then MoralItems(NumberedLines(text[moralIndex..])) else [];
    if |items| > 0 then items else FallbackMoral
  }

  /** `generateStory`: a rejected call throws; a missing text parses as "". */
  function GenerateStory(reply: TextReply): (r: Result<StoryData, ServiceError>)
    ensures r.Failure? <==> reply.TextRejected?
    ensures r.Success? ==> r.value.moral != []
  {
    match reply
    case TextRejected => Failure(Rejected)
    case TextAnswered(text) => Success(ParseStory(text.GetOr([])))
  }

  // ---------------------------------------------------------------------------
  // Properties of the story parser
  // ---------------------------------------------------------------------------

  /** `p` is the leftmost position where the title pattern matches. */
  ghost predicate FirstTitleLine(text: Str, p: int) {
    TitleLineAt(text, p) && forall k | 0 <= k < p :: !TitleLineAt(text, k)
  }

  ghost predicate NoTitleLine(text: Str) {
    forall k | 0 <= k :: !TitleLineAt(text, k)
  }

  /** Where the first title line ends (just past its line feed). */
  ghost function TitleLineEnd(text: Str, p: nat): nat
    requires TitleLineAt(text, p)
  {
    LineEnd(text, p + |TitleLabel|) + 1
  }

  lemma FirstTitleLineIsMatch(text: Str, p: nat)
    requires FirstTitleLine(text, p)
    ensures MatchTitle(text) == Some(TitleMatch(p, text[p + |TitleLabel|..TitleLineEnd(text, p) - 1],
                                                TitleLineEnd(text, p)))
  {
  }

  lemma NoTitleLineNoMatch(text: Str)
    requires NoTitleLine(text)
    ensures MatchTitle(text).None?
  {
  }

  /** The title is the trimmed rest of the first line that starts with the label
      and ends with a line feed. */
  lemma TitleOfFirstTitleLine(text: Str, p: nat)
    requires FirstTitleLine(text, p)
    ensures StoryTitle(text) == Trim(text[p + |TitleLabel|..LineEnd(text, p + |TitleLabel|)])
  {
    FirstTitleLineIsMatch(text, p);
  }

  /** Without a title line the title is "无题". */
  lemma UntitledWithoutTitleLine(text: Str)
    requires NoTitleLine(text)
    ensures StoryTitle(text) == Untitled
  {
    NoTitleLineNoMatch(text);
  }

  /** A title never spans lines. */
  lemma TitleIsOneLine(text: Str)
    ensures NoLineTerminator(StoryTitle(text))
  {
    if MatchTitle(text).Some? {
      GroupIsOneLine(text);
      TrimKeepsNoLineTerminator(MatchTitle(text).value.group);
    } else {
      assert Untitled[0] == 0x65E0 && Untitled[1] == 0x9898;
    }
  }

  /** A title carries no white space at either end. */
  lemma TitleIsTrimmed(text: Str)
    ensures var t := StoryTitle(text); t == [] || (!IsSpace(t[0]) && !IsSpace(t[|t| - 1]))
  {
    if MatchTitle(text).None? {
      assert Untitled[0] == 0x65E0 && Untitled[1] == 0x9898;
    }
  }

  lemma GroupIsOneLine(text: Str)
    requires MatchTitle(text).Some?
    ensures NoLineTerminator(MatchTitle(text).value.group)
  {
    var m := MatchTitle(text).value;
    var from := m.index + |TitleLabel|;
    var g := m.group;
    assert g == text[from..LineEnd(text, from)];
    forall j | 0 <= j < |g| ensures !IsLineTerminator(g[j]) {
      assert g[j] == text[from + j];
    }
  }

  lemma TrimKeepsNoLineTerminator(s: Str)
    requires NoLineTerminator(s)
    ensures NoLineTerminator(Trim(s))
  {
    var r := Trim(s);
    var i := TrimIsSlice(s);
    forall j | 0 <= j < |r| ensures !IsLineTerminator(r[j]) {
      assert r[j] == s[i + j];
    }
  }

  /** With no moral label, or no numbered line after it, the morals are the two fallback items. */
  lemma MoralFallback(text: Str)
    requires var m := IndexOf(text, MoralLabel); m < 0 || NumberedLines(text[m..]) == []
    ensures StoryMoral(text) == FallbackMoral
  {
  }

  /** Otherwise the morals are the numbered lines after the label, in order, each with its
      number, its dot and the white space after it cut off and then trimmed; an item that
      is empty after that is kept. */
  lemma MoralItemsOfNumberedLines(text: Str)
    requires IndexOf(text, MoralLabel) >= 0
    requires NumberedLines(text[IndexOf(text, MoralLabel)..]) != []
    ensures var lines := NumberedLines(text[IndexOf(text, MoralLabel)..]);
      var moral := StoryMoral(text);
      && |moral| == |lines|
      && forall i | 0 <= i < |lines| ::
           && IsNumbered(lines[i]) && LF !in lines[i]
           && moral[i] == Trim(AfterNumber(lines[i]))
  {
    var m := IndexOf(text, MoralLabel);
    StrippedNumberedLines(NumberedLines(text[m..]));
  }

  lemma StrippedNumberedLines(lines: seq<Str>)
    requires forall i | 0 <= i < |lines| :: IsNumbered(lines[i])
    ensures var items := MoralItems(lines);
      && |items| == |lines|
      && forall i | 0 <= i < |lines| :: items[i] == Trim(AfterNumber(lines[i]))
  {
    var items := MoralItems(lines);
    forall i | 0 <= i < |lines|
      ensures items[i] == Trim(AfterNumber(lines[i]))
    {
      StripNumberedLine(lines[i]);
    }
  }

  lemma StripNumberedLine(line: Str)
    requires IsNumbered(line)
    ensures StripNumbering(line) == Trim(AfterNumber(line))
  {
    TrimAfterTrimStart(AfterNumber(line));
  }

  lemma TrimAfterTrimStart(s: Str)
    ensures Trim(TrimStart(s)) == Trim(s)
  {
    var t := TrimStart(s);
    assert TrimStart(t) == t;
  }

  /** With neither the moral label nor a title line the content is the whole text, trimmed. */
  lemma ContentOfUnmarkedText(text: Str)
    requires IndexOf(text, MoralLabel) < 0 && NoTitleLine(text)
    ensures StoryContent(text) == Trim(text)
  {
    NoTitleLineNoMatch(text);
  }

  /** With no moral label the content is the text less its first title line, trimmed. */
  lemma ContentWithoutMoralLabel(text: Str, p: nat)
    requires IndexOf(text, MoralLabel) < 0 && FirstTitleLine(text, p)
    ensures StoryContent(text) == Trim(text[..p] + text[TitleLineEnd(text, p)..])
  {
    FirstTitleLineIsMatch(text, p);
  }

  /** With the moral label but no title line, the content is everything before the label,
      with its first "---" removed, trimmed. */
  lemma ContentBeforeMoralLabel(text: Str)
    requires IndexOf(text, MoralLabel) >= 0 && NoTitleLine(text)
    ensures StoryContent(text) == Trim(RemoveFirst(text[..IndexOf(text, MoralLabel)], Divider))
  {
    NoTitleLineNoMatch(text);
  }

  /** With both, the content is what lies between the end of the first title line and the
      label (taken in either order, as `substring` does), with its first "---" removed,
      trimmed. */
  lemma ContentBetweenTitleAndMoralLabel(text: Str, p: nat)
    requires IndexOf(text, MoralLabel) >= 0 && FirstTitleLine(text, p)
    ensures var m := IndexOf(text, MoralLabel); var e := TitleLineEnd(text, p);
      StoryContent(text) == Trim(RemoveFirst(if e <= m then text[e..m] else text[m..e], Divider))
  {
    var m := IndexOf(text, MoralLabel);
    var e := TitleLineEnd(text, p);
    FirstTitleLineIsMatch(text, p);
    assert e <= |text|;
    var between := Substring(text, e, m);
    assert between == if e <= m then text[e..m] else text[m..e];
    assert StoryContent(text) == Trim(RemoveFirst(between, Divider));
  }

  /** Text with neither a title line nor the moral label: "无题", the whole text trimmed,
      and the two fallback morals. */
  lemma ParseUnmarkedText(text: Str)
    requires NoTitleLine(text) && IndexOf(text, MoralLabel) < 0
    ensures ParseStory(text) == StoryData(Untitled, Trim(text), FallbackMoral)
  {
    UntitledWithoutTitleLine(text);
    ContentOfUnmarkedText(text);
  }

  // ---------------------------------------------------------------------------
  // Assessment analysis (analyzeAssessment)
  // ---------------------------------------------------------------------------

  const ReportFallback: Str := Units("无法生成评估报告")

  /** `response.text || "无法生成评估报告"`: a missing or empty text becomes the fallback, so a
      report is never empty. */
  function AnalyzeAssessment(reply: TextReply): (r: Result<Str, ServiceError>)
    ensures r.Failure? <==> reply.TextRejected?
    ensures r.Success? ==> r.value != []
    ensures r.Success? && reply.text.Some? && reply.text.value != [] ==> r.value == reply.text.value
    ensures r.Success? && (reply.text.None? || reply.text.value == []) ==> r.value == ReportFallback
  {
    match reply
    case TextRejected => Failure(Rejected)
    case TextAnswered(text) =>
      assert ReportFallback[0] == 0x65E0;
      Success(if text.Some? && text.value != [] then text.value else ReportFallback)
  }

  // ---------------------------------------------------------------------------
  // Images (generateImage, generateImageFromSketch)
  // ---------------------------------------------------------------------------

  datatype InlineData = InlineData(mimeType: Str, data: Str)

  /** One part of a response: text, inline image data, or both. */
  datatype Part = Part(text: Option<Str>, inlineData: Option<InlineData>)

  /** What an image call returned: a rejection, or the parts of the first candidate
      (none when the response had no candidate or no content). */
  datatype ImageReply = ImageRejected | ImageParts(parts: seq<Part>)

  /** What is sent for an image: a text prompt, or an image with a text. */
  datatype ImageRequest = TextImage(prompt: Str) | SketchImage(image: InlineData, text: Str)

  const DataScheme: Str := Units("data:")
  const Base64Marker: Str := Units(";base64,")
  const PngMime: Str := Units("image/png")
  const PngPrefix: Str := Units("data:image/png;base64,")
  const JpegPrefix: Str := Units("data:image/jpeg;base64,")
  const JpgPrefix: Str := Units("data:image/jpg;base64,")
  const SketchInstruction: Str := Units("Based on this sketch, generate a high-quality, beautiful artistic image. ")

  /** `data:${mimeType};base64,${data}`. */
  function DataUrl(d: InlineData): Str {
    DataScheme + d.mimeType + Base64Marker + d.data
  }

  /** The index of the first part carrying inline data, or `|parts|`. */
  function FirstImageIndex(parts: seq<Part>): (k: nat)
    ensures k <= |parts|
    ensures k < |parts| ==> parts[k].inlineData.Some?
    ensures forall j | 0 <= j < k :: parts[j].inlineData.None?
  {
    if parts == [] then 0
    else if parts[0].inlineData.Some? then 0
    else 1 + FirstImageIndex(parts[1..])
  }

  /** What an image call yields: the data URL of the first inline image, or an error. */
  function ImageOutcome(reply: ImageReply): Result<Str, ServiceError> {
    match reply
    case ImageRejected => Failure(Rejected)
    case ImageParts(parts) =>
      var k := FirstImageIndex(parts);
      if k < |parts| then Success(DataUrl(parts[k].inlineData.value)) else Failure(NoImageData)
  }

  /** The loop over the response's parts with its early return. */
  method ExtractImage(parts: seq<Part>) returns (r: Result<Str, ServiceError>)
    ensures r.Failure? <==> forall j | 0 <= j < |parts| :: parts[j].inlineData.None?
    ensures r.Failure? ==> r.error == NoImageData
    ensures r.Success? ==> exists k | 0 <= k < |parts| ::
      && parts[k].inlineData.Some?
      && (forall j | 0 <= j < k :: parts[j].inlineData.None?)
      && r.value == DataUrl(parts[k].inlineData.value)
  {
    var i := 0;
    while i < |parts|
      invariant 0 <= i <= |parts|
      invariant forall j | 0 <= j < i :: parts[j].inlineData.None?
    {
      if parts[i].inlineData.Some? {
        return Success(DataUrl(parts[i].inlineData.value));
      }
      i := i + 1;
    }
    return Failure(NoImageData);
  }

  /** `generateImage` and `generateImageFromSketch` once the provider has answered. */
  method GenerateImage(reply: ImageReply) returns (r: Result<Str, ServiceError>)
    ensures r == ImageOutcome(reply)
  {
    match reply
    case ImageRejected =>
      r := Failure(Rejected);
    case ImageParts(parts) =>
      r := ExtractImage(parts);
      var k := FirstImageIndex(parts);
      if r.Success? {
        var j :| 0 <= j < |parts| && parts[j].inlineData.Some?
          && (forall i | 0 <= i < j :: parts[i].inlineData.None?)
          && r.value == DataUrl(parts[j].inlineData.value);
        assert j == k;
      }
  }

  /** `imageBase64.replace(/^data:image\/(png|jpeg|jpg);base64,/, '')`. */
  function StripImagePrefix(s: Str): Str {
    if PngPrefix <= s then s[|PngPrefix|..]
    else if JpegPrefix <= s then s[|JpegPrefix|..]
    else if JpgPrefix <= s then s[|JpgPrefix|..]
    else s
  }

  /** One image prefix in front of the data is removed, and only one. */
  lemma StripImagePrefixRemovesOne(prefix: Str, data: Str)
    requires prefix == PngPrefix || prefix == JpegPrefix || prefix == JpgPrefix
    ensures StripImagePrefix(prefix + data) == data
  {
    var s := prefix + data;
    assert prefix <= s;
    assert PngPrefix[11] == 0x70 && JpegPrefix[11] == 0x6A && JpgPrefix[11] == 0x6A;
    assert JpegPrefix[13] == 0x65 && JpgPrefix[13] == 0x67;
    if prefix != PngPrefix {
      assert s[11] == prefix[11];
      assert !(PngPrefix <= s);
    }
    if prefix == JpgPrefix {
      assert s[13] == prefix[13];
      assert !(JpegPrefix <= s);
    }
  }

  /** A string with none of the three prefixes passes unchanged. */
  lemma StripImagePrefixKeepsOthers(s: Str)
    requires !(PngPrefix <= s) && !(JpegPrefix <= s) && !(JpgPrefix <= s)
    ensures StripImagePrefix(s) == s
  {
  }

  /** The request `generateImageFromSketch` sends: the sketch as PNG data, then the text. */
  function SketchRequest(prompt: Str, imageBase64: Str): (req: ImageRequest)
    ensures req.SketchImage? && req.image.mimeType == PngMime
    ensures SketchInstruction <= req.text && req.text[|SketchInstruction|..] == prompt
    ensures req.image.data == StripImagePrefix(imageBase64)
  {
    SketchImage(InlineData(PngMime, StripImagePrefix(imageBase64)), SketchInstruction + prompt)
  }

  // ---------------------------------------------------------------------------
  // Chat streaming (streamChatResponse)
  // ---------------------------------------------------------------------------

  /** One turn of the conversation as the provider receives it. */
  datatype Turn = Turn(role: Role, text: Str)

  /** Everything the stream delivered, empty or missing chunks counted as "". */
  function StreamedText(chunks: seq<Option<Str>>): Str {
    if chunks == [] then [] else chunks[0].GetOr([]) + StreamedText(chunks[1..])
  }

  /** The chunks `onChunk` receives: those whose text is present and not empty, in order.
      Dropping the others does not change the text delivered. */
  function NonEmptyTexts(chunks: seq<Option<Str>>): (r: seq<Str>)
    ensures forall i | 0 <= i < |r| :: r[i] != []
    ensures Flatten(r) == StreamedText(chunks)
  {
    if chunks == [] then []
    else
      var rest := NonEmptyTexts(chunks[1..]);
      if chunks[0].Some? && chunks[0].value != [] then [chunks[0].value] + rest else rest
  }

  lemma {:induction false} NonEmptyTextsAppend(a: seq<Option<Str>>, b: seq<Option<Str>>)
    ensures NonEmptyTexts(a + b) == NonEmptyTexts(a) + NonEmptyTexts(b)
  {
    if a == [] {
      assert a + b == b;
    } else {
      assert (a + b)[0] == a[0] && (a + b)[1..] == a[1..] + b;
      NonEmptyTextsAppend(a[1..], b);
    }
  }

  /** The `for await` loop of `streamChatResponse`: forwards each chunk with a text. */
  method ForwardChunks(chunks: seq<Option<Str>>) returns (forwarded: seq<Str>)
    ensures forwarded == NonEmptyTexts(chunks)
  {
    forwarded := [];
    var i := 0;
    while i < |chunks|
      invariant 0 <= i <= |chunks|
      invariant forwarded == NonEmptyTexts(chunks[..i])
    {
      var chunk := chunks[i];
      NonEmptyTextsAppend(chunks[..i], [chunk]);
      assert chunks[..i + 1] == chunks[..i] + [chunk];
      if chunk.Some? && chunk.value != [] {
        forwarded := forwarded + [chunk.value];
      }
      i := i + 1;
    }
    assert chunks[..i] == chunks;
  }
}
