/** The drawing board (components/ImageGenTab.tsx): the recent-prompt history and the
    generate button in its text and sketch modes. */
module ImageGenTab {
  import opened Wrappers
  import opened Utf16
  import opened Lists
  import opened GeminiService

  /** At most this many recent prompts are kept. */
  const HistoryCap: nat := 8

  const StyleSeparator: Str := Units(", ")
  const StyleSuffix: Str := Units(" style, bright colors, happy atmosphere, highly detailed, kid friendly, cute, 8k resolution")
  /** The text sent with a sketch when the enhanced prompt is empty (it never is). */
  const SketchFallback: Str := Units("Colorful, artistic interpretation of this sketch")
  const BrushError: Str := Units("哎呀，画笔断水了，请检查网络或稍后再试。")
  const Cartoon: Str := Units("cartoon")

  // ---------------------------------------------------------------------------
  // Prompt history
  // ---------------------------------------------------------------------------

  /** The earlier prompts other than `p`. */
  function OtherPrompts(history: seq<Str>, p: Str): seq<Str> {
    Filter(history, q => q != p)
  }

  /** `[p, ...history.filter(q => q !== p)].slice(0, 8)`. */
  function SavePrompt(history: seq<Str>, p: Str): (r: seq<Str>)
    ensures 1 <= |r| <= HistoryCap
    ensures r[0] == p
    ensures forall i | 1 <= i < |r| :: r[i] != p && r[i] in history
  {
    var others := OtherPrompts(history, p);
    var r := Take([p] + others, HistoryCap);
    assert forall i | 1 <= i < |r| :: r[i] == others[i - 1];
    r
  }

  /** A prompt already in a history as the tab keeps it (no repeats, at most 8) moves to the
      front, and every other prompt stays, in its order, so the length is unchanged. */
  lemma SavePromptRepeated(history: seq<Str>, p: Str)
    requires NoDuplicates(history) && |history| <= HistoryCap && p in history
    ensures SavePrompt(history, p) == [p] + OtherPrompts(history, p)
    ensures |SavePrompt(history, p)| == |history|
  {
    var k :| 0 <= k < |history| && history[k] == p;
    var before, after := history[..k], history[k + 1..];
    assert history == before + [p] + after;
    forall i | 0 <= i < |before| ensures before[i] != p {
      assert history[i] == before[i];
    }
    forall i | 0 <= i < |after| ensures after[i] != p {
      assert history[k + 1 + i] == after[i];
    }
    FilterDropsOne(before, p, after, q => q != p);
  }

  /** A new prompt goes in front of the whole history; once the history is full, only its
      oldest prompt falls off. */
  lemma SavePromptFresh(history: seq<Str>, p: Str)
    requires |history| <= HistoryCap && p !in history
    ensures SavePrompt(history, p)
         == [p] + history[..if |history| < HistoryCap then |history| else HistoryCap - 1]
  {
    FilterKeepsAll(history, q => q != p);
  }

  /** The saved list has no repeats, and the prompts after the first keep the order they had. */
  lemma SavePromptKeepsOthers(history: seq<Str>, p: Str)
    requires NoDuplicates(history)
    ensures var r := SavePrompt(history, p);
      NoDuplicates(r) && OrderedIn(r[1..], history)
  {
    var others := OtherPrompts(history, p);
    FilterKeepsOrder(history, q => q != p);
    var r := SavePrompt(history, p);
    var tail := r[1..];
    assert tail == others[..|tail|];
    forall i, j | 0 <= i < j < |r| ensures r[i] != r[j] {
      if i > 0 {
        assert r[i] == others[i - 1] && r[j] == others[j - 1];
      }
    }
    forall i, j | 0 <= i < j < |tail| ensures FirstIndex(history, tail[i]) < FirstIndex(history, tail[j]) {
      assert tail[i] == others[i] && tail[j] == others[j];
    }
  }

  /** Saving a prompt already at the front changes nothing. */
  lemma SavePromptAtFront(history: seq<Str>, p: Str)
    requires NoDuplicates(history) && |history| <= HistoryCap && history != [] && history[0] == p
    ensures SavePrompt(history, p) == history
  {
    TailNoDuplicates(history);
    FilterKeepsAll(history[1..], q => q != p);
    assert history == [p] + history[1..];
    FilterAppend([p], history[1..], q => q != p);
  }

  /** Saving `a`, then `b`, then `a` again leaves `[a, b]`: a repeated prompt moves to the front
      instead of being listed twice. */
  lemma SavePromptRepeat(a: Str, b: Str)
    requires a != b
    ensures SavePrompt(SavePrompt(SavePrompt([], a), b), a) == [a, b]
  {
    var h1 := SavePrompt([], a);
    assert h1 == [a];
    var h2 := SavePrompt(h1, b);
    assert OtherPrompts(h1, b) == [a];
    assert h2 == [b, a];
    assert OtherPrompts(h2, a) == [b] by {
      assert h2 == [b] + [a];
      FilterAppend([b], [a], q => q != a);
    }
  }

  /** `"cat"`, `"dog"`, `"cat"` saved in turn leave `["cat", "dog"]`. */
  lemma SaveCatDogCat()
    ensures SavePrompt(SavePrompt(SavePrompt([], Units("cat")), Units("dog")), Units("cat"))
         == [Units("cat"), Units("dog")]
  {
    assert Units("cat")[0] != Units("dog")[0];
    SavePromptRepeat(Units("cat"), Units("dog"));
  }

  // ---------------------------------------------------------------------------
  // Generating
  // ---------------------------------------------------------------------------

  /** `${prompt}, ${style} style, bright colors, …, 8k resolution`: never empty, so the
      sketch fallback text is never used. */
  function EnhancedPrompt(prompt: Str, style: Str): (r: Str)
    ensures r != [] && |r| == |prompt| + |style| + |StyleSeparator| + |StyleSuffix|
    ensures r[..|prompt|] == prompt
  {
    prompt + StyleSeparator + style + StyleSuffix
  }

  /** The `try` block's call: the text prompt, or the sketch with its text when the canvas is
      there (no call otherwise), and what the call yields. */
  method CallProvider(mode: Mode, prompt: Str, style: Str, canvas: Option<Str>, reply: ImageReply)
    returns (request: Option<ImageRequest>, outcome: Option<Result<Str, ServiceError>>)
    ensures mode.TextMode? ==> request == Some(TextImage(EnhancedPrompt(prompt, style)))
    ensures mode.SketchMode? ==>
      request == (if canvas.Some? then Some(SketchRequest(EnhancedPrompt(prompt, style), canvas.value)) else None)
    ensures outcome == if request.Some? then Some(ImageOutcome(reply)) else None
  {
    var enhanced := EnhancedPrompt(prompt, style);
    if mode == TextMode {
      request := Some(TextImage(enhanced));
    } else if canvas.Some? {
      request := Some(SketchRequest(if enhanced != [] then enhanced else SketchFallback, canvas.value));
    } else {
      return None, None;
    }
    var r := GenerateImage(reply);
    outcome := Some(r);
  }

  datatype Mode = TextMode | SketchMode

  class ImageGenTab {
    var mode: Mode
    var prompt: Str
    var style: Str
    var generatedImg: Option<Str>
    var isGenerating: bool
    var error: Str
    var promptHistory: seq<Str>

    /** The history never holds a prompt twice and never more than eight. */
    ghost predicate Valid()
      reads this
    {
      |promptHistory| <= HistoryCap && NoDuplicates(promptHistory)
    }

    /** The component as mounted, before the stored history is read (that read is I/O). */
    constructor ()
      ensures Valid()
      ensures mode == TextMode && prompt == [] && style == Cartoon && generatedImg == None
      ensures !isGenerating && error == [] && promptHistory == []
    {
      mode := TextMode;
      prompt := [];
      style := Cartoon;
      generatedImg := None;
      isGenerating := false;
      error := [];
      promptHistory := [];
    }

    /** The generate button. `canvas` is the sketch as a PNG data URL (missing when the canvas
        is not mounted) and `reply` stands for the provider's answer. Returns the request made. */
    method HandleGenerate(canvas: Option<Str>, reply: ImageReply) returns (request: Option<ImageRequest>)
      requires Valid()
      modifies this
      ensures Valid()
      ensures mode == old(mode) && prompt == old(prompt) && style == old(style)
      ensures mode.TextMode? && IsBlank(prompt) ==>
        && request == None
        && generatedImg == old(generatedImg) && isGenerating == old(isGenerating)
        && error == old(error) && promptHistory == old(promptHistory)
      ensures !(mode.TextMode? && IsBlank(prompt)) ==> !isGenerating
      ensures mode.TextMode? && !IsBlank(prompt) ==>
        && request == Some(TextImage(EnhancedPrompt(prompt, style)))
        && promptHistory == SavePrompt(old(promptHistory), prompt)
      ensures mode.SketchMode? ==>
        && request == (if canvas.Some? then Some(SketchRequest(EnhancedPrompt(prompt, style), canvas.value)) else None)
        && promptHistory == old(promptHistory)
      ensures !(mode.TextMode? && IsBlank(prompt)) && request.Some? ==>
        match ImageOutcome(reply)
        case Success(url) => generatedImg == Some(url) && error == []
        case Failure(_) => generatedImg == old(generatedImg) && error == BrushError
      ensures !(mode.TextMode? && IsBlank(prompt)) && request.None? ==>
        generatedImg == old(generatedImg) && error == []
    {
      if IsBlank(prompt) && mode == TextMode {
        return None;
      }
      request := Generate(canvas, reply);
    }

    /** `handleGenerate` past its guard. */
    method Generate(canvas: Option<Str>, reply: ImageReply) returns (request: Option<ImageRequest>)
      requires Valid()
      modifies this
      ensures Valid()
      ensures mode == old(mode) && prompt == old(prompt) && style == old(style)
      ensures !isGenerating
      ensures mode.TextMode? ==>
        && request == Some(TextImage(EnhancedPrompt(prompt, style)))
        && promptHistory == SavePrompt(old(promptHistory), prompt)
      ensures mode.SketchMode? ==>
        && request == (if canvas.Some? then Some(SketchRequest(EnhancedPrompt(prompt, style), canvas.value)) else None)
        && promptHistory == old(promptHistory)
      ensures request.Some? ==>
        match ImageOutcome(reply)
        case Success(url) => generatedImg == Some(url) && error == []
        case Failure(_) => generatedImg == old(generatedImg) && error == BrushError
      ensures request.None? ==> generatedImg == old(generatedImg) && error == []
    {
      isGenerating := true;
      error := [];
      if mode == TextMode {
        SavePromptKeepsOthers(promptHistory, prompt);
        promptHistory := SavePrompt(promptHistory, prompt);
      }
      var outcome;
      request, outcome := CallProvider(mode, prompt, style, canvas, reply);
      if outcome.Some? {
        match outcome.value
        case Success(url) =>
          generatedImg := Some(url);
        case Failure(_) =>
          error := BrushError;
      }
      isGenerating := false;
    }
  }
}
