/** The counselling chat (components/ChatTab.tsx): sending a message and streaming the
    reply into a placeholder, the saved-conversation history, and voice dictation. */
module ChatTab {
  import opened Wrappers
  import opened Utf16
  import opened Lists
  import opened Types
  import opened GeminiService

  /** At most this many saved conversations are kept. */
  const SessionCap: nat := 20
  /** A saved conversation's title keeps this many code units of its first question. */
  const TitleWidth: nat := 20

  const Ellipsis: Str := Units("...")
  const NewChatTitle: Str := Units("新对话")
  /** What the reply placeholder shows when the stream fails. */
  const Apology: Str := Units("哎呀，信号好像迷路了，请稍后再试一试哦。")

  const WelcomeId: Str := Units("welcome")
  /** The greeting every conversation starts with (it holds one character outside the BMP). */
  const WelcomeText: Str :=
    Units("小朋友/同学你好呀！我是**康康老师**。") + EncodeChar('🌻') +
    Units("\n\n不论是开心还是难过的事情，你都可以悄悄告诉我。我会像大树洞一样守护你的秘密，也会像好朋友一样陪着你哦！")

  // ---------------------------------------------------------------------------
  // Saved conversations
  // ---------------------------------------------------------------------------

  /** The title of a saved conversation, made from the first question asked in it:
      its first 20 units, with "..." only when something was cut, or "新对话" when empty. */
  function SessionTitle(first: Str): (title: Str)
    ensures title != []
    ensures first == [] ==> title == NewChatTitle
    ensures 0 < |first| <= TitleWidth ==> title == first
    ensures |first| > TitleWidth ==> title == first[..TitleWidth] + Ellipsis
  {
    var head := Take(first, TitleWidth) + (if |first| > TitleWidth then Ellipsis else []);
    if head == [] then NewChatTitle else head
  }

  /** `[s, ...sessions].slice(0, 20)`: newest first, the oldest dropped beyond the cap. */
  function PushSession(sessions: seq<ChatSession>, s: ChatSession): (r: seq<ChatSession>)
    ensures |r| == if |sessions| < SessionCap then |sessions| + 1 else SessionCap
    ensures r[0] == s
    ensures r[1..] == sessions[..|r| - 1]
  {
    var pushed := [s] + sessions;
    assert pushed[1..] == sessions;
    Take(pushed, SessionCap)
  }

  /** Saving never lets the history grow past the cap. */
  lemma PushSessionBounded(sessions: seq<ChatSession>, s: ChatSession)
    requires |sessions| <= SessionCap
    ensures |PushSession(sessions, s)| <= SessionCap
    ensures |sessions| < SessionCap ==> PushSession(sessions, s) == [s] + sessions
  {
    var r := PushSession(sessions, s);
    if |sessions| < SessionCap {
      assert r == [r[0]] + r[1..];
    }
  }

  /** The key `deleteSession` compares. */
  function SessionId(s: ChatSession): Str { s.id }

  // ---------------------------------------------------------------------------
  // Messages and the streamed reply
  // ---------------------------------------------------------------------------

  /** `messages.map(m => m.id === id ? { ...m, content } : m)`. */
  function WithContent(ms: seq<Message>, id: Str, content: Str): seq<Message> {
    seq(|ms|, i requires 0 <= i < |ms| => if ms[i].id == id then ms[i].(content := content) else ms[i])
  }

  /** The history handed to the model: role and text of each message, in order. */
  function History(ms: seq<Message>): seq<Turn> {
    seq(|ms|, i requires 0 <= i < |ms| => Turn(ms[i].role, ms[i].content))
  }

  /** Rewriting the same messages twice keeps only the second text. */
  lemma WithContentTwice(ms: seq<Message>, id: Str, a: Str, b: Str)
    ensures WithContent(WithContent(ms, id, a), id, b) == WithContent(ms, id, b)
  {
    var once := WithContent(ms, id, a);
    assert forall i | 0 <= i < |ms| :: once[i].id == ms[i].id;
  }

  /** When only the last message carries `m.id`, rewriting by id rewrites that message alone. */
  lemma WithContentOfLast(ms: seq<Message>, m: Message, content: Str)
    requires forall i | 0 <= i < |ms| :: ms[i].id != m.id
    ensures WithContent(ms + [m], m.id, content) == ms + [m.(content := content)]
  {
    var r := WithContent(ms + [m], m.id, content);
    assert forall i | 0 <= i < |ms| :: r[i] == ms[i];
  }

  /** The messages after a send, before the reply streams in: the question, then an empty reply. */
  function Sent(before: seq<Message>, text: Str, userId: Str, replyId: Str, now: int): (ms: seq<Message>)
    ensures |ms| == |before| + 2 && ms[..|before|] == before
    ensures ms[|before|] == Message(userId, User, text, now)
    ensures ms[|before| + 1] == Message(replyId, Model, [], now)
  {
    before + [Message(userId, User, text, now), Message(replyId, Model, [], now)]
  }

  /** The messages once the reply is over. Each delivered chunk rewrote every message with the
      reply's id to the text so far; a failure then rewrote them to the apology. */
  function Replied(sent: seq<Message>, replyId: Str, delivered: seq<Str>, failed: bool): seq<Message> {
    if failed then WithContent(sent, replyId, Apology)
    else if delivered == [] then sent
    else WithContent(sent, replyId, Flatten(delivered))
  }

  /** With fresh ids the two new messages are the question and the whole reply (or the
      apology), and everything before them is untouched. */
  lemma RepliedWithFreshIds(before: seq<Message>, text: Str, userId: Str, replyId: Str, now: int,
                            delivered: seq<Str>, failed: bool)
    requires userId != replyId
    requires forall i | 0 <= i < |before| :: before[i].id != replyId
    ensures Replied(Sent(before, text, userId, replyId, now), replyId, delivered, failed)
         == before + [Message(userId, User, text, now),
                      Message(replyId, Model, if failed then Apology else Flatten(delivered), now)]
  {
    var user := Message(userId, User, text, now);
    var placeholder := Message(replyId, Model, [], now);
    var content := if failed then Apology else Flatten(delivered);
    assert Sent(before, text, userId, replyId, now) == (before + [user]) + [placeholder];
    WithContentOfLast(before + [user], placeholder, content);
  }

  /** A recognition result: whether it is final, and its first alternative's transcript. */
  datatype SpeechResult = SpeechResult(isFinal: bool, transcript: Str)

  /** The final transcripts of `results`, in order; interim ones are skipped. */
  function FinalTranscript(results: seq<SpeechResult>): Str {
    if results == [] then []
    else (if results[0].isFinal then results[0].transcript else []) + FinalTranscript(results[1..])
  }

  lemma {:induction false} FinalTranscriptAppend(a: seq<SpeechResult>, b: seq<SpeechResult>)
    ensures FinalTranscript(a + b) == FinalTranscript(a) + FinalTranscript(b)
  {
    if a == [] {
      assert a + b == b;
    } else {
      assert (a + b)[0] == a[0] && (a + b)[1..] == a[1..] + b;
      FinalTranscriptAppend(a[1..], b);
    }
  }

  /** An event with only interim results contributes nothing. */
  lemma {:induction false} InterimOnlyTranscript(results: seq<SpeechResult>)
    requires forall i | 0 <= i < |results| :: !results[i].isFinal
    ensures FinalTranscript(results) == []
  {
    if results != [] {
      InterimOnlyTranscript(results[1..]);
    }
  }

  /** The loop of `onresult`: collects the final transcripts from `resultIndex` onward. */
  method CollectFinalTranscript(results: seq<SpeechResult>, resultIndex: nat) returns (final: Str)
    ensures final == FinalTranscript(results[Clamp(resultIndex, |results|)..])
  {
    final := [];
    var from := Clamp(resultIndex, |results|);
    var i := from;
    while i < |results|
      invariant from <= i <= |results|
      invariant final == FinalTranscript(results[from..i])
    {
      FinalTranscriptAppend(results[from..i], [results[i]]);
      assert results[from..i + 1] == results[from..i] + [results[i]];
      if results[i].isFinal {
        final := final + results[i].transcript;
      }
      i := i + 1;
    }
    assert results[from..i] == results[from..];
  }

  // ---------------------------------------------------------------------------
  // Dictation
  // ---------------------------------------------------------------------------

  /** What the page finds when dictation is switched on. */
  datatype Environment = FileProtocol | NoSpeechApi | SpeechApi(startThrows: bool)

  /** What the toggle tells the recognizer. `StartThenStop`: `start()` threw, so `stop()` followed. */
  datatype RecognizerCommand = NoCommand | Stop | Start | StartThenStop

  /** The alert or toast a handler shows; their wording is not modelled. */
  datatype Notice = Quiet | ProtocolAlert | UnsupportedAlert | ListeningOnToast | ListeningOffToast
                  | PermissionAlert | NetworkToast | NoSpeechToast

  const NotAllowed: Str := Units("not-allowed")
  const PermissionDenied: Str := Units("permission-denied")
  const NetworkError: Str := Units("network")
  const NoSpeech: Str := Units("no-speech")

  /** The notice `onerror` shows for a recognition error code. */
  function ErrorNotice(error: Str): Notice {
    if error == NotAllowed || error == PermissionDenied then PermissionAlert
    else if error == NetworkError then NetworkToast
    else if error == NoSpeech then NoSpeechToast
    else Quiet
  }

  /** Only the four known error codes show anything, and each shows its own notice. */
  lemma ErrorNoticeCases(error: Str)
    ensures ErrorNotice(error) == PermissionAlert <==> error == NotAllowed || error == PermissionDenied
    ensures ErrorNotice(error) == NetworkToast <==> error == NetworkError
    ensures ErrorNotice(error) == NoSpeechToast <==> error == NoSpeech
    ensures ErrorNotice(error) == Quiet <==> error !in {NotAllowed, PermissionDenied, NetworkError, NoSpeech}
  {
    assert |NotAllowed| == 11 && |PermissionDenied| == 17 && |NetworkError| == 7 && |NoSpeech| == 9;
  }

  // ---------------------------------------------------------------------------
  // The component
  // ---------------------------------------------------------------------------

  class ChatTab {
    var messages: seq<Message>
    var input: Str
    var isLoading: bool
    var sessions: seq<ChatSession>
    var isListening: bool
    /** Whether the speech recognizer has been created (it is created on first use). */
    var hasRecognizer: bool

    /** The conversation is never empty (clearing keeps its first message), and the history
        stays within its cap and holds only conversations that were worth saving. */
    ghost predicate Valid()
      reads this
    {
      |messages| >= 1 && |sessions| <= SessionCap &&
      forall i | 0 <= i < |sessions| :: |sessions[i].messages| > 1
    }

    /** The component as mounted: the greeting, an empty input, no history (the stored one is
        loaded by I/O that is not modelled), no recognizer. */
    constructor (now: int)
      ensures Valid()
      ensures messages == [Message(WelcomeId, Model, WelcomeText, now)]
      ensures input == [] && !isLoading && sessions == [] && !isListening && !hasRecognizer
    {
      messages := [Message(WelcomeId, Model, WelcomeText, now)];
      input := [];
      isLoading := false;
      sessions := [];
      isListening := false;
      hasRecognizer := false;
    }

    /** `handleSend(text)` with the model's reply `chunks` (and whether the stream then failed)
        standing in for the network. Returns the request made, if any. */
    method HandleSend(text: Str, userId: Str, replyId: Str, now: int,
                      chunks: seq<Option<Str>>, failed: bool) returns (request: Option<(seq<Turn>, Str)>)
      requires Valid()
      modifies this
      ensures Valid()
      ensures sessions == old(sessions) && isListening == old(isListening) && hasRecognizer == old(hasRecognizer)
      ensures IsBlank(text) || old(isLoading) ==>
        request == None && messages == old(messages) && input == old(input) && isLoading == old(isLoading)
      ensures !IsBlank(text) && !old(isLoading) ==>
        && request == Some((History(old(messages)), text))
        && messages == Replied(Sent(old(messages), text, userId, replyId, now), replyId, NonEmptyTexts(chunks), failed)
        && input == []
        && !isLoading
      ensures !IsBlank(text) && !old(isLoading) && userId != replyId &&
              (forall i | 0 <= i < |old(messages)| :: old(messages)[i].id != replyId) ==>
        messages == old(messages) + [Message(userId, User, text, now),
                                     Message(replyId, Model, if failed then Apology else StreamedText(chunks), now)]
    {
      if IsBlank(text) || isLoading {
        return None;
      }
      var before := messages;
      request := Some((History(before), text));
      BeginSend(text, userId, replyId, now);
      ReceiveReply(Sent(before, text, userId, replyId, now), replyId, chunks, failed);
      if userId != replyId && (forall k | 0 <= k < |before| :: before[k].id != replyId) {
        RepliedWithFreshIds(before, text, userId, replyId, now, NonEmptyTexts(chunks), failed);
      }
    }

    /** The `try`/`catch`/`finally` of a send: the forwarded chunks stream into the placeholder,
        a failure then replaces its text with the apology, and the tab is no longer busy. */
    method ReceiveReply(sent: seq<Message>, replyId: Str, chunks: seq<Option<Str>>, failed: bool)
      requires messages == sent
      modifies this
      ensures messages == Replied(sent, replyId, NonEmptyTexts(chunks), failed)
      ensures !isLoading && input == old(input) && sessions == old(sessions)
      ensures isListening == old(isListening) && hasRecognizer == old(hasRecognizer)
    {
      var delivered := ForwardChunks(chunks);
      StreamInto(sent, replyId, delivered);
      if failed {
        if delivered != [] {
          WithContentTwice(sent, replyId, Flatten(delivered), Apology);
        }
        messages := WithContent(messages, replyId, Apology);
      }
      isLoading := false;
    }

    /** The synchronous start of a send: the question and an empty reply placeholder are
        appended, in that order, the input is cleared and the tab is marked busy. */
    method BeginSend(text: Str, userId: Str, replyId: Str, now: int)
      requires Valid()
      modifies this
      ensures Valid()
      ensures messages == Sent(old(messages), text, userId, replyId, now)
      ensures input == [] && isLoading
      ensures sessions == old(sessions) && isListening == old(isListening) && hasRecognizer == old(hasRecognizer)
    {
      messages := messages + [Message(userId, User, text, now)];
      input := [];
      isLoading := true;
      messages := messages + [Message(replyId, Model, [], now)];
    }

    /** The `onChunk` callback over the chunks delivered: each one extends the reply text and
        rewrites the reply placeholder to it. */
    method StreamInto(sent: seq<Message>, replyId: Str, delivered: seq<Str>)
      requires messages == sent
      modifies this
      ensures messages == if delivered == [] then sent else WithContent(sent, replyId, Flatten(delivered))
      ensures input == old(input) && isLoading == old(isLoading) && sessions == old(sessions)
      ensures isListening == old(isListening) && hasRecognizer == old(hasRecognizer)
    {
      var fullResponse: Str := [];
      var i := 0;
      while i < |delivered|
        invariant 0 <= i <= |delivered|
        invariant fullResponse == Flatten(delivered[..i])
        invariant messages == if i == 0 then sent else WithContent(sent, replyId, fullResponse)
        invariant input == old(input) && isLoading == old(isLoading) && sessions == old(sessions)
        invariant isListening == old(isListening) && hasRecognizer == old(hasRecognizer)
      {
        FlattenAppend(delivered[..i], [delivered[i]]);
        assert delivered[..i + 1] == delivered[..i] + [delivered[i]];
        if i > 0 {
          WithContentTwice(sent, replyId, fullResponse, fullResponse + delivered[i]);
        }
        fullResponse := fullResponse + delivered[i];
        messages := WithContent(messages, replyId, fullResponse);
        i := i + 1;
      }
      assert delivered[..i] == delivered;
    }

    /** The save button: nothing when only the greeting is there; otherwise the conversation,
        titled after its first question, goes to the front of the history. */
    method SaveCurrentSession(id: Str, date: Str) returns (saved: bool)
      requires Valid()
      modifies this
      ensures Valid()
      ensures messages == old(messages) && input == old(input) && isLoading == old(isLoading)
      ensures saved <==> |messages| > 1
      ensures !saved ==> sessions == old(sessions)
      ensures saved ==> sessions == PushSession(old(sessions), ChatSession(id, SessionTitle(messages[1].content), messages, date))
      ensures isListening == old(isListening) && hasRecognizer == old(hasRecognizer)
    {
      if |messages| <= 1 {
        return false;
      }
      var session := ChatSession(id, SessionTitle(messages[1].content), messages, date);
      PushSessionBounded(sessions, session);
      var pushed := PushSession(sessions, session);
      forall i | 0 <= i < |pushed| ensures |pushed[i].messages| > 1 {
        if i > 0 {
          assert pushed[i] == sessions[i - 1];
        }
      }
      sessions := pushed;
      saved := true;
    }

    /** Opening a saved conversation replaces the current one. */
    method LoadSession(session: ChatSession)
      requires Valid() && session in sessions
      modifies this
      ensures Valid()
      ensures messages == session.messages
      ensures input == old(input) && isLoading == old(isLoading) && sessions == old(sessions)
      ensures isListening == old(isListening) && hasRecognizer == old(hasRecognizer)
    {
      messages := session.messages;
    }

    /** The delete button of a saved conversation. */
    method DeleteSession(id: Str)
      requires Valid()
      modifies this
      ensures Valid()
      ensures sessions == Without(old(sessions), SessionId, id)
      ensures messages == old(messages) && input == old(input) && isLoading == old(isLoading)
      ensures isListening == old(isListening) && hasRecognizer == old(hasRecognizer)
    {
      var kept := Without(sessions, SessionId, id);
      forall i | 0 <= i < |kept| ensures |kept[i].messages| > 1 {
        var j :| 0 <= j < |sessions| && sessions[j] == kept[i];
      }
      sessions := kept;
    }

    /** The clear button: back to the first message alone. */
    method Clear()
      requires Valid()
      modifies this
      ensures Valid()
      ensures messages == [old(messages)[0]]
      ensures input == old(input) && isLoading == old(isLoading) && sessions == old(sessions)
      ensures isListening == old(isListening) && hasRecognizer == old(hasRecognizer)
    {
      messages := [messages[0]];
    }

    /** The microphone button. It never sets `isListening` itself: the recognizer's events do. */
    method ToggleVoiceInput(env: Environment) returns (notice: Notice, command: RecognizerCommand)
      modifies this
      ensures env.FileProtocol? ==> notice == ProtocolAlert && command == NoCommand && hasRecognizer == old(hasRecognizer)
      ensures env.NoSpeechApi? ==> notice == UnsupportedAlert && command == NoCommand && hasRecognizer == old(hasRecognizer)
      ensures env.SpeechApi? ==>
        && notice == Quiet
        && hasRecognizer
        && command == (if isListening then Stop else if env.startThrows then StartThenStop else Start)
      ensures isListening == old(isListening) && messages == old(messages) && input == old(input)
      ensures isLoading == old(isLoading) && sessions == old(sessions)
    {
      match env
      case FileProtocol =>
        return ProtocolAlert, NoCommand;
      case NoSpeechApi =>
        return UnsupportedAlert, NoCommand;
      case SpeechApi(startThrows) =>
        hasRecognizer := true;
        notice := Quiet;
        if isListening {
          command := Stop;
        } else if startThrows {
          command := StartThenStop;
        } else {
          command := Start;
        }
    }

    /** The recognizer's `onstart`. */
    method OnStart() returns (notice: Notice)
      modifies this
      ensures isListening && notice == ListeningOnToast
      ensures messages == old(messages) && input == old(input) && isLoading == old(isLoading)
      ensures sessions == old(sessions) && hasRecognizer == old(hasRecognizer)
    {
      isListening := true;
      notice := ListeningOnToast;
    }

    /** The recognizer's `onend`. */
    method OnEnd() returns (notice: Notice)
      modifies this
      ensures !isListening && notice == ListeningOffToast
      ensures messages == old(messages) && input == old(input) && isLoading == old(isLoading)
      ensures sessions == old(sessions) && hasRecognizer == old(hasRecognizer)
    {
      isListening := false;
      notice := ListeningOffToast;
    }

    /** The recognizer's `onerror`. */
    method OnError(error: Str) returns (notice: Notice)
      modifies this
      ensures !isListening && notice == ErrorNotice(error)
      ensures messages == old(messages) && input == old(input) && isLoading == old(isLoading)
      ensures sessions == old(sessions) && hasRecognizer == old(hasRecognizer)
    {
      isListening := false;
      notice := ErrorNotice(error);
    }

    /** The recognizer's `onresult`: final transcripts from `resultIndex` on are appended to the
        input; interim ones never touch it. */
    method OnResult(results: seq<SpeechResult>, resultIndex: nat)
      modifies this
      ensures input == old(input) + FinalTranscript(results[Clamp(resultIndex, |results|)..])
      ensures messages == old(messages) && isLoading == old(isLoading) && sessions == old(sessions)
      ensures isListening == old(isListening) && hasRecognizer == old(hasRecognizer)
    {
      var final := CollectFinalTranscript(results, resultIndex);
      if final != [] {
        input := input + final;
      }
    }
  }
}
