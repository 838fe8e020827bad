/** The chat widget's state and its event handlers: sending a message
    (`handleSendMessage`), the delayed assistant reply scheduled by it,
    the voice and keyboard bindings, and the mode and input setters. */
module Session {
  import opened Wrappers
  import opened Strings
  import opened Responses

  /** The clock reading `Date.now()`, in milliseconds. Unbounded here;
      real readings stay below 8.64e15. */
  type Millis = nat

  /** A chat message. The timestamp is the clock reading at creation. */
  datatype Message = Message(id: string, text: string, isUser: bool, timestamp: Millis, mode: Option<Mode>)

  /** A reply timer that has been scheduled and has not fired yet: what it
      captured at send time. */
  datatype Pending = Pending(text: string, mode: Mode)

  const WelcomeText: string :=
    "Hello! I'm B, your ultimate personal intelligence assistant. I'm here to help you with studying, device control, research, and general assistance. How can I help you today?"

  /** Number of messages sent by the user. */
  function Asked(ms: seq<Message>): nat {
    if ms == [] then 0 else Asked(ms[..|ms| - 1]) + (if ms[|ms| - 1].isUser then 1 else 0)
  }

  /** Number of messages written by the assistant. */
  function Answered(ms: seq<Message>): nat {
    if ms == [] then 0 else Answered(ms[..|ms| - 1]) + (if ms[|ms| - 1].isUser then 0 else 1)
  }

  /** Every message is either the user's or the assistant's. */
  lemma {:induction false} AskedPlusAnswered(ms: seq<Message>)
    ensures Asked(ms) + Answered(ms) == |ms|
  {
    if ms != [] {
      AskedPlusAnswered(ms[..|ms| - 1]);
    }
  }

  /** Every user message is matched by one reply, delivered or still
      scheduled: besides the welcome message, the messages and the
      scheduled replies come two per user message. */
  lemma MessageCount(ms: seq<Message>, ps: seq<Pending>, loading: bool)
    requires Consistent(ms, ps, loading)
    ensures |ms| + |ps| == 2 * Asked(ms) + 1
    ensures Answered(ms) == Asked(ms) + 1 - |ps|
  {
    AskedPlusAnswered(ms);
  }

  /** Appending one message adds one to exactly one of the two counts. */
  lemma CountsAppend(ms: seq<Message>, m: Message)
    ensures Asked(ms + [m]) == Asked(ms) + (if m.isUser then 1 else 0)
    ensures Answered(ms + [m]) == Answered(ms) + (if m.isUser then 0 else 1)
  {
    assert (ms + [m])[..|ms|] == ms;
  }

  /** `text || inputText.trim()`: an explicit, non-empty text is taken as it
      is; otherwise the typed input, trimmed. */
  function MessageText(text: Option<string>, input: string): (r: string)
    ensures text.Some? && text.value != "" ==> r == text.value
    ensures (text == None || text == Some("")) ==> r == Trim(input)
    ensures r == "" <==> (text == None || text == Some("")) && IsBlank(input)
  {
    TrimEmpty(input);
    if text.Some? && text.value != "" then text.value else Trim(input)
  }

  /** `e.key === 'Enter' && !e.shiftKey`. */
  predicate IsSendKey(key: string, shift: bool) {
    key == "Enter" && !shift
  }

  /** The widget's invariant. The welcome message comes first and has no
      mode; every later message has one; a loading indicator implies a
      scheduled reply; no scheduled reply is for an empty text; every user
      message is answered or has its reply scheduled. */
  ghost predicate Consistent(messages: seq<Message>, pending: seq<Pending>, isLoading: bool) {
    && |messages| >= 1
    && messages[0].id == "1" && messages[0].text == WelcomeText
    && !messages[0].isUser && messages[0].mode == None
    && (forall i :: 1 <= i < |messages| ==> messages[i].mode.Some?)
    && (isLoading ==> pending != [])
    && (forall p :: p in pending ==> p.text != "")
    && Asked(messages) + 1 == Answered(messages) + |pending|
  }

  /** A send keeps the invariant: one more user message, one more reply
      scheduled, and the loading indicator on. */
  lemma SendKeepsConsistent(ms: seq<Message>, ps: seq<Pending>, loading: bool, m: Message, p: Pending)
    requires Consistent(ms, ps, loading)
    requires m.isUser && m.mode.Some? && p.text != ""
    ensures Consistent(ms + [m], ps + [p], true)
  {
    CountsAppend(ms, m);
  }

  /** A delivery keeps the invariant: one more reply, one timer fewer, and
      the loading indicator off. */
  lemma DeliverKeepsConsistent(ms: seq<Message>, ps: seq<Pending>, loading: bool, i: nat, m: Message)
    requires Consistent(ms, ps, loading) && i < |ps|
    requires !m.isUser && m.mode.Some?
    ensures Consistent(ms + [m], ps[..i] + ps[i + 1..], false)
  {
    CountsAppend(ms, m);
    assert ps == ps[..i] + [ps[i]] + ps[i + 1..];
  }

  class ChatInterface {
    var messages: seq<Message>
    var inputText: string
    var currentMode: Mode
    var isLoading: bool
    /** The reply timers scheduled and not yet fired, in scheduling order. */
    var pending: seq<Pending>

    ghost predicate Valid()
      reads this
    {
      Consistent(messages, pending, isLoading)
    }

    /** The state a freshly rendered widget starts in. */
    constructor (now: Millis)
      ensures Valid()
      ensures messages == [Message("1", WelcomeText, false, now, None)]
      ensures inputText == "" && currentMode == Chat && !isLoading && pending == []
    {
      var welcome := Message("1", WelcomeText, false, now, None);
      CountsAppend([], welcome);
      assert [] + [welcome] == [welcome];
      messages := [welcome];
      inputText := "";
      currentMode := Chat;
      isLoading := false;
      pending := [];
    }

    /** Nothing at all changed. */
    twostate predicate Unchanged()
      reads this
    {
      && messages == old(messages) && inputText == old(inputText)
      && currentMode == old(currentMode) && isLoading == old(isLoading)
      && pending == old(pending)
    }

    /** The effect of `handleSendMessage(text)` at clock reading `now`. */
    twostate predicate SendOutcome(text: Option<string>, now: Millis)
      reads this
    {
      var t := MessageText(text, old(inputText));
      if t == "" then Unchanged()
      else
        && messages == old(messages) + [Message(DecimalString(now), t, true, now, Some(old(currentMode)))]
        && pending == old(pending) + [Pending(t, old(currentMode))]
        && inputText == "" && isLoading && currentMode == old(currentMode)
    }

    /** `handleSendMessage`: unless the text to send is empty, append the
        user's message tagged with the current mode, clear the input, show
        the loading indicator and schedule the reply. */
    method Send(text: Option<string>, now: Millis)
      requires Valid()
      modifies this
      ensures Valid()
      ensures SendOutcome(text, now)
    {
      var t := MessageText(text, inputText);
      if t == "" {
        return;
      }
      var m := Message(DecimalString(now), t, true, now, Some(currentMode));
      SendKeepsConsistent(messages, pending, isLoading, m, Pending(t, currentMode));
      messages := messages + [m];
      inputText := "";
      isLoading := true;
      pending := pending + [Pending(t, currentMode)];
    }

    /** The timer callback of pending reply `i`: append the assistant's
        reply to the captured text, tagged with the mode captured at send
        time, and clear the loading indicator. Delays are random, so any
        scheduled timer may be the next to fire; `k` is the template index
        the reply generator draws. */
    method Deliver(i: nat, k: nat, now: Millis)
      requires Valid()
      requires i < |pending| && k < 3
      modifies this
      ensures Valid()
      ensures var p := old(pending[i]);
        messages == old(messages) + [Message(DecimalString(now + 1), Respond(p.text, p.mode, k), false, now, Some(p.mode))]
      ensures pending == old(pending[..i] + pending[i + 1..])
      ensures !isLoading && inputText == old(inputText) && currentMode == old(currentMode)
    {
      var p := pending[i];
      var m := Message(DecimalString(now + 1), Respond(p.text, p.mode, k), false, now, Some(p.mode));
      DeliverKeepsConsistent(messages, pending, isLoading, i, m);
      messages := messages + [m];
      pending := pending[..i] + pending[i + 1..];
      isLoading := false;
    }

    /** `handleVoiceResult`: a transcript that is only white space sends
        nothing; any other is sent exactly as heard, untrimmed. */
    method VoiceResult(transcript: string, now: Millis)
      requires Valid()
      modifies this
      ensures Valid()
      ensures IsBlank(transcript) ==> Unchanged()
      ensures !IsBlank(transcript) ==>
        && messages == old(messages) + [Message(DecimalString(now), transcript, true, now, Some(old(currentMode)))]
        && pending == old(pending) + [Pending(transcript, old(currentMode))]
        && inputText == "" && isLoading && currentMode == old(currentMode)
    {
      TrimEmpty(transcript);
      if Trim(transcript) != "" {
        Send(Some(transcript), now);
      }
    }

    /** `handleKeyPress` on the text input, which is disabled, and so gets
        no key events, while a reply is loading: Enter without Shift sends
        the typed input; any other key, and Shift+Enter, does nothing. */
    method KeyPress(key: string, shift: bool, now: Millis)
      requires Valid()
      modifies this
      ensures Valid()
      ensures IsSendKey(key, shift) && !old(isLoading) ==> SendOutcome(None, now)
      ensures !IsSendKey(key, shift) || old(isLoading) ==> Unchanged()
    {
      if !isLoading && key == "Enter" && !shift {
        Send(None, now);
      }
    }

    /** A click on the send button, which is disabled while the trimmed
        input is empty or a reply is loading. */
    method ClickSend(now: Millis)
      requires Valid()
      modifies this
      ensures Valid()
      ensures IsBlank(old(inputText)) || old(isLoading) ==> Unchanged()
      ensures !IsBlank(old(inputText)) && !old(isLoading) ==>
        && messages == old(messages) + [Message(DecimalString(now), Trim(old(inputText)), true, now, Some(old(currentMode)))]
        && pending == old(pending) + [Pending(Trim(old(inputText)), old(currentMode))]
        && inputText == "" && isLoading && currentMode == old(currentMode)
    {
      TrimEmpty(inputText);
      if !(Trim(inputText) == "" || isLoading) {
        Send(None, now);
      }
    }

    /** The mode selector's `onModeChange`: later messages carry the new
        mode, earlier ones keep theirs. */
    method SetMode(mode: Mode)
      requires Valid()
      modifies this`currentMode
      ensures Valid() && currentMode == mode
    {
      currentMode := mode;
    }

    /** The input box's `onChange`; a disabled input, while a reply is
        loading, takes no typing. */
    method SetInput(value: string)
      requires Valid()
      modifies this`inputText
      ensures Valid()
      ensures inputText == if old(isLoading) then old(inputText) else value
    {
      if !isLoading {
        inputText := value;
      }
    }

    /** A whole exchange with nothing else in flight: the user's message and
        then exactly one assistant reply, both tagged with the mode of the
        send, the reply computed from the sent text. */
    method SendAndReply(text: string, k: nat, sentAt: Millis, repliedAt: Millis)
      requires Valid() && pending == [] && k < 3
      requires !IsBlank(text)
      modifies this
      ensures Valid() && pending == [] && !isLoading
      ensures messages == old(messages) + [
        Message(DecimalString(sentAt), text, true, sentAt, Some(old(currentMode))),
        Message(DecimalString(repliedAt + 1), Respond(text, old(currentMode), k), false, repliedAt, Some(old(currentMode)))]
    {
      VoiceResult(text, sentAt);
      Deliver(0, k, repliedAt);
    }
  }
}
