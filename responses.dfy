/** The mock assistant's reply generator `generateAIResponse`: an ordered
    chain of keyword rules over the lower-cased, trimmed input, falling back
    to one of three templates per conversation mode that quote the input. */
module Responses {
  import opened Wrappers
  import opened Strings

  /** `AIMode`: the four conversation contexts. */
  datatype Mode = Chat | Study | Control | Research

  /** The six keyword rules, in the order the reply generator tries them. */
  datatype Rule = SpotifySearch | Greeting | PlayMusic | Calling | Weather | OpenApp

  /** Position of a rule in the chain: a lower rank is tried first. */
  function Rank(rule: Rule): nat {
    match rule
    case SpotifySearch => 0
    case Greeting => 1
    case PlayMusic => 2
    case Calling => 3
    case Weather => 4
    case OpenApp => 5
  }

  /** The condition of each rule, on the normalised input. */
  predicate Matches(rule: Rule, s: string) {
    match rule
    case SpotifySearch => Contains(s, "search spotify") || (Contains(s, "spotify") && Contains(s, "search"))
    case Greeting => Contains(s, "hello b") || Contains(s, "hey b")
    case PlayMusic => Contains(s, "play music") || Contains(s, "play song")
    case Calling => Contains(s, "call") || Contains(s, "phone")
    case Weather => Contains(s, "weather")
    case OpenApp => Contains(s, "open") && (Contains(s, "app") || Contains(s, "application"))
  }

  /** The if-chain: the first rule whose condition holds, if any. */
  function Classify(s: string): (r: Option<Rule>)
    ensures r.Some? ==> Matches(r.value, s)
    ensures r.Some? ==> forall q: Rule :: Rank(q) < Rank(r.value) ==> !Matches(q, s)
    ensures r.None? <==> forall q: Rule :: !Matches(q, s)
  {
    if Matches(SpotifySearch, s) then Some(SpotifySearch)
    else if Matches(Greeting, s) then Some(Greeting)
    else if Matches(PlayMusic, s) then Some(PlayMusic)
    else if Matches(Calling, s) then Some(Calling)
    else if Matches(Weather, s) then Some(Weather)
    else if Matches(OpenApp, s) then Some(OpenApp)
    else None
  }

  /** The canned replies of the six rules. */
  const SpotifyReply: string :=
    "\U{1F3B5} Searching Spotify for you... I'd open your Spotify app and search for music, but I need device integration for that. For now, I can help you discover new music - what genre or artist are you looking for?"
  const GreetingReply: string :=
    "Hello! I'm B, your AI assistant. I'm here and ready to help with anything you need - from device control to research to learning assistance!"
  const PlayMusicReply: string :=
    "\U{1F3B5} I'd love to play music for you! Currently, I need device integration to control your music apps directly. You can ask me about music recommendations or open your preferred music app manually."
  const CallingReply: string :=
    "\U{1F4DE} I can help you with calling! Currently, I need phone integration to make actual calls. You can tell me who you want to call and I'll guide you through it."
  const WeatherReply: string :=
    "\U{1F324}\U{FE0F} I'd check the weather for you! For real-time weather, I need internet access. You can ask me about weather patterns or tell me your location for general advice."
  const OpenAppReply: string :=
    "\U{1F4F1} I'd open that app for you! With proper device integration, I could launch applications directly. For now, you can open apps manually or tell me what you're trying to accomplish."

  /** The canned reply of each rule. */
  function Reply(rule: Rule): string {
    match rule
    case SpotifySearch => SpotifyReply
    case Greeting => GreetingReply
    case PlayMusic => PlayMusicReply
    case Calling => CallingReply
    case Weather => WeatherReply
    case OpenApp => OpenAppReply
  }

  /** The text before and after the quoted input in each mode's three
      templates. */
  const ChatParts: seq<(string, string)> := [
    ("I understand you're asking about \"",
     "\". Let me help you with that right away."),
    ("That's an interesting question about \"",
     "\". Here's what I can tell you..."),
    ("I'd be happy to assist you with \"",
     "\". Let me provide you with a comprehensive answer.")
  ]
  const StudyParts: seq<(string, string)> := [
    ("Great study question! For \"",
     "\", let me break this down step by step for better understanding."),
    ("This is a perfect learning opportunity. Regarding \"",
     "\", here's the key concept you need to grasp..."),
    ("I'll help you master \"",
     "\". Let's start with the fundamentals and build up your knowledge.")
  ]
  const ControlParts: seq<(string, string)> := [
    ("Device control request understood: \"",
     "\". I'm initiating the requested action now."),
    ("Processing device command: \"",
     "\". Please wait while I execute this operation."),
    ("Control instruction received: \"",
     "\". I'll handle this task across your connected devices.")
  ]
  const ResearchParts: seq<(string, string)> := [
    ("Research query: \"",
     "\". Let me gather the latest information and provide you with comprehensive insights."),
    ("I'm analyzing \"",
     "\" across multiple reliable sources. Here's what the current data shows..."),
    ("Research initiated for \"",
     "\". I'll provide you with evidence-based findings and expert perspectives.")
  ]

  function TemplateParts(mode: Mode, k: nat): (string, string)
    requires k < 3
  {
    match mode
    case Chat => ChatParts[k]
    case Study => StudyParts[k]
    case Control => ControlParts[k]
    case Research => ResearchParts[k]
  }

  /** `responses[mode]`: the three fallback templates, filled with the
      original (not normalised) input. */
  function Templates(mode: Mode, input: string): (ts: seq<string>)
    ensures |ts| == 3
    ensures forall k :: 0 <= k < 3 ==> Contains(ts[k], input)
  {
    var ts := seq(3, k requires 0 <= k < 3 => TemplateParts(mode, k).0 + input + TemplateParts(mode, k).1);
    assert forall k :: 0 <= k < 3 ==> Contains(ts[k], input) by {
      forall k | 0 <= k < 3 ensures Contains(ts[k], input) {
        ContainsInfix(TemplateParts(mode, k).0, input, TemplateParts(mode, k).1);
      }
    }
    ts
  }

  /** `input.toLowerCase().trim()`. */
  function Normalize(input: string): string {
    Trim(Lower(input))
  }

  /** A normal form has no white space at either end and no ASCII capital
      letters left. */
  lemma NormalizeShape(input: string)
    ensures Tight(Normalize(input)) && NoCapitals(Normalize(input))
  {
    var l := Lower(input);
    LowerNoCapitals(input);
    var i, j := TrimSplit(l);
    SliceNoCapitals(l, i, j);
  }

  /** `generateAIResponse(input, mode)`, with the random template choice
      `Math.floor(Math.random() * 3)` given as the index `k`. */
  function Respond(input: string, mode: Mode, k: nat): (r: string)
    requires k < 3
    ensures Classify(Normalize(input)).None? ==> Contains(r, input)
  {
    match Classify(Normalize(input))
    case Some(rule) => Reply(rule)
    case None => Templates(mode, input)[k]
  }

  /** First match wins: a rule whose condition holds and that no earlier
      rule pre-empts is the one chosen, whatever later rules also match. */
  lemma ClassifyFirstMatch(s: string, rule: Rule)
    requires Matches(rule, s)
    requires forall q: Rule :: Rank(q) < Rank(rule) ==> !Matches(q, s)
    ensures Classify(s) == Some(rule)
  {
    assert Classify(s).Some?;
  }

  /** ... and so its canned reply is the answer. */
  lemma FirstMatchWins(input: string, mode: Mode, k: nat, rule: Rule)
    requires k < 3
    requires Matches(rule, Normalize(input))
    requires forall q: Rule :: Rank(q) < Rank(rule) ==> !Matches(q, Normalize(input))
    ensures Respond(input, mode, k) == Reply(rule)
  {
    ClassifyFirstMatch(Normalize(input), rule);
  }

  /** An input mentioning both "spotify" and "search" gets the Spotify
      reply even when it also asks for the weather or a call. */
  lemma SpotifyFirst(input: string, mode: Mode, k: nat)
    requires k < 3
    requires Contains(Normalize(input), "spotify") && Contains(Normalize(input), "search")
    ensures Respond(input, mode, k) == Reply(SpotifySearch)
  {
  }

  /** The phrase "search spotify" adds nothing to the first rule: the rule
      holds exactly when both words occur. */
  lemma SpotifyRuleIsBothWords(s: string)
    ensures Matches(SpotifySearch, s) <==> Contains(s, "spotify") && Contains(s, "search")
  {
    if Contains(s, "search spotify") {
      assert "search spotify" == "" + "search" + " spotify";
      ContainsInfix("", "search", " spotify");
      ContainsTransitive(s, "search spotify", "search");
      assert "search spotify" == "search " + "spotify" + "";
      ContainsInfix("search ", "spotify", "");
      ContainsTransitive(s, "search spotify", "spotify");
    }
  }

  /** Likewise "application" adds nothing to the last rule. */
  lemma OpenAppRuleIsOpenAndApp(s: string)
    ensures Matches(OpenApp, s) <==> Contains(s, "open") && Contains(s, "app")
  {
    if Contains(s, "application") {
      assert "application" == "" + "app" + "lication";
      ContainsInfix("", "app", "lication");
      ContainsTransitive(s, "application", "app");
    }
  }

  /** Keyword matching ignores case: lower-casing the input first changes
      nothing. */
  lemma NormalizeIgnoresCase(input: string)
    ensures Normalize(Lower(input)) == Normalize(input)
  {
    LowerIdempotent(input);
  }

  /** Keyword matching ignores surrounding white space. */
  lemma NormalizeIgnoresPadding(w1: string, input: string, w2: string)
    requires IsBlank(w1) && IsBlank(w2)
    ensures Normalize(w1 + input + w2) == Normalize(input)
  {
    var l := Lower(w1 + input + w2);
    assert l == Lower(w1) + Lower(input) + Lower(w2) by {
      LowerConcat(w1 + input, w2);
      LowerConcat(w1, input);
    }
    LowerBlank(w1);
    LowerBlank(w2);
    TrimIgnoresPadding(Lower(w1), Lower(input), Lower(w2));
  }

  lemma LowerConcat(a: string, b: string)
    ensures Lower(a + b) == Lower(a) + Lower(b)
  {
    assert Lower(a + b) == Lower(a) + Lower(b) by {
      forall i | 0 <= i < |a + b| ensures Lower(a + b)[i] == (Lower(a) + Lower(b))[i] { }
    }
  }

  lemma LowerBlank(w: string)
    requires IsBlank(w)
    ensures IsBlank(Lower(w))
  {
    forall i | 0 <= i < |w| ensures IsSpace(Lower(w)[i]) {
      LowerCharSpace(w[i]);
    }
  }

  /** Normalisation is idempotent, so a normalised input is its own key. */
  lemma NormalizeIdempotent(input: string)
    ensures Normalize(Normalize(input)) == Normalize(input)
  {
    var l := Lower(input);
    LowerTrimCommute(l);
    LowerIdempotent(input);
    TrimIdempotent(l);
  }

  /** Two inputs with the same normalised form that trigger a keyword rule
      get the same reply, whatever the mode and template index. */
  lemma KeywordReplyDependsOnlyOnNormalForm(a: string, b: string, ma: Mode, mb: Mode, ka: nat, kb: nat)
    requires ka < 3 && kb < 3
    requires Normalize(a) == Normalize(b)
    requires Classify(Normalize(a)).Some?
    ensures Respond(a, ma, ka) == Respond(b, mb, kb)
  {
  }

  /** Hence such a reply survives changes of case and of padding. */
  lemma KeywordReplyIgnoresCaseAndPadding(w1: string, input: string, w2: string, mode: Mode, k: nat)
    requires k < 3 && IsBlank(w1) && IsBlank(w2)
    requires Classify(Normalize(input)).Some?
    ensures Respond(w1 + Lower(input) + w2, mode, k) == Respond(input, mode, k)
  {
    NormalizeIgnoresPadding(w1, Lower(input), w2);
    NormalizeIgnoresCase(input);
  }

  lemma NormalizeRecall(s: string)
    requires s == "recall"
    ensures Normalize(s) == s
  {
    assert Lower(s) == s;
    assert !IsSpace(s[0]) && !IsSpace(s[5]);
    TrimAt(s, 0, 6);
  }

  lemma RecallRules(s: string)
    requires s == "recall"
    ensures !Matches(SpotifySearch, s) && !Matches(Greeting, s)
    ensures !Matches(PlayMusic, s) && Matches(Calling, s)
  {
    MissingChar(s, "spotify", 'p');
    MissingChar(s, "hello b", ' ');
    MissingChar(s, "hey b", ' ');
    MissingChar(s, "play music", ' ');
    MissingChar(s, "play song", ' ');
    assert OccursAt(s, "call", 2);
  }

  /** Rules match substrings, not words: "recall" is a call. */
  lemma RecallIsACall(input: string, mode: Mode, k: nat)
    requires k < 3 && input == "recall"
    ensures Respond(input, mode, k) == Reply(Calling)
  {
    NormalizeRecall(input);
    RecallRules(input);
    FirstMatchWins(input, mode, k, Calling);
  }

  lemma NormalizeSmartphone(s: string)
    requires s == "smartphone"
    ensures Normalize(s) == s
  {
    assert Lower(s) == s;
    assert !IsSpace(s[0]) && !IsSpace(s[9]);
    TrimAt(s, 0, 10);
  }

  lemma SmartphoneRules(s: string)
    requires s == "smartphone"
    ensures !Matches(SpotifySearch, s) && !Matches(Greeting, s)
    ensures !Matches(PlayMusic, s) && Matches(Calling, s)
  {
    MissingChar(s, "spotify", 'y');
    MissingChar(s, "hello b", ' ');
    MissingChar(s, "hey b", ' ');
    MissingChar(s, "play music", ' ');
    MissingChar(s, "play song", ' ');
    assert OccursAt(s, "phone", 5);
  }

  /** ... and so is "smartphone". */
  lemma SmartphoneIsACall(input: string, mode: Mode, k: nat)
    requires k < 3 && input == "smartphone"
    ensures Respond(input, mode, k) == Reply(Calling)
  {
    NormalizeSmartphone(input);
    SmartphoneRules(input);
    FirstMatchWins(input, mode, k, Calling);
  }

  /** Fallback: with no rule matching, the reply is template `k` of the
      current mode, one of that mode's three templates, and it quotes the
      original, un-normalised input. */
  lemma Fallback(input: string, mode: Mode, k: nat)
    requires k < 3
    requires forall q: Rule :: !Matches(q, Normalize(input))
    ensures Respond(input, mode, k) == Templates(mode, input)[k]
    ensures Respond(input, mode, k) in Templates(mode, input)
    ensures Contains(Respond(input, mode, k), input)
  {
  }
}
