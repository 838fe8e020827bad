# Chat widget core of omni-nova-guide, in Dafny

This project models the logic of the chat widget in
`src/components/ChatInterface.tsx`: the mock assistant's reply generator
`generateAIResponse`, and the widget's message-list state with its event
handlers (`handleSendMessage` with its reply timer, `handleVoiceResult`,
`handleKeyPress`, the mode and input setters, and the `disabled` guards of the input and
the send button).

- `wrappers.dfy` (`Wrappers`): the `Option` type.
- `strings.dfy` (`Strings`): the JavaScript string primitives the widget
  relies on. `Trim` strips exactly the ECMAScript white-space and
  line-terminator code points; `Lower` lower-cases ASCII letters;
  `Contains` is `includes`, a plain substring search; `DecimalString` is
  the decimal numeral of a clock reading, which is what `toString` gives
  for the ids built from `Date.now()`.
- `responses.dfy` (`Responses`): `AIMode` as `Mode`; the six keyword rules
  as `Rule`, with `Rank` their position in the if-chain and `Matches` their
  conditions; `Classify` the chain itself; `Reply` and `Templates` the
  canned texts; `Respond` the whole generator. The random template choice
  `Math.floor(Math.random() * 3)` is the parameter `k < 3`.
- `session.dfy` (`Session`): the `Message` record and the class
  `ChatInterface` holding `messages`, `inputText`, `currentMode`,
  `isLoading` and `pending`, the reply timers scheduled by `Send` and not
  yet fired. `Deliver(i, k, now)` is the callback of pending timer `i`.
  Because each delay is random, any scheduled timer may fire next. The
  invariant `Valid` says five things. The welcome message comes first and
  has no mode. Every later message has a mode. A visible loading indicator
  implies a scheduled reply. No scheduled reply is for an empty text. The
  number of user messages equals the number of replies delivered plus the
  number still scheduled.

`Date.now()` and `new Date()` become the parameter `now` (milliseconds).
A message's id is the decimal numeral of `now`, or of `now + 1` for a
reply, as the source writes it. Its timestamp is the same reading.

Points where the program's behaviour is easy to misread:

- Message ids come from the clock (`Date.now()`, lines 50 and 65), so two
  sends in the same millisecond share an id. The model proves only that
  `DecimalString` is injective and does not claim that ids are unique.
- That each user message is later answered by exactly one reply is stated
  by the `Valid` counting invariant, by the lemma `MessageCount` derived
  from it, and by `Deliver`'s contract.
- The voice path can send while a reply is loading, because only the text
  input (line 204) and the button (line 209) are disabled then. Each
  `Deliver` clears `isLoading`, even when another reply is still scheduled.
- The `disabled` attributes of the input (line 204) and of the send button
  (line 209) are modelled as guards on `KeyPress`, `SetInput` and
  `ClickSend`, since a disabled control receives no events.

## Model

| member | source | states |
|---|---|---|
| Strings.Trim | src/components/ChatInterface.tsx:77 | the result is no longer than the input and has no white space at either end |
| Strings.TrimAt | src/components/ChatInterface.tsx:77 | for a blank head, a tight middle and a blank tail, trimming gives exactly the middle |
| Strings.TrimSplit | src/components/ChatInterface.tsx:77 | the trimmed string is a slice of the input, and everything cut off is white space |
| Strings.TrimEmpty | src/components/ChatInterface.tsx:46-47 | the trimmed input is empty exactly when the input is all white space |
| Strings.TrimIgnoresPadding | src/components/ChatInterface.tsx:77 | white space added around a string never changes its trimmed form |
| Strings.TrimIdempotent | src/components/ChatInterface.tsx:77 | trimming twice is trimming once |
| Strings.Lower | src/components/ChatInterface.tsx:77 | lower-casing keeps the length and maps every character on its own |
| Strings.LowerIdempotent | src/components/ChatInterface.tsx:77 | lower-casing twice is lower-casing once |
| Strings.LowerTrimCommute | src/components/ChatInterface.tsx:77 | lower-casing then trimming equals trimming then lower-casing |
| Strings.Contains | src/components/ChatInterface.tsx:80-100 | `includes`: the pattern occurs at some index of the text, as a contiguous block |
| Strings.ContainsInfix | src/components/ChatInterface.tsx:105-126 | a string embedded in any context is found by `includes` |
| Strings.ContainsTransitive | src/components/ChatInterface.tsx:80 | if a text contains t and t contains u, the text contains u |
| Strings.MissingChar | src/components/ChatInterface.tsx:80-102 | a pattern holding a character the text lacks is never found |
| Strings.DecimalString | src/components/ChatInterface.tsx:50 | an id is a non-empty string of decimal digits, with a leading zero only for 0 |
| Strings.ParseDecimalString | src/components/ChatInterface.tsx:50 | reading the digits back gives the clock value |
| Strings.DecimalStringInjective | src/components/ChatInterface.tsx:65 | different clock values give different id strings |
| Responses.Matches | src/components/ChatInterface.tsx:80-100 | the condition of each of the six rules, literal for literal, on the normalised input |
| Responses.Classify | src/components/ChatInterface.tsx:80-102 | the chosen rule matches and no earlier rule matches; no rule is chosen exactly when none matches |
| Responses.Reply | src/components/ChatInterface.tsx:81-101 | the canned reply of each rule, with the source's exact text |
| Responses.Templates | src/components/ChatInterface.tsx:105-126 | each mode has three templates, and every one of them quotes the input |
| Responses.Respond | src/components/ChatInterface.tsx:76-130 | when no rule matches, the reply contains the original input |
| Responses.ClassifyFirstMatch | src/components/ChatInterface.tsx:80-102 | a rule that matches, with no earlier rule matching, is the rule chosen whatever later rules match |
| Responses.FirstMatchWins | src/components/ChatInterface.tsx:80-102 | the reply is then that rule's canned text, in every mode and for every template index |
| Responses.SpotifyFirst | src/components/ChatInterface.tsx:80-81 | input with both "spotify" and "search" gets the Spotify reply, even if it also mentions weather or a call |
| Responses.SpotifyRuleIsBothWords | src/components/ChatInterface.tsx:80 | the first rule holds exactly when both "spotify" and "search" occur; the phrase test adds nothing |
| Responses.OpenAppRuleIsOpenAndApp | src/components/ChatInterface.tsx:100 | the last rule holds exactly when "open" and "app" occur; the "application" test adds nothing |
| Responses.Normalize | src/components/ChatInterface.tsx:77 | `input.toLowerCase().trim()` |
| Responses.NormalizeShape | src/components/ChatInterface.tsx:77 | a normal form has no white space at either end and no ASCII capital letter |
| Responses.NormalizeIgnoresCase | src/components/ChatInterface.tsx:77 | lower-casing the input first does not change its normalised form |
| Responses.NormalizeIgnoresPadding | src/components/ChatInterface.tsx:77 | white space around the input does not change its normalised form |
| Responses.NormalizeIdempotent | src/components/ChatInterface.tsx:77 | normalising twice is normalising once |
| Responses.KeywordReplyDependsOnlyOnNormalForm | src/components/ChatInterface.tsx:77-102 | two inputs with the same normalised form that trigger a rule get the same reply, in any modes and for any template indices |
| Responses.KeywordReplyIgnoresCaseAndPadding | src/components/ChatInterface.tsx:77-102 | a keyword reply does not change when the input is lower-cased and padded with white space |
| Responses.RecallIsACall | src/components/ChatInterface.tsx:92-94 | "recall" gets the calling reply, because rules match substrings and not words |
| Responses.SmartphoneIsACall | src/components/ChatInterface.tsx:92-94 | "smartphone" gets the calling reply |
| Responses.Fallback | src/components/ChatInterface.tsx:105-129 | with no rule matching, the reply is template k of the mode, one of its three templates, and quotes the un-normalised input |
| Session.AskedPlusAnswered | src/components/ChatInterface.tsx:13-19 | every message is counted either as the user's or as the assistant's |
| Session.Consistent | src/components/ChatInterface.tsx:22-73 | the invariant of the message list: welcome first and without mode, every later message with a mode, loading only with a reply scheduled, no reply scheduled for an empty text, and user messages equal to replies delivered plus replies scheduled |
| Session.MessageCount | src/components/ChatInterface.tsx:57-71 | under the invariant, the messages and the scheduled replies are the welcome plus two per user message |
| Session.SendKeepsConsistent | src/components/ChatInterface.tsx:49-59 | appending a user message with a mode and scheduling a reply for a non-empty text keeps the invariant, with the loading indicator on |
| Session.DeliverKeepsConsistent | src/components/ChatInterface.tsx:62-73 | appending an assistant message with a mode and removing any one scheduled reply keeps the invariant, with the loading indicator off |
| Session.MessageText | src/components/ChatInterface.tsx:46 | a non-empty explicit text is sent untrimmed; otherwise the trimmed input is sent; the text is empty exactly when no text was passed and the input is blank |
| Session.IsSendKey | src/components/ChatInterface.tsx:139 | the send key is Enter without Shift |
| Session.ChatInterface.Valid | src/components/ChatInterface.tsx:22-73 | the widget's state satisfies `Consistent` |
| Session.ChatInterface.constructor | src/components/ChatInterface.tsx:22-32 | the widget starts with only the welcome message, empty input, chat mode and nothing loading |
| Session.ChatInterface.Send | src/components/ChatInterface.tsx:45-59 | an empty text changes nothing; otherwise one user message with the text and current mode is appended after the unchanged earlier ones, the input is cleared, loading is set and one reply is scheduled |
| Session.ChatInterface.Deliver | src/components/ChatInterface.tsx:62-73 | one assistant message is appended, with the reply to the sent text and the mode captured at send time; that timer is removed and loading is cleared |
| Session.ChatInterface.VoiceResult | src/components/ChatInterface.tsx:132-136 | a blank transcript changes nothing; any other is sent exactly as heard |
| Session.ChatInterface.KeyPress | src/components/ChatInterface.tsx:138-143 | while no reply is loading, Enter without Shift sends the typed input; any other key, Shift+Enter, and every key while the input is disabled, change nothing |
| Session.ChatInterface.ClickSend | src/components/ChatInterface.tsx:207-211 | the button sends the trimmed input, and does nothing while the input is blank or a reply is loading |
| Session.ChatInterface.SetMode | src/components/ChatInterface.tsx:162 | only the current mode changes, so earlier messages keep their modes |
| Session.ChatInterface.SetInput | src/components/ChatInterface.tsx:199-204 | only the typed input changes, and not at all while the input is disabled by a loading reply |
| Session.ChatInterface.SendAndReply | src/components/ChatInterface.tsx:45-74 | with nothing in flight, a send and its delivery append the user's message and then exactly one reply, both tagged with the mode of the send |

## Left out

- Rendering, scrolling and styling (`src/components/ChatInterface.tsx:37-43`
  and the JSX at 145-217), apart from the `disabled` guards described
  above. Presentation is not behaviour.
- `src/components/VoiceButton.tsx`, `src/components/ModeSelector.tsx` and
  `src/components/MessageBubble.tsx` are not part of this model. They wrap
  the browser's speech API, a dropdown menu and a message view. The
  `isListening` flag (line 33) only feeds the voice button.
- The reply delay `1000 + Math.random() * 2000` (line 73) is floating-point
  timing. The model keeps only "a scheduled reply is delivered later, once".
  Which timer fires next is the caller's choice of `i`.
- `Millis` is an unbounded natural number, while real `Date.now()`
  readings stay below 8.64e15. Above 10^21, `toString` switches to
  exponent notation and would no longer agree with `DecimalString`; no
  clock reading gets there.
- Clock readings are the parameter `now`. A message's id and its timestamp
  are taken from one reading, although the source reads the clock twice.
- `e.preventDefault()` (line 140) is a browser side effect.
- React applies state updates after the handler returns. The model applies
  them at once. The source appends through functional updates, so no append
  is lost either way.
- Strings.Lower: lower-cases only ASCII letters. `toLowerCase` also
  lower-cases other scripts, and a few characters grow by it. Unicode case
  tables are outside the model.
- Strings are sequences of Unicode scalar values, not UTF-16 code units.
  Substring search and trimming agree on well-formed strings.
