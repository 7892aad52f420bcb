# Chat session store

A model of the chat client's session store (`src/store/chatStore.ts`). The store
holds the text in the input box (`inputValue`), the transcript (`messageList`) and
three flags (`isGenerating`, `showSidebar`, `isUploading`). Three actions change it:

- `sendMessage` trims the input and stops if nothing is left. Otherwise it appends
  the user's message, empties the input box and raises `isGenerating`. It then awaits
  a simulated reply and appends either a templated echo of the text or a fixed
  apology. Its `finally` block always lowers `isGenerating`.
- `uploadFile` has an empty body.
- `clearMessageList` empties the transcript.

Files:

- `chat_store.dfy`, module `Chat`. The `Message` record and the store's state as
  values. Pure functions give the effect of each action on a snapshot of the store.
  `sendMessage` is split at its `await` into `Submit` (before it) and `Settle`
  (after it); `Send` composes the two. Lemmas state what each function does
  (`SubmitEffect`, `SettleEffect`, `SendEffect`). The class `ChatStore` has the
  store's fields, and its methods update them in place. Each method is proved equal
  to its function.
- `js_string.dfy`, module `JsString`. ECMAScript's `String.prototype.trim`, which
  strips the WhiteSpace and LineTerminator characters of ECMA-262 (sections 12.2 and
  12.3) from both ends. `Trim` is `TrimEnd` after `TrimStart`, and lemmas state what
  each leaves.
- `js_number.dfy`, module `JsNumber`. `Number.prototype.toString` for the
  non-negative whole numbers `Date.now()` returns. Message ids are formatted with it.

Which branch of the `try` statement around the `await` finishes `sendMessage` is a
parameter `Outcome`. `Resolved` means the `try` block runs to its end and appends the
templated reply. `Rejected` means something in it throws and the `catch` branch
appends the apology. Each `Date.now()` call becomes a parameter. A message literal
reads the clock twice, once for its id and once for its timestamp, so each message
takes a `ClockReadings` pair.

## Model

| member | source | states |
|---|---|---|
| JsString.TrimStartShape | src/store/chatStore.ts:28 | The result is a suffix of the input that does not start with whitespace, and everything dropped is whitespace. |
| JsString.TrimEndShape | src/store/chatStore.ts:28 | The result is a prefix of the input that does not end with whitespace, and everything dropped is whitespace. |
| JsString.TrimShape | src/store/chatStore.ts:28 | The result is a contiguous piece of the input with no whitespace at either end, and only whitespace lies on either side of it. |
| JsString.TrimEmptyIffBlank | src/store/chatStore.ts:28-29 | Trimming gives the empty string if and only if the input is all whitespace. This is the empty-input test. |
| JsString.TrimPadded | src/store/chatStore.ts:28 | Trimming whitespace + t + whitespace gives back t exactly, when t has no whitespace at its ends. |
| JsString.TrimIdempotent | src/store/chatStore.ts:28 | Trimming twice is the same as trimming once. |
| JsNumber.ToDecimal | src/store/chatStore.ts:33 | The id string is a non-empty string of decimal digits with no leading zero unless the number is 0. |
| JsNumber.ValueOfToDecimal | src/store/chatStore.ts:33 | Reading the decimal id back gives the clock value it came from. |
| JsNumber.ToDecimalInjective | src/store/chatStore.ts:52 | Two clock values give equal id strings if and only if they are equal. |
| Chat.QuotedContent | src/store/chatStore.ts:53 | Text recovered from a string in the reply template's shape, put back into the template, rebuilds that string. |
| Chat.ReplyRecoversContent | src/store/chatStore.ts:53-63 | A successful reply holds the trimmed user text whole, and it can be read back out. The apology does not have the template's shape. |
| Chat.SubmitEffect | src/store/chatStore.ts:28-44 | Before the await, the action stops if and only if the input is blank. Otherwise it appends one user text message whose content is the trimmed input and keeps the old entries in front. The input becomes empty, `isGenerating` is true while the reply is pending, and the other flags are unchanged. |
| Chat.SettleEffect | src/store/chatStore.ts:46-71 | After the await, exactly one assistant text message is appended. It holds the template reply on success and the apology on failure. `isGenerating` ends false on both paths, and nothing else changes. |
| Chat.SendEffect | src/store/chatStore.ts:26-72 | A blank input changes no field. Otherwise the transcript grows by exactly two: a user text message with the trimmed input (`UserMessage` at the user's readings), then an assistant text message whose content depends on the outcome (`ReplyMessage` at the reply's readings). The input ends empty and `isGenerating` ends false. In both cases the old transcript is a prefix of the new one, and `showSidebar` and `isUploading` are unchanged. |
| Chat.SendIdsDistinct | src/store/chatStore.ts:33-62 | Within one send, the user id differs from the reply id, provided the clock does not run backwards between the two readings. |
| Chat.ReplyIdDiffers | src/store/chatStore.ts:33-62 | A user message's id and its reply's id differ when the clock has not run backwards between the two readings. |
| Chat.IdsAreClockReadings | src/store/chatStore.ts:33-62 | The user id is the clock reading in decimal. The reply id is the reading plus 1 on success and plus 2 on failure. |
| Chat.SendTrimsPaddedInput | src/store/chatStore.ts:28-38 | With "  hello  " in the input box, the user message reads "hello" and the transcript grows by exactly two. |
| Chat.ClearDuringAwait | src/store/chatStore.ts:51-57 | A clear during the await does not stop the reply. It is pushed onto the emptied list, which ends up holding the reply alone. |
| Chat.IdsCanCollide | src/store/chatStore.ts:33-62 | As written, ids are not unique. Send once, then send again when the clock reads the reply's reading plus 1 (plus 2 after the apology). The transcript then holds two messages with the same id. |
| Chat.MaxIdValue | src/store/chatStore.ts:6 | Every id in the transcript denotes a number no larger than the result. |
| Chat.RestampFresh | src/store/chatStore.ts:6 | A restamped id differs from every id already in the transcript. |
| Chat.RestampKeepsFreshReading | src/store/chatStore.ts:33-62 | While the clock runs ahead of every id in use, restamping leaves the clock-based message unchanged. |
| Chat.SendFreshKeepsIdsDistinct | src/store/chatStore.ts:6 | With corrected ids, a send keeps the transcript's ids pairwise distinct, whatever the clock reads. |
| Chat.SendFreshOnlyRestamps | src/store/chatStore.ts:26-72 | The corrected send differs from the send as written only in the two new ids. |
| Chat.ClearIdempotent | src/store/chatStore.ts:79-81 | Clearing empties the transcript, keeps the input and every flag, and clearing twice equals clearing once. |
| Chat.ChatStore.constructor | src/store/chatStore.ts:16-22 | A new store has an empty input, an empty transcript, and `isGenerating`, `showSidebar` and `isUploading` all false. |
| Chat.ChatStore.SendMessage | src/store/chatStore.ts:26-72 | The in-place action leaves the store exactly as `Send` describes. On blank input no field changes. The old transcript stays a prefix. On a real send `isGenerating` ends false and the input ends empty. |
| Chat.ChatStore.UploadFile | src/store/chatStore.ts:74-76 | The action changes no state. |
| Chat.ChatStore.ClearMessageList | src/store/chatStore.ts:79-81 | The transcript becomes empty and every other field is as before (`Cleared`). |

## Left out

- Pinia's `defineStore` wiring and reactivity (lines 2, 14). The store is a plain class with public fields. The comment at line 17 says the input-box component shares `inputValue`.
- The 1.5-second `setTimeout` and the suspension at `await` (line 48). `Submit` and `Settle` describe the store on either side of the suspension, but `SendMessage` runs them as one step.
- Other actions during the await are not modelled in the class. This covers overlapping `sendMessage` calls, which race on the transcript and on `isGenerating`. It also covers a `clearMessageList` during the wait: the source then pushes the reply onto the emptied list, so the transcript ends as the reply alone (lemma `ClearDuringAwait`). `SendMessage`'s "old transcript is a prefix" and "grows by exactly two" hold only because the await is one step here.
- Outcome: the simulated delay at line 48 resolves and never rejects, so in the code as written the outcome is always `Resolved`. `Rejected` stands for the `catch` branch (lines 58-67). The comment at line 47 expects a real request in the delay's place, and that request can fail. Every property is proved for both outcomes.
- `Date.now()` (lines 33, 36, 52, 55, 62, 65). Its readings are parameters. The store's own ids are not claimed unique. A user message gets the last reply's id when it is sent at that reply's reading plus 1 after a successful reply, or plus 2 after the apology (see "## Findings").
- `console.error` logging in the catch branch (line 60). It is output only.
- JsNumber.ToDecimal: covers only non-negative whole numbers. `Number.prototype.toString` switches to exponent notation from 10^21 on, which clock readings do not reach.
- JsString.Trim: works on Unicode scalar values. JavaScript strings are UTF-16 code units, so lone surrogates cannot be written here. Every character trim removes lies in the Basic Multilingual Plane, so no other string is trimmed differently.
- `src/types/index.ts` holds only a type alias and an interface, and no behaviour. It is not part of this model.

## Findings

| source | as written | input that shows it | evidently intended | confidence | as-written member | corrected member |
|---|---|---|---|---|---|---|
| src/store/chatStore.ts:6, src/store/chatStore.ts:33 | Ids are `Date.now()` in decimal. The user id is the reading, and the reply id is a later reading plus 1 (line 52) or plus 2 (line 62). | The first send's reply is read at t, and the next message is sent at t + 1 (t + 2 after the apology). Both messages get id "t+1" (or "t+2"). | Ids are unique, as the comments at lines 6 and 33 say. | medium; not executed | Chat.IdsCanCollide | Chat.SendFreshKeepsIdsDistinct |

The corrected send `SendFresh` builds the same two messages and passes each through `Restamp`. `Restamp` keeps the clock-based id unless it would clash, and then takes the next number past every id in use. The store class `ChatStore` keeps the ids as the code assigns them, because it models the code.
