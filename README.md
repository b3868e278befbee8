# Plauder-Freund voice client: playback engine, PCM decoder and helpers

This project models the core of the Plauder-Freund web client in Dafny. The client is a voice assistant. It streams the user's microphone to a server and plays back the assistant's reply, which arrives as base64-encoded chunks of raw 16-bit PCM at 24000 Hz. The model covers:

- **`Playback`.** The streaming playback engine in its two revisions: the hook `src/hooks/useAudioPlayer.js` and the inline copy in `src/App.jsx`. It has a queue of encoded chunks, a busy flag, a playback cursor (0 meaning unset), the current turn, a registry of started sources, and the socket handlers for `ai-audio-chunk` and `ai-interrupt`. The audio device is reduced to a state (closed, suspended, interrupted or running) and a clock. Each asynchronous completion is its own method: a `resume()` settling, a source's `onended`, or a `setTimeout` callback. The drain pass is specified by the pure plan in `Scheduling`.
- **`Pcm` and `Base64`.** The PCM decoder: whitespace is stripped, the text is base64-decoded, bytes are read as little-endian signed 16-bit samples, and each sample is divided by 32768 into a mono 24 kHz buffer. The decoder is specified as a function and implemented with the same array loops as the source. `JsText` holds the JavaScript string operations the client relies on: `\s` and `trim`, `split` and `join` on one character, and upper-casing.
- **`Microphone`.** The voice-activity turn tracking: who is speaking, pause and resume, and the silence timer.
- **`SessionMessages` and `SessionMemory`.** The per-token chat log in session storage, kept to the last `limit` messages, and the end-of-session summary offered to the beacon.
- **The admin and settings dialogs.**
  - `NumberAssign`: validation of the phone-number dialog and its choice of endpoint.
  - `UserSummary`: the grouping of memory items by category and the delete confirmation.
  - `PersonalityConfig`: the mapping between the personality form and its payload, and guideline normalisation.
  - `CreateAdmin`: the permission checkboxes.

Time is counted in integer ticks of the 24000 Hz device clock. A buffer's duration is therefore exactly its number of frames, and gapless scheduling is an equation over naturals. The equation is about the requested `start` times: nothing moves a set cursor up to the clock, so after an underrun the next sources are requested in the past (`Scheduling.ScheduleAfterUnderrun`).

The model keeps two behaviours of the source as they are. A pass suspended in `await resume()` continues on the queue array it read before the await, even when a flush has replaced that array meanwhile (`Playback.Player.ResumeSettled`). In the hook, a pass that ends with chunks in the current queue leaves busy set, and its 50 ms re-run then returns at the busy guard (`Playback.Player.ContinueHook`, `Playback.Player.FireTimer`), so those chunks wait until playback is next stopped.

## Model

| member | source | states |
|---|---|---|
| `Playback.Player.constructor` | src/hooks/useAudioPlayer.js:4-10 | The player starts with an empty queue, busy clear, the cursor unset, no turn, an empty registry and no pending timers. |
| `Playback.Player.StopAudioPlayback` | src/hooks/useAudioPlayer.js:47-64 | From any state: every registered source whose `stop()` does not throw is stopped, in registry order, and a throwing one does not end the loop. Afterwards the registry is empty, a new empty queue array is installed, the cursor is 0, busy is false and the turn is null. Nothing else changes. |
| `Playback.StopEach` | src/hooks/useAudioPlayer.js:49-56 | The `forEach`/`try` loop stops exactly the sources not in the failing set, in registry order (`Stoppable`: an identity is listed iff it is registered and does not fail). |
| `Playback.Player.PlayQueuedAudio` | src/hooks/useAudioPlayer.js:67-150 | Without a device, on a closed device, while busy or with an empty queue, nothing changes. Otherwise, per revision: the hook awaits `resume()` on a suspended or interrupted device before anything else, while the inline revision checks the pre-buffer rule first, then sets busy and awaits only on a suspended device. With the pre-buffer rule met (cursor 0 and fewer than 2 chunks) nothing changes. Otherwise the whole queue is drained per `Scheduling.Schedule`, and the registry stays ordered. |
| `Playback.Player.ContinueHook` | src/hooks/useAudioPlayer.js:88-149 | The hook's pass after the await. With the pre-buffer rule met, the queue and the whole state are left intact and busy stays false. Otherwise busy is set, the array is drained, and busy is cleared only when the current queue is empty; otherwise a 50 ms re-run is added. |
| `Playback.Player.ContinueApp` | src/App.jsx:89-137 | The inline revision's pass after the await: the array is drained, busy is cleared unconditionally, and a 50 ms re-run is added when the current queue is not empty. |
| `Playback.Player.DrainPass` | src/App.jsx:89-130 | The `while`/`shift` loop: the array ends empty. The registry gains exactly the plan's sources, in FIFO order, and the cursor and next identity are the plan's. Every other field is unchanged, and so is another queue array. |
| `Playback.Player.StartFront` | src/hooks/useAudioPlayer.js:100-140 | One turn of the loop takes the front chunk off. A decoded chunk starts at the cursor (the device time when unset), and the cursor moves by its frames. An undecodable chunk leaves the registry, cursor and next identity unchanged. Every other field is unchanged, and so is another queue array. |
| `Playback.Player.ResumeSettled` | src/hooks/useAudioPlayer.js:80-86 | The oldest awaiting pass resumes. A closed device rejects, and that pass ends with nothing else changed. Otherwise the device runs and the pass continues on the queue array it read before the await, even after a flush has installed a new one. |
| `Playback.Player.SourceEnded` | src/hooks/useAudioPlayer.js:132-137 | `onended` removes exactly the first registry entry with that source's identity, and nothing else changes. An absent source leaves the registry as it is (see `WithoutAbsent`). |
| `Playback.Player.PlayGreeting` | src/hooks/useAudioPlayer.js:12-32 | With a device, the greeting buffer starts at once at the current time and is appended to the registry with a fresh identity. Without a device nothing is started. |
| `Playback.Player.FinalResetFired` | src/App.jsx:178-184 | The delayed reset: a new empty queue, cursor 0, the turn null, busy false and the registry empty. No source is told to stop. |
| `Playback.Player.FireTimer` | src/App.jsx:135-137 | A pending timer fires and leaves the list, and an index past the end is ignored. A final reset performs the reset. A re-run while the guards block changes nothing but the timer list. |
| `Playback.Player.DeviceChanged` | src/hooks/useAudioPlayer.js:71-73 | The device changes state, but a closed device stays closed, so the guard keeps refusing passes. |
| `Playback.Player.AdvanceClock` | src/App.jsx:110-112 | Only the device clock that an unset cursor is initialised from advances. |
| `Playback.Player.AcceptChunk` | src/App.jsx:150-166 | An event is accepted iff both `audio` and `contextId` are non-empty, and a rejected event changes nothing. A chunk of a turn other than a non-null current one first performs the full flush. After acceptance the turn is the chunk's `contextId` and the audio is the last queue element. Neither the first chunk nor a chunk of the same turn flushes. |
| `Playback.Player.ScheduleFinalReset` | src/App.jsx:170-186 | On `isFinal`, with a device and the cursor set, a reset is scheduled after `FinalResetDelay`. Otherwise nothing is scheduled. |
| `Playback.Player.HandleAudioChunk` | src/App.jsx:150-187 | An invalid event leaves the whole state unchanged. After a valid chunk, the current turn is the chunk's `contextId`. |
| `Playback.Player.HandleInterrupt` | src/App.jsx:190-192 | `ai-interrupt` is the total flush from any state. |
| `Playback.FinalResetDelay` | src/App.jsx:174-184 | The delay is `max(0, cursor - now)` converted to milliseconds plus 300. It is at least 300 ms and ends exactly 300 ms after the scheduled audio does. |
| `Playback.StoppableMembers` | src/hooks/useAudioPlayer.js:49-56 | An identity is stopped iff it is registered and its `stop()` does not throw. |
| `Playback.PassRegistered` | src/hooks/useAudioPlayer.js:129 | Appending a pass's sources keeps the registry ordered with distinct, increasing identities. |
| `Playback.StoppableAppend` | src/App.jsx:46-53 | The stop loop handles each source on its own, so a throwing source does not affect later ones. |
| `Playback.WithoutFirst` | src/hooks/useAudioPlayer.js:133-136 | `indexOf` followed by `splice(index, 1)` cuts out exactly the first entry with that identity. |
| `Playback.WithoutAbsent` | src/hooks/useAudioPlayer.js:23-26 | Removing an identity that is not registered is a no-op. |
| `Playback.WithoutRegistered` | src/App.jsx:121-126 | Removal keeps the registry ordered, the removed identity is gone, and nothing new appears. |
| `Scheduling.StepResumes` | src/App.jsx:89-130 | One turn of a pass keeps it on course: after an undecodable front chunk is dropped, or a decodable one is started at the cursor (the device time when unset) and registered, the rest of the whole pass is the pass over the remaining chunks. |
| `Scheduling.ScheduleIds` | src/hooks/useAudioPlayer.js:129 | A pass registers its sources with consecutive fresh identities. |
| `Scheduling.ScheduleOrder` | src/hooks/useAudioPlayer.js:99-100 | The started sources are exactly the decodable chunks, in queue (FIFO) order. |
| `Scheduling.ScheduleAfterUnderrun` | src/hooks/useAudioPlayer.js:121-126 | With a set cursor behind the clock, the next pass requests its first source at the old cursor, before the current time. |
| `Scheduling.UnderrunExample` | src/hooks/useAudioPlayer.js:121-126 | Two 2400-frame chunks with the cursor at 100 and the clock at 5000 are requested at 100 and 2500, both ending before the current time. |
| `Scheduling.ScheduleGapless` | src/hooks/useAudioPlayer.js:121-126 | Every source has positive duration. With the cursor unset, the first source starts at the current time. Each later source starts exactly where the previous one ends. The cursor ends at the first start plus the sum of the durations, and it is unchanged when nothing decodes. |
| `Scheduling.ScheduleBackToBack` | src/hooks/useAudioPlayer.js:121-126 | Every source has positive duration, the first starts at the cursor (or at the current time when the cursor is unset), and each later one starts where the previous one ends. |
| `Scheduling.ScheduleCursor` | src/hooks/useAudioPlayer.js:121-126 | After a pass the cursor sits where the last started source ends, the first start plus the total duration, and is unchanged when nothing starts. |
| `Scheduling.ScheduleSkipsUndecodable` | src/hooks/useAudioPlayer.js:102-140 | An undecodable chunk is dropped without touching the cursor or the registry, and the chunks after it are scheduled as if it had never been queued. |
| `Scheduling.Playable` | src/App.jsx:92-129 | The chunks that get a source: each is a chunk of the queue with a positive frame count, every chunk with a positive frame count is among them, and there are no more of them than queued chunks. |
| `Pcm.DecodeChunk` | src/hooks/useGreeting.js:61-88 | The decoding loops (`Uint8Array` fill, `Int16Array` view, channel fill) compute `DecodeAudio`. |
| `Pcm.FillBytes` | src/hooks/useGreeting.js:66-69 | The byte array has one entry per character, and byte i is the code of character i. |
| `Pcm.FillChannel` | src/hooks/useGreeting.js:84-88 | The channel array holds `sample / 32768` for each sample, in order. |
| `Pcm.DecodeGreeting` | src/hooks/useGreeting.js:54-97 | `decodeGreeting`: a missing or empty stored greeting is an error, and otherwise the result is the decoding of the whitespace-free text. |
| `Pcm.DecodeFrames` | src/App.jsx:93-100 | The decode inside the drain loop's `try` yields the buffer's frame count, or 0 when it throws. |
| `Pcm.FrameCountDecodes` | src/hooks/useGreeting.js:63-81 | A chunk has a positive frame count iff it decodes, and the count is then the buffer's length. |
| `Pcm.DecodedBuffer` | src/hooks/useGreeting.js:73-88 | A decoded buffer is mono at 24000 Hz with `bytes/2 > 0` values. Value i times 32768 is the little-endian signed 16-bit sample of bytes 2i and 2i+1, and it lies in [-1, 1). |
| `Pcm.Int16LE` | src/hooks/useGreeting.js:73 | A little-endian pair of bytes reads as a signed 16-bit value. |
| `Pcm.Samples` | src/hooks/useGreeting.js:73 | An even number of bytes gives half as many samples. |
| `Pcm.CodeUnits` | src/hooks/useGreeting.js:66-69 | The byte array has the decoded string's length. |
| `Pcm.NormaliseRange` | src/hooks/useGreeting.js:85-88 | Normalisation maps the Int16 range into [-1, 1) and is inverted by multiplying by 32768. |
| `Pcm.CodeIsByte` | src/hooks/useGreeting.js:68 | A character code below 256 is stored unchanged in the `Uint8Array`. |
| `Pcm.Int16RoundTrip` | src/hooks/useGreeting.js:73 | Writing a sample as two little-endian bytes and reading them back gives the sample. |
| `Pcm.SamplesOfPcmBytes` | src/hooks/useGreeting.js:71-73 | The `Int16Array` view of encoded samples gives back the samples. |
| `Pcm.DecodeEncodedSamples` | src/App.jsx:93-104 | Decoding the base64 of a non-empty list of encoded samples yields exactly the buffer of those samples, normalised. |
| `Pcm.GreetingOfEncodedSamples` | src/hooks/useGreeting.js:54-97 | The stored base64 of any non-empty sample list decodes to that list's buffer. |
| `Pcm.GreetingIgnoresSpace` | src/hooks/useGreeting.js:62 | Inserting whitespace anywhere in a stored greeting that is non-empty without it does not change the result. (A stored text of whitespace only is an empty-buffer error, while an empty one means no greeting.) |
| `Pcm.BtoaHasNoJsSpace` | src/hooks/useGreeting.js:62 | Encoded text contains no whitespace for the `\s` replace to remove. |
| `Pcm.CodeUnitsOfBinary` | src/hooks/useGreeting.js:66-69 | Reading the character codes of a binary string gives back its bytes. |
| `Base64.AtobBtoa` | src/hooks/useGreeting.js:63 | `atob` inverts base64 encoding. |
| `Base64.DecodeEncode` | src/hooks/useGreeting.js:63 | Decoding the unpadded base64 text of any byte sequence gives back that byte sequence. |
| `Base64.DecodeSextetsLength` | src/hooks/useGreeting.js:63 | The decoded length is 3 bytes per full group plus the bytes of a partial group. |
| `Base64.Atob` | src/hooks/useGreeting.js:63 | A successful `atob` yields a binary string, with every character code below 256. |
| `JsText.RemoveSpaces` | src/hooks/useGreeting.js:62 | `replace(/\s/g, "")` leaves no whitespace and never lengthens the text. |
| `JsText.RemoveSpacesAppend` | src/hooks/useGreeting.js:62 | Whitespace removal works piece by piece. |
| `JsText.TrimIdempotent` | src/components/personalityConfig/helperModals/PersonalityConfigModal.jsx:93 | Trimming twice is trimming once. |
| `JsText.TrimEnds` | src/components/personalityConfig/helperModals/PersonalityConfigModal.jsx:93 | A non-empty trimmed text neither starts nor ends with whitespace. |
| `JsText.TrimBlank` | src/components/adminDashboard/userManagement/helpermodals/NumberAssignModal.jsx:26-28 | The trimmed text is empty exactly when every character is whitespace. |
| `JsText.JoinSplit` | src/components/personalityConfig/helperModals/PersonalityConfigModal.jsx:298-302 | Joining the pieces of a split on the same separator gives back the text. |
| `JsText.SplitJoin` | src/hooks/useSessionMemory.js:12-14 | A non-empty list of separator-free pieces is recovered by splitting its join. |
| `Microphone.VoiceActivity.constructor` | src/hooks/useMicrophone.js:8-24 | The microphone starts not speaking, not paused and with no timer, and nothing has been forwarded. |
| `Microphone.VoiceActivity.HandlePcmMessage` | src/hooks/useMicrophone.js:27-76 | When paused, a message is ignored entirely. Otherwise it is forwarded exactly once. A loud message clears the timer and sets speaking. A quiet message while speaking starts the timer only when none is pending. A quiet message while not speaking changes nothing else. The turn invariant is kept. |
| `Microphone.VoiceActivity.SilenceTimerExpired` | src/hooks/useMicrophone.js:63-73 | A pending timer's expiry ends the turn and clears the timer, and a cleared timer does nothing. |
| `Microphone.VoiceActivity.Pause` | src/hooks/useMicrophone.js:113-121 | Pause sets paused, clears the timer and ends speaking. |
| `Microphone.VoiceActivity.Resume` | src/hooks/useMicrophone.js:123-126 | Resume only clears paused. |
| `SessionMessages.MessagesKey` | src/hooks/useSessionMessages.js:8 | The key is `pf_chat_` followed by the token, or by `anon` when the token is missing or empty. |
| `SessionMessages.MessagesKeyInjective` | src/hooks/useSessionMessages.js:4-8 | Distinct non-empty tokens get distinct keys, and a missing token shares its key with the token `anon`. |
| `SessionMessages.EffectiveLimit` | src/hooks/useSessionMessages.js:5-7 | The limit defaults to 20. |
| `SessionMessages.Load` | src/hooks/useSessionMessages.js:10-18 | A missing, blank or unparsable stored value yields the empty list. |
| `SessionMessages.SliceFrom` | src/hooks/useSessionMessages.js:28 | `slice(start)` with JavaScript's negative-start semantics. |
| `SessionMessages.AppendedBounded` | src/hooks/useSessionMessages.js:27-28 | With a positive limit the log is the newest `min(|prev|+1, limit)` messages of `prev ++ [m]`, ending with `m`. |
| `SessionMessages.AppendedUnlimited` | src/hooks/useSessionMessages.js:28 | With limit 0 nothing is trimmed. |
| `SessionMessages.AppendedKeepsBound` | src/hooks/useSessionMessages.js:28 | A log within a positive limit stays within it, and a log below the limit only grows. |
| `SessionMessages.MessageLog.constructor` | src/hooks/useSessionMessages.js:7-18 | The log starts from the stored list under the token's key, with the effective limit. |
| `SessionMessages.MessageLog.AddMessage` | src/hooks/useSessionMessages.js:20-41 | The new message is appended and the log trimmed. With a non-negative limit it is the last element. The list is written under the key unless the write fails, and the message's id is returned. |
| `SessionMessages.WrittenListReloads` | src/hooks/useSessionMessages.js:10-35 | A list written under a key is what a later load of that key returns. |
| `SessionMemory.SummaryLine` | src/hooks/useSessionMemory.js:13 | A line is the upper-cased role, `": "`, then the text. |
| `SessionMemory.SummaryLines` | src/hooks/useSessionMemory.js:12-13 | There is one line per message, in order. |
| `SessionMemory.SummaryLinesRecoverable` | src/hooks/useSessionMemory.js:12-14 | With no newline in any role or text, splitting the summary on newlines gives back exactly one line per message, in order. |
| `SessionMemory.MemoryKey` | src/hooks/useSessionMemory.js:10 | The cleared key is `pf_chat_` followed by the token as the template renders it: the token itself, or `null` for the hook's null token. |
| `SessionMemory.MemoryKeyMatchesLog` | src/hooks/useSessionMemory.js:10 | The cleared key equals the log's key iff the token is present and non-empty. |
| `SessionMemory.SaveSessionMemory` | src/hooks/useSessionMemory.js:4-29 | With null or empty messages nothing is offered and storage is untouched. Otherwise the payload is exactly the token and the summary, and the key is removed only when the beacon reports success. |
| `NumberAssign.Validate` | src/components/adminDashboard/userManagement/helpermodals/NumberAssignModal.jsx:26-34 | A blank number gives "Number is required". Otherwise, a number that is not 11 or 12 digits gives the digits error. A number is accepted iff its trimmed form is 11 or 12 ASCII digits, and the accepted value is the trimmed form. |
| `NumberAssign.ValidateIdempotent` | src/components/adminDashboard/userManagement/helpermodals/NumberAssignModal.jsx:31-46 | An accepted value validates again to itself. |
| `NumberAssign.ValidateIgnoresSurroundingSpace` | src/components/adminDashboard/userManagement/helpermodals/NumberAssignModal.jsx:26-34 | Surrounding whitespace never changes the verdict. |
| `NumberAssign.Submit` | src/components/adminDashboard/userManagement/helpermodals/NumberAssignModal.jsx:23-60 | An invalid number sends nothing and reports the validation error. A valid one sends the trimmed number, with PUT iff the token already has a number. |
| `NumberAssign.SubmitEndpointMatchesMethod` | src/components/adminDashboard/userManagement/helpermodals/NumberAssignModal.jsx:39-44 | PUT goes to `/token/<id>/update-number` and POST to `/token/<id>/assign-number`. |
| `NumberAssign.Prefill` | src/components/adminDashboard/userManagement/helpermodals/NumberAssignModal.jsx:17-21 | Opening for a token fills in its number, or "" when it has none. |
| `NumberAssign.HandleClose` | src/components/adminDashboard/userManagement/helpermodals/NumberAssignModal.jsx:62-67 | Closing does nothing while submitting. Otherwise it clears the number and closes. |
| `UserSummary.GroupByCategory` | src/components/adminDashboard/userManagement/UserSummary.jsx:150-154 | The reduce creates one group per category, keyed in first-occurrence order, and each group holds exactly that category's items in their original order. |
| `UserSummary.ItemsIn` | src/components/adminDashboard/userManagement/UserSummary.jsx:150-154 | A group holds only items of its category, and is empty for a category with no items. |
| `UserSummary.FirstSeen` | src/components/adminDashboard/userManagement/UserSummary.jsx:150-154 | The group keys are distinct, and they are exactly the categories that occur. |
| `UserSummary.ItemsInAppend` | src/components/adminDashboard/userManagement/UserSummary.jsx:150-154 | Grouping is compositional over concatenation, which keeps the order. |
| `UserSummary.ItemInOwnGroup` | src/components/adminDashboard/userManagement/UserSummary.jsx:151-152 | Every item is in the group of its own category. |
| `UserSummary.NoEmptyGroup` | src/components/adminDashboard/userManagement/UserSummary.jsx:151 | No group is empty. |
| `UserSummary.GroupSizesStep` | src/components/adminDashboard/userManagement/UserSummary.jsx:152 | Pushing one item adds one to the total size of the distinct groups it belongs to. |
| `UserSummary.GroupSizesSum` | src/components/adminDashboard/userManagement/UserSummary.jsx:150-154 | The group sizes sum to the number of items. |
| `UserSummary.OnVisibility` | src/components/adminDashboard/userManagement/UserSummary.jsx:44-54 | Closing resets the list, the loading flag, and all edit, delete and add dialog state. |
| `UserSummary.AskDelete` | src/components/adminDashboard/userManagement/UserSummary.jsx:67-75 | Asking records the action (`ALL`, or `ITEM` with category and key) and opens the confirm dialog. Every other field of the view is unchanged. |
| `UserSummary.ConfirmDelete` | src/components/adminDashboard/userManagement/UserSummary.jsx:80-113 | A successful ALL delete empties the list. A successful ITEM delete shows the returned summary. A failure or a missing action keeps the list. In every case the dialog closes and the action is cleared. |
| `UserSummary.DeleteAllRemovesButton` | src/components/adminDashboard/userManagement/UserSummary.jsx:180 | "Delete All" is offered only for a non-empty list, so it disappears after a successful ALL delete. |
| `UserSummary.EditItem` | src/components/adminDashboard/userManagement/UserSummary.jsx:118-121 | Editing records the item and opens the edit dialog. Every other field of the view is unchanged. |
| `UserSummary.SaveEdit` | src/components/adminDashboard/userManagement/UserSummary.jsx:123-147 | Without a recorded item nothing happens. A success shows the returned summary and closes the dialog. A failure keeps everything. |
| `PersonalityConfig.OrDefault` | src/components/personalityConfig/helperModals/PersonalityConfigModal.jsx:52-58 | `||` on a string keeps a present, non-empty value and otherwise takes the default. |
| `PersonalityConfig.FlagOrTrue` | src/components/personalityConfig/helperModals/PersonalityConfigModal.jsx:55-57 | `??` defaults only a missing flag to true, and an explicit false is kept. |
| `PersonalityConfig.FormOfPersonality` | src/components/personalityConfig/helperModals/PersonalityConfigModal.jsx:51-66 | The response's fields, with the defaults `""`, `"medium"`, `"general"`, the default traits and `[]`. The speed is passed through as loaded. |
| `PersonalityConfig.LoadDefaults` | src/components/personalityConfig/helperModals/PersonalityConfigModal.jsx:52-65 | An all-missing response loads as the documented defaults, and the defaulted text fields are never empty. |
| `PersonalityConfig.Load` | src/components/personalityConfig/helperModals/PersonalityConfigModal.jsx:49-67 | The form is replaced only when a personality is returned. |
| `PersonalityConfig.Kept` | src/components/personalityConfig/helperModals/PersonalityConfigModal.jsx:92-94 | A line contributes its trimmed text, or nothing when it is blank. |
| `PersonalityConfig.NormaliseGuidelines` | src/components/personalityConfig/helperModals/PersonalityConfigModal.jsx:92-94 | Payload guidelines are non-empty and trimmed, and there are no more of them than there were lines. |
| `PersonalityConfig.NormaliseAppend` | src/components/personalityConfig/helperModals/PersonalityConfigModal.jsx:92-94 | Normalisation distributes over concatenation, so order is preserved. |
| `PersonalityConfig.NormaliseKeepsLines` | src/components/personalityConfig/helperModals/PersonalityConfigModal.jsx:92-94 | Every non-blank line survives, trimmed. |
| `PersonalityConfig.NormaliseFixed` | src/components/personalityConfig/helperModals/PersonalityConfigModal.jsx:92-94 | Already trimmed, non-blank lines are left unchanged. |
| `PersonalityConfig.NormaliseIdempotent` | src/components/personalityConfig/helperModals/PersonalityConfigModal.jsx:92-94 | Normalising twice equals normalising once. |
| `PersonalityConfig.PayloadOfForm` | src/components/personalityConfig/helperModals/PersonalityConfigModal.jsx:83-95 | A falsy speed becomes 1. `expertiseMode` and `personalityTraits` become `expertise` and `traits`. Guidelines are normalised, and the other fields are copied. |
| `PersonalityConfig.SaveReload` | src/components/personalityConfig/helperModals/PersonalityConfigModal.jsx:51-95 | Loading a saved payload gives back the form, with guidelines normalised and a falsy speed set to 1, when empathy and expertise are non-empty. Saving again sends the same payload. |
| `PersonalityConfig.FromTextarea` | src/components/personalityConfig/helperModals/PersonalityConfigModal.jsx:302 | Typing yields at least one line, none containing a newline. |
| `PersonalityConfig.TextareaRoundTrip` | src/components/personalityConfig/helperModals/PersonalityConfigModal.jsx:298-302 | The text shown after typing is exactly the text typed. |
| `PersonalityConfig.GuidelinesRoundTrip` | src/components/personalityConfig/helperModals/PersonalityConfigModal.jsx:298-302 | A non-empty list of single-line guidelines is recovered from its textarea text. |
| `PersonalityConfig.SetTrait` | src/components/personalityConfig/helperModals/PersonalityConfigModal.jsx:271-279 | A trait checkbox sets its own key to the checked state and changes no other trait or field. |
| `PersonalityConfig.SetBehavior` | src/components/personalityConfig/helperModals/PersonalityConfigModal.jsx:332-334 | A behaviour checkbox sets its own flag only. |
| `CreateAdmin.AllFalse` | src/components/adminDashboard/adminManagement/helperModals/CreateAdminModal.jsx:18-20 | The reduce produces exactly the listed keys, all false. |
| `CreateAdmin.InitialPermissions` | src/components/adminDashboard/adminManagement/helperModals/CreateAdminModal.jsx:7-20 | The initial map has exactly the six permission keys, all false. |
| `CreateAdmin.Toggle` | src/components/adminDashboard/adminManagement/helperModals/CreateAdminModal.jsx:26-28 | The key is negated (a missing key counts as false), and every other key is unchanged. |
| `CreateAdmin.ToggleTwice` | src/components/adminDashboard/adminManagement/helperModals/CreateAdminModal.jsx:26-28 | Toggling a present key twice restores the map. |
| `CreateAdmin.ToggleCommutes` | src/components/adminDashboard/adminManagement/helperModals/CreateAdminModal.jsx:26-28 | Toggles of different keys commute. |
| `CreateAdmin.ToggleKeepsKeys` | src/components/adminDashboard/adminManagement/helperModals/CreateAdminModal.jsx:26-28 | Toggling a listed key keeps the six keys. |
| `CreateAdmin.Body` | src/components/adminDashboard/adminManagement/helperModals/CreateAdminModal.jsx:33-37 | The request body is exactly the role and the permissions. |
| `CreateAdmin.SubmitFinished` | src/components/adminDashboard/adminManagement/helperModals/CreateAdminModal.jsx:39-57 | A creation shows the token and invite link. Any other outcome keeps what was shown. Submitting is cleared either way. |
| `CreateAdmin.HandleClose` | src/components/adminDashboard/adminManagement/helperModals/CreateAdminModal.jsx:59-66 | Closing resets the role to "ADMIN", every permission to false, and the generated data to null. |

## Left out

- The Web Audio device is a state and a clock in ticks at 24000 Hz. The hook revision is assumed to run on a device at the same rate, since `src/hooks/useAudioPlayer.js` does not create its own. `createBufferSource`, `connect`, `start` and `stop` are represented only by the registry and the list of stopped sources. A source records its origin, start and frame count, not its sample values.
- Which source's `stop()` throws is an input (the `failing` set). Whether `resume()` rejects is decided by the device state when it settles.
- Timers, `onended` and `await` become event methods that the environment may call in any order. Real-time delays are recorded as numbers, not enforced.
- `atob` is WHATWG forgiving-base64 over the alphabet of section 4 of RFC 4648. Character codes of 256 and above, which only `btoa` rejects, cannot arise.
- An odd number of decoded bytes is an error, because `Int16Array` throws a RangeError. So is an empty buffer, because `createBuffer` with length 0 throws NotSupportedError. Both drop the chunk, as a throwing decode does in the source.
- Sample values are exact rationals; IEEE-754 rounding of `sample / 32768` and of `duration` is not modelled.
- Upper-casing in the summary covers ASCII letters only.
- JSON serialisation and parsing are abstracted. A stored entry is the list, a blank string or unparsable text. Valid JSON that is not a list is not distinguished from a list.
- The network is not part of this model: Socket.IO, axios and `fetch`. Requests are described as values, and server replies are inputs.
- `sessionStorage` is a map. The beacon's result is an input. The `beforeunload` listener wiring is left out.
- The microphone's `start` and capture internals are left out (`getUserMedia`, the worklet). `stop` is called but never defined in `src/hooks/useMicrophone.js`. `calculateRms` is not part of this model; loudness is a boolean input.
- In `groupedSummary`, the key order is first occurrence. JavaScript orders integer-like keys first, and category names inherited from `Object.prototype` misbehave; both are left out.
- UserSummary's fetch effect and the add-memory flow are I/O and presentation.
- The submitting flags of the number and personality dialogs are not tracked beyond `NumberAssign.HandleClose`.
- Playback.Player.FireTimer: a re-run timer firing when the guards do not block runs a full pass; its contract states only the blocked case. The unblocked case is `PlayQueuedAudio`'s contract applied after the timer is removed.
- Playback.Player.HandleAudioChunk: the contract states the rejected event and the resulting turn only. Acceptance, the pass and the reset are stated by `AcceptChunk`, `PlayQueuedAudio` and `ScheduleFinalReset`, which it calls in that order.
- Start times are the times requested of `start(when)`. A device plays a source whose requested time has passed at once, so after an underrun the sources of a pass overlap in what is heard. The model records the requested times only (see `Scheduling.ScheduleAfterUnderrun`).
- Strings are sequences of Unicode scalar values. A JavaScript string is a sequence of UTF-16 code units, so an astral character is one character here and two units there, and lone surrogates cannot be represented.
- `Int16LE` reads samples little-endian. `Int16Array` uses the host's byte order, so the model assumes a little-endian host.
