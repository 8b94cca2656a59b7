# on-fly-translator: the decision logic, in Dafny

on-fly-translator is a macOS menu-bar application. A global hotkey
(Ctrl+Cmd+T) captures the text of the focused application. The app asks the
user to confirm, translates the text with Google's Gemini model, shows the
result, and on "Paste" puts the translation on the pasteboard and presses
Cmd+V.

This project models the three pieces of logic under that glue:

- **The input monitor's capture macro** (`Monitor`, `input_monitor.dfy`).
  - A class `InputMonitor` with the `isEnabled` gate, the `isMacroRunning` lock, the pasteboard and a trace (`log`) of everything posted or read.
  - A hotkey press is ignored while disabled or while a macro runs.
  - Otherwise the macro takes the lock and reads the Accessibility selection.
  - Failing that, it presses Cmd+A, clears the pasteboard, presses Cmd+C and polls the pasteboard in a countdown loop, starting with 20 retries.
  - Captured text goes to the delegate. The delegate's completion frees the lock and, when given a translation, writes it and presses Cmd+V.
  - The Accessibility result is a parameter. The successive pasteboard reads are a function `observe` from the poll number to the contents.
- **The translation client** (`GeminiService`, `gemini_service.dfy`).
  - `TranslationError` and its hand-written `==`.
  - `makeRequest`, built step by step: URL, method, header, prompt with its "Auto" case, and JSON body.
  - `translate`: the ordered error cascade over the data task's reply.
- **The application delegate** (`App`, `app_delegate.dfy`).
  - The persisted settings and their defaults.
  - The acceptance rule for a pasted API key.
  - `toggleTranslation`, and the check-mark loop `updateMenuState` with the two language selectors.
  - The `triggerTranslation` flow: from the text, the two dialog answers and the service's result to what the completion yields. Each step is recorded so the model can show the completion is called exactly once.
  - `RunHotKey` composes one hotkey press end to end: the monitor's macro, the delegate's flow, then the completion back in the monitor.

Shared pieces:

- `wrappers.dfy` holds `Option` and `Result`.
- `text.dfy` holds the trimming of `whitespacesAndNewlines`.

## Model

| member | source | states |
|---|---|---|
| Text.TrimStart | TranslatorApp/Sources/GoogleGeminiService.swift:139 | the result is a suffix of the input, everything removed is white space, and it starts with a non-white character or is empty |
| Text.TrimEnd | TranslatorApp/Sources/GoogleGeminiService.swift:139 | the result is a prefix of the input, everything removed is white space, and it ends with a non-white character or is empty |
| Text.Trim | Sources/AppDelegate.swift:89 | `trimmingCharacters(in: .whitespacesAndNewlines)`: the result is empty exactly when the text is all white space; otherwise both of its ends are non-white |
| Text.TrimIsSlice | Sources/AppDelegate.swift:269 | trimming cuts one contiguous slice out of the string and removes only white space before and after it |
| Text.TrimIdempotent | Sources/AppDelegate.swift:269 | trimming a trimmed string changes nothing |
| GeminiService.Equal | TranslatorApp/Sources/GoogleGeminiService.swift:10-19 | `==` holds exactly when the two errors have the same case and the same domain and code, or the same message, as that case compares |
| GeminiService.EqualByCase | TranslatorApp/Sources/GoogleGeminiService.swift:10-19 | same-case pairs: `noAPIKey` and `invalidURL` are always equal, network and decoding errors iff domain and code agree, API errors iff their strings agree; errors of different cases are never equal |
| GeminiService.EqualIsEquivalence | TranslatorApp/Sources/GoogleGeminiService.swift:3-19 | `==` is reflexive, symmetric and transitive, and implied by structural equality, as `Equatable` requires |
| GeminiService.Prompt | TranslatorApp/Sources/GoogleGeminiService.swift:77-82 | the prompt ends with two newlines followed by the original text |
| GeminiService.PromptRoundTrip | TranslatorApp/Sources/GoogleGeminiService.swift:77-82 | the original text can be read back whole from the prompt for the same pair of languages |
| GeminiService.PromptNamesSource | TranslatorApp/Sources/GoogleGeminiService.swift:78-82 | with source "Auto" the prompt is "Translate the following text to <tgt>…", otherwise "…from <src> to <tgt>…", followed by the fixed instruction and the text |
| GeminiService.RequestBody | TranslatorApp/Sources/GoogleGeminiService.swift:84-92 | the body holds exactly one content with exactly one part, whose text is the prompt |
| GeminiService.MakeRequest | TranslatorApp/Sources/GoogleGeminiService.swift:65-98 | a request exists iff the URL parses and the body serialises; its URL is the endpoint + "?key=" + key, the method is POST, the single header is Content-Type: application/json, and the body reads back as the prompt |
| GeminiService.FirstCandidateText | TranslatorApp/Sources/GoogleGeminiService.swift:138 | there is a text iff there is a first candidate with a first part, and then it is that part's text |
| GeminiService.InterpretReply | TranslatorApp/Sources/GoogleGeminiService.swift:112-145 | a transport error always wins as `networkError`; success iff there is data that decodes, carries no error object and has a first candidate part; the value is that part trimmed |
| GeminiService.ReplyFailures | TranslatorApp/Sources/GoogleGeminiService.swift:113-145 | no data gives `apiError("No data received")`, a decoding failure gives `decodingError`, an error object beats any candidates and gives `apiError("API Error: " + message)`, no candidate or part gives `apiError("No candidates returned")` |
| GeminiService.TranslationIsTrimmed | TranslatorApp/Sources/GoogleGeminiService.swift:138-139 | a successful translation has no white space at either end, and is empty only when the model's text was all white space |
| GeminiService.Translate | TranslatorApp/Sources/GoogleGeminiService.swift:100-149 | an empty or missing key gives `noAPIKey` and sends nothing; a key that yields no request gives `invalidURL`; otherwise exactly the `makeRequest` request is sent and the result is the reply's interpretation |
| Monitor.ReadsLog | TranslatorApp/Sources/InputMonitor.swift:158-165 | the trace of n polls has n entries |
| Monitor.ReadsLogAt | TranslatorApp/Sources/InputMonitor.swift:158-165 | poll j is recorded at position j, holding what the pasteboard showed on that poll |
| Monitor.Poll | TranslatorApp/Sources/InputMonitor.swift:158-174 | a countdown from n reads the pasteboard at least once and at most n + 1 times; exhaustion means exactly n + 1 reads |
| Monitor.PollStopsAtFirstCapture | TranslatorApp/Sources/InputMonitor.swift:158-165 | every read before the last was empty, and text is captured iff the last read was non-empty, and it is that read's text |
| Monitor.PollExhaustedIff | TranslatorApp/Sources/InputMonitor.swift:161-170 | the poll gives up iff all n + 1 reads are empty |
| Monitor.MacroAccessibilityPath | TranslatorApp/Sources/InputMonitor.swift:106-110 | a non-empty Accessibility selection is handed to the delegate; no key is pressed and the pasteboard is untouched |
| Monitor.MacroFallbackPath | TranslatorApp/Sources/InputMonitor.swift:112-127 | otherwise the trace is Cmd+A down/up, clear, Cmd+C down/up, then 1 to 21 reads, then the hand-off of the first non-empty read |
| Monitor.FallbackTrace | TranslatorApp/Sources/InputMonitor.swift:114-126 | the fallback's trace cut into its parts: Cmd+A down/up, clear, Cmd+C down/up, then exactly the poll's reads, then the hand-off of what it captured |
| Monitor.MacroLock | TranslatorApp/Sources/InputMonitor.swift:97-169 | the macro captures nothing iff the selection and all 21 reads were empty (that it then gives the lock back follows from `MacroStep`) |
| Monitor.MacroEndsWithDelivery | TranslatorApp/Sources/InputMonitor.swift:176-179 | with a delegate present, captured text is the last thing the macro does: hand it to the delegate |
| Monitor.MacroNeverPastes | TranslatorApp/Sources/InputMonitor.swift:91-128 | the macro itself never writes the pasteboard and never presses V |
| Monitor.InputMonitor.constructor | TranslatorApp/Sources/InputMonitor.swift:9-23 | a new monitor is enabled, idle and has no delegate |
| Monitor.InputMonitor.HandleHotKey | TranslatorApp/Sources/InputMonitor.swift:80-87 | while disabled nothing changes; otherwise one macro step; a held lock stays held |
| Monitor.InputMonitor.PerformTranslationMacro | TranslatorApp/Sources/InputMonitor.swift:91-128 | with the lock held nothing changes; otherwise the trace grows by the macro's events, the lock stays taken iff text was captured, and the pasteboard ends as the last read left it |
| Monitor.InputMonitor.CopySelection | TranslatorApp/Sources/InputMonitor.swift:118-127 | clear, Cmd+C, then the poll with 20 retries, and its effect on trace, pasteboard and lock |
| Monitor.InputMonitor.CheckClipboard | TranslatorApp/Sources/InputMonitor.swift:158-174 | the loop logs exactly the reads of the countdown and the hand-off; the lock is released only on exhaustion |
| Monitor.InputMonitor.ReadGeneralPasteboard | TranslatorApp/Sources/InputMonitor.swift:159 | one read of the pasteboard on poll k: it then holds what the focused application has put there, and the read is logged |
| Monitor.InputMonitor.HandleCapturedText | TranslatorApp/Sources/InputMonitor.swift:176-179 | the text goes to the delegate, if there is one, and nothing else happens |
| Monitor.InputMonitor.Complete | TranslatorApp/Sources/InputMonitor.swift:179-200 | the lock is freed; nil changes nothing else; a translation clears the pasteboard, writes exactly that text, then presses Cmd+V |
| Monitor.InputMonitor.PostKeyEvent | TranslatorApp/Sources/InputMonitor.swift:204-217 | one key-down and one key-up with the same key code and flags |
| App.DefaultsWhenUnset | Sources/AppDelegate.swift:12-25 | with nothing stored, the source is "Russian", the target "German", and translation is enabled |
| App.SettingsRoundTrip | Sources/AppDelegate.swift:12-25 | each setter is read back by its getter and leaves the other two settings alone |
| App.AcceptedAPIKey | Sources/AppDelegate.swift:269 | a key is accepted iff the pasteboard holds a string that is not all white space, and the key is that string trimmed, not empty |
| App.AcceptedKeyIsTrimmed | Sources/AppDelegate.swift:269-270 | pasting an accepted key again accepts the same key |
| App.AcceptedKeyIsUsable | Sources/AppDelegate.swift:269-270 | a stored accepted key reads back unchanged and is non-empty, so `translate` does not fail with `noAPIKey` |
| App.AppDelegate.constructor | Sources/AppDelegate.swift:176-188 | the delegate owns a new enabled, idle monitor (line 29); the menu headers read "Source: …" and "Target: …" with the stored languages, the one part of `setupMenu` that is modelled |
| App.AppDelegate.AttachMonitor | Sources/AppDelegate.swift:46-47 | the monitor gets its delegate and the persisted enable flag, and nothing else changes |
| App.AppDelegate.ToggleTranslation | Sources/AppDelegate.swift:258-261 | the persisted flag is negated, the monitor's `isEnabled` equals the new value, and the sender's check mark shows it |
| App.AppDelegate.PasteAPIKey | Sources/AppDelegate.swift:268-291 | the trimmed string of the general pasteboard, the same one the monitor writes translations to, is stored under "GeminiAPIKey" iff it is non-empty; otherwise the defaults are unchanged |
| App.AppDelegate.UpdateMenuState | Sources/AppDelegate.swift:313-317 | afterwards each item is on iff its title is the selected one; the items, their number and their titles are unchanged |
| App.AppDelegate.SelectSourceLanguage | Sources/AppDelegate.swift:300-305 | the sender's title becomes the source language, only that title is checked in the source menu, the header reads "Source: <title>", and the target is unchanged |
| App.AppDelegate.SelectTargetLanguage | Sources/AppDelegate.swift:307-311 | the same for the target language |
| App.AppDelegate.TriggerTranslation | Sources/AppDelegate.swift:85-149 | the completion is called exactly once, as the last step; blank text completes with nil and shows nothing; a translation is requested iff the text is not blank and the user confirmed; the completion yields a value iff every stage said yes, and then it is the translation |
| App.AppDelegate.ConfirmAndTranslate | Sources/AppDelegate.swift:95-148 | the input dialog comes first; the service is called, with the current languages, iff the user chose "Translate"; the completion is called once, last, and yields a value iff the user confirmed, the service succeeded and the user chose "Paste" |
| App.AppDelegate.HandleTranslationResult | Sources/AppDelegate.swift:111-146 | success shows the result dialog, then the completion with the translation on "Paste" and nil otherwise; failure shows the error dialog, then the completion with nil |
| App.AppDelegate.RunHotKey | TranslatorApp/Sources/InputMonitor.swift:176-200 | a press on a disabled or busy monitor changes nothing; the delegate stays attached, so presses can follow one another; one that starts a macro leaves the monitor idle again; a value is pasted only when both dialogs were confirmed and the service succeeded, and then the pasteboard holds the translation and the trace ends with Cmd+V; when nothing is pasted, the pasteboard is what the macro left there (the copied selection or nothing); conversely, a press that captures non-blank text with both dialogs confirmed and the service successful completes with that translation |

## Left out

- Carbon hotkey registration and its C callback (`start`) are not modelled. They are foreign calls whose only logic is status checks. A press is the call to `HandleHotKey`.
- CGEvent construction and posting, the Accessibility queries and NSPasteboard access are replaced by inputs and the `log` trace:
  - the Accessibility result is the `ax` parameter;
  - pasteboard reads are `observe(k)`;
  - a key press is a down/up pair of `KeyEvent` entries.
- `DispatchQueue` scheduling and the delays (0.1 s, 0.05 s, 0.2 s, 0.5 s) are not modelled. Work runs sequentially in the order the source schedules it.
  - The delegate's completion is a separate method, `InputMonitor.Complete`, because it runs later.
  - The model does not capture a second hotkey press arriving between scheduled blocks.
- URLSession, JSON serialisation and decoding, and `URL(string:)` validity are abstract:
  - `parsesAsURL` and `serializes` are parameters;
  - the reply is a datatype with the decoded response or a decoding error;
  - the data task is the `send` function.
- The session configuration (30 s and 60 s timeouts) and the ignored `String(data:encoding:)` debug conversion are not modelled.
- `Text.IsWhitespace` lists the Unicode separators, the tab, U+000A to U+000D and U+0085. It stands in for Foundation's `whitespacesAndNewlines` and is not taken from a Unicode database.
- NSAlert, NSMenu and status-bar construction are UI and are not modelled:
  - their texts, `setupMenu` apart from the "Source: …" and "Target: …" header titles (kept by `App.AppDelegate.constructor`), `showDialog`, `checkPermissions` and `checkAndRequestPermissions`;
  - sounds, icons, `NSApp.hide` and NSWorkspace URL opening.
  - The two dialog answers are parameters of `TriggerTranslation`.
  - The key preview "Key: abcde...xyz" in `pasteAPIKey` is not modelled.
- Sources/Logger.swift is file I/O and is not part of this model.
- UserDefaults is modelled as a map holding strings and booleans. `string(forKey:)` also converts stored numbers to strings; that and the other property-list types are not modelled.
- `error.localizedDescription` in the error dialog is not modelled. The dialog carries the error value itself.
- The monitor's `delegate` is a weak reference; `hasDelegate` records whether it is set.
  - Without a delegate, captured text goes nowhere and the lock is never released, as in the source.
  - `App.AppDelegate.RunHotKey` requires the delegate to be attached, as `AttachMonitor` does at launch.
- App.AppDelegate.RunHotKey: states the outcome of the press (lock, delegate, pasteboard in both outcomes, final Cmd+V), not the full trace. The trace of the macro part is stated by `PerformTranslationMacro` and the `Macro…` lemmas.
- GeminiService.Equal: compares the domains and the messages character by character. Swift's `String ==` uses Unicode canonical equivalence, so `apiError("\u{E9}")` equals `apiError("e\u{301}")` in the source but not in the model. There is no Unicode normalisation here.
- GeminiService.EqualByCase: "their strings agree" means equal as sequences of characters, not canonically equivalent as Swift compares them, for the same reason.
- App.AppDelegate.UpdateMenuState: compares item titles character by character, where Swift compares them by canonical equivalence; the `"Auto"` test in `Prompt` has the same gap.
