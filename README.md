# AgriSmart job board, weather advisor and chatbot — a Dafny model

This project models the state and decision logic of three React components of
AgriSmart, a farming assistant web app.

- **Job board** (`components/JobBoard.tsx`). The board holds a list of job postings and a posting
  form that puts a new posting at the front of the list. It has a "View in" language selector. A
  translation cycle fills a translations cache on mount and whenever the language or the postings
  change. Each
  posting is shown either as itself or as its cached translation. On top of that sit a
  case-insensitive title/location search and the contact/apply dialog. The dialog moves through
  three views (contact, form, submitted) and validates the application form: trimmed name, trimmed
  e-mail, then the pattern `^\S+@\S+\.\S+$`.
- **Weather advisor** (`components/GovSchemes.tsx`). It has the priority classifier that picks a
  rain, cloud or sun icon for a day's conditions. It also has the rotation that names today and the
  next six weekdays, and the search handler with its blank-location guard. The last piece is the
  label of each forecast card.
- **Chatbot** (`components/MarketPlace.tsx`). It keeps an append-only message log. A send appends
  the user's message and then exactly one model message: the reply, or a fixed apology when the
  request fails. Enter sends only when no reply is awaited.

Modules:

- `Wrappers` holds `Option`.
- `Text` models the ECMAScript string operations the components use. These are `trim`
  (ECMAScript's WhiteSpace and LineTerminator code points), `toLowerCase` (ASCII letters), `includes`
  and the `\s` class.
- `Seqs` models `Array.prototype.filter` and subsequences.
- `Jobs` holds the job record and the pure rules: display selection, the search filter and one
  translation cycle as a function of its inputs.
- `JobBoard` is the board as a class whose methods are the component's event handlers.
- `ApplyModal` is the dialog and its validation.
- `Weather` is the advisor.
- `Chat` is the chatbot.

Each `async` handler is split at its one `await` into a `Begin…` method and a `Finish…` method.
The awaited value is a parameter of `Finish…`. A `Handle…` method runs the two in sequence.

Four behaviours of the code worth knowing:

- The translations cache is keyed by job id alone, not by (id, language). A translation fetched for
  one language is therefore shown in any other foreign view language until it is overwritten (see
  `Jobs.EntryShownInEveryForeignLanguage` and `Jobs.StaleTranslationStaysVisible`).
- A cycle does not compute a "missing" set. It requests every job not written in the view language,
  whatever the cache holds. A repeated cycle therefore issues the same requests again. When the
  service answers as before, it leaves the cache as it was (`Jobs.CycleIdempotent`).
- A failing translation is not isolated per job. `Promise.all` rejects the whole batch, and the
  cache keeps every old entry and gains no new one (`Jobs.CycleFailureKeepsCache`).
- The clearing branch needs every posting to be English. The three initial postings include a Hindi
  one and are never removed, so on a real board that branch is never taken
  (`JobBoard.InitialJobsPreventClearing`).

## Model

| member | source | states |
|---|---|---|
| Text.TrimStartKeepsSuffix | components/GovSchemes.tsx:40 | trimming the front keeps the longest suffix that starts with a non-whitespace character; everything dropped is whitespace |
| Text.TrimEndKeepsPrefix | components/GovSchemes.tsx:40 | trimming the end keeps the longest prefix that ends with a non-whitespace character; everything dropped is whitespace |
| Text.Trim | components/GovSchemes.tsx:40 | `String.prototype.trim`; what it keeps is stated by `TrimStartKeepsSuffix` and `TrimEndKeepsPrefix` |
| Text.IsWhitespace | components/GovSchemes.tsx:40 | the code points `trim` strips and `\s` matches: ECMAScript's WhiteSpace (tab, vertical tab, form feed, space, no-break space, byte-order mark and the space separators U+1680, U+2000–U+200A, U+202F, U+205F, U+3000) and LineTerminator (line feed, carriage return, U+2028, U+2029); used by `Trim`, `IsBlank` and `MatchesEmailPattern` |
| Text.IsBlank | components/MarketPlace.tsx:24 | `!s.trim()`; characterised by `BlankIffAllWhitespace` |
| Text.BlankIffAllWhitespace | components/MarketPlace.tsx:24 | `!s.trim()` holds exactly when every character of `s` is whitespace, including for the empty string |
| Text.LowerChar | components/JobBoard.tsx:433 | an upper-case ASCII letter becomes the letter 32 code points up, its lower-case form; every other character is unchanged |
| Text.ToLower | components/JobBoard.tsx:433 | lowercasing keeps the length, and each character becomes its lower-case form if it is an upper-case ASCII letter and stays the same otherwise |
| Text.ToLowerIdempotent | components/GovSchemes.tsx:7 | lowercasing twice is lowercasing once |
| Text.Contains | components/GovSchemes.tsx:8 | `String.prototype.includes`; characterised by `ContainsIff` |
| Text.ContainsIff | components/GovSchemes.tsx:8 | `includes` holds exactly when the substring occurs at some index |
| Text.ContainsEmpty | components/JobBoard.tsx:433 | every string includes the empty string |
| Text.ContainsCharIff | components/JobBoard.tsx:220 | including a one-character string is membership of that character |
| Seqs.Filter | components/JobBoard.tsx:380 | the result is no longer than the input; every element of it is in the input and kept; every kept input element is in it |
| Seqs.FilterIsSubsequence | components/JobBoard.tsx:431 | `filter` keeps input order: the result is a subsequence of the input |
| Seqs.FilterKeepsAll | components/JobBoard.tsx:431-436 | a test that keeps every element returns the input unchanged |
| Seqs.FilterKeepsNone | components/JobBoard.tsx:380 | a test that keeps no element returns the empty list |
| Seqs.FilterCount | components/JobBoard.tsx:431 | each value occurs in the result as often as in the input if kept, and not at all otherwise |
| Jobs.DisplayData | components/JobBoard.tsx:367-370 | `getJobDisplayData`; its cases are stated by `NativeIgnoresCache` and `ForeignUsesOwnEntry` |
| Jobs.NativeIgnoresCache | components/JobBoard.tsx:367-368 | a job in the view language is displayed as itself whatever the cache holds |
| Jobs.ForeignUsesOwnEntry | components/JobBoard.tsx:367-370 | a job in another language is displayed as its cache entry if present, else as itself; only the entry under its own id matters |
| Jobs.EntryShownInEveryForeignLanguage | components/JobBoard.tsx:369 | with the id-only key, a job shows the same record in every language other than its own |
| Jobs.FieldMatches | components/JobBoard.tsx:433-434 | one criterion of the filter; characterised by `FieldMatchesIff` |
| Jobs.MatchesFilters | components/JobBoard.tsx:433-435 | `titleMatch && locationMatch`: both criteria hold of the displayed title and location; used by `JobsToDisplay` |
| Jobs.JobsToDisplay | components/JobBoard.tsx:430-437 | `jobsToDisplay`; characterised by `JobsToDisplaySelects` and `NoFiltersShowsAll` |
| Jobs.FieldMatchesIff | components/JobBoard.tsx:433-434 | a criterion matches exactly when the lowercased criterion occurs in the lowercased displayed field; an empty criterion always matches |
| Jobs.JobsToDisplaySelects | components/JobBoard.tsx:430-437 | the listed jobs are a subsequence of the board whose displayed records match both criteria, and every matching job is listed as often as it occurs on the board |
| Jobs.NoFiltersShowsAll | components/JobBoard.tsx:424-437 | with both criteria empty every job is listed, in board order |
| Jobs.ClearsCache | components/JobBoard.tsx:374 | the clearing condition; related to the requests by `ClearingCycleHasNoRequests` and `ForeignJobPreventsClearing` |
| Jobs.JobsToTranslate | components/JobBoard.tsx:380 | `jobsToTranslate`; characterised by `JobsToTranslateSelects` |
| Jobs.JobsToTranslateSelects | components/JobBoard.tsx:379-380 | the requests are the jobs not in the view language, in board order and each as often as it is on the board, independent of the cache; there are none exactly when every job is in the view language |
| Jobs.ClearingCycleHasNoRequests | components/JobBoard.tsx:374-377 | when the cycle clears the cache it has nothing to translate |
| Jobs.ForeignJobPreventsClearing | components/JobBoard.tsx:374 | a board holding a non-English job never takes the clearing branch |
| Jobs.FetchAll | components/JobBoard.tsx:382-383 | the batch succeeds exactly when every call succeeds; its results are the per-request results in request order |
| Jobs.ZipById | components/JobBoard.tsx:386-388 | the `forEach` that fills `newCache`; characterised by `ZipByIdKeys` and `ZipByIdAt`, and computed by `BuildNewCache` |
| Jobs.ZipByIdKeys | components/JobBoard.tsx:385-388 | the new cache has an entry for exactly the requested ids |
| Jobs.ZipByIdAt | components/JobBoard.tsx:385-388 | a requested id maps to the result of the last request with that id |
| Jobs.Merge | components/JobBoard.tsx:389 | the merged cache has the keys of both; new entries win, other old entries stay |
| Jobs.CycleCache | components/JobBoard.tsx:372-399 | the cache after one cycle; characterised by `CycleFailureKeepsCache`, `CycleSuccessEntries` and `CycleIdempotent` |
| Jobs.CycleFailureKeepsCache | components/JobBoard.tsx:391-395 | if any requested translation fails, the cycle leaves the cache unchanged |
| Jobs.CycleSuccessEntries | components/JobBoard.tsx:384-390 | if every translation succeeds, the keys are the old keys plus the requested ids, each requested id maps to its request's translation, and every other entry is unchanged |
| Jobs.FilterKeepsUniqueIds | components/JobBoard.tsx:380 | the requests of a board with distinct ids have distinct ids |
| Jobs.DisplayAfterSuccessfulCycle | components/JobBoard.tsx:367-390 | after a cycle that clears or fully succeeds, each job in the view language shows as itself and every other job as its translation into the view language |
| Jobs.CycleIdempotent | components/JobBoard.tsx:372-399 | when the service answers as before, running the same cycle again on its own result leaves the cache as it is |
| Jobs.SwitchToHindiAndBack | components/JobBoard.tsx:372-399 | one English job viewed in Hindi is requested once and then shown translated; switching back to English clears the cache and shows the job itself |
| Jobs.StaleTranslationStaysVisible | components/JobBoard.tsx:367-395 | a Hindi translation stays on screen after switching to a language whose translation fails |
| Jobs.InitialRequests | components/JobBoard.tsx:6-10 | the initial board in Hindi requests the two English postings, in English the Hindi one, and never clears in any language |
| JobBoard.InitialJobsPreventClearing | components/JobBoard.tsx:374-377 | a board that keeps the initial postings never takes the clearing branch |
| JobBoard.BuildNewCache | components/JobBoard.tsx:385-388 | the `forEach` loop builds exactly the id-zipped cache of requests and results |
| JobBoard.PostingComplete | components/JobBoard.tsx:403 | none of the four text fields is the empty string; used by `Post` and `Submit` |
| JobBoard.InitialJobsInvariant | components/JobBoard.tsx:6-10 | the initial postings have distinct ids |
| JobBoard.PrependKeepsInvariant | components/JobBoard.tsx:407-411 | putting a posting with a fresh id in front keeps ids distinct and keeps the initial postings at the end |
| JobBoard.Board.constructor | components/JobBoard.tsx:344-365 | the initial state: the three initial postings, the list view, empty form fields and criteria, English, an empty cache; the mount-time cycle is `TranslateAllJobs` run right after |
| JobBoard.Board.SelectViewLanguage | components/JobBoard.tsx:372-399 | the view language becomes the selected one; a different language re-runs the translation cycle, so the cache becomes the cycle's cache for the new language, and the same language leaves the cache as it was |
| JobBoard.Board.ToggleView | components/JobBoard.tsx:468 | the view flips between the list and the posting form |
| JobBoard.Board.EditPosting | components/JobBoard.tsx:541-550 | the posting form fields take the typed values |
| JobBoard.Board.Post | components/JobBoard.tsx:401-418 | an incomplete form sets the error and changes neither the postings nor the fields; a complete one puts the new posting in front of the unchanged old list, clears the fields and the error and shows the list; it reports whether it posted; ids stay distinct |
| JobBoard.Board.Submit | components/JobBoard.tsx:372-418 | the submit handler followed by the cycle the changed job list triggers: an incomplete form changes nothing but the error; a complete one is posted and the cache becomes the cycle's cache for the new job list |
| JobBoard.Board.EditSearch | components/JobBoard.tsx:482-489 | the search boxes take the typed values |
| JobBoard.Board.Search | components/JobBoard.tsx:420-422 | the typed text becomes the criteria in force |
| JobBoard.Board.ClearSearch | components/JobBoard.tsx:424-428 | boxes and criteria become empty, and every posting is listed |
| JobBoard.Board.Listed | components/JobBoard.tsx:430-437 | `jobsToDisplay` over the board's postings, criteria, language and cache; used by `ClearSearch` |
| JobBoard.Board.TranslateAllJobs | components/JobBoard.tsx:372-399 | the cache becomes the cycle's cache; the requests sent are exactly the jobs not in the view language, or none in a clearing cycle; `raisedLoading` reports whether the cycle took the loading branch, and `isTranslating` is down at the end (part of `Valid`); under `Valid` the clearing branch cannot occur |
| ApplyModal.TextFor | components/JobBoard.tsx:219 | the selected language's strings, or English's when the language has no table; used by `Modal.FormSubmit` |
| ApplyModal.IsEmail | components/JobBoard.tsx:220 | a contact is an e-mail exactly when it contains `@` |
| ApplyModal.IndexFrom | components/JobBoard.tsx:234 | finds the first `@` at or after a position, or the end |
| ApplyModal.MatchesEmailPattern | components/JobBoard.tsx:234 | the matcher for `^\S+@\S+\.\S+$`; characterised by `EmailPatternIff` |
| ApplyModal.PatternGivesShape | components/JobBoard.tsx:234 | a string the matcher accepts has the shape `x@y.z` with non-empty, whitespace-free parts |
| ApplyModal.ShapeGivesPattern | components/JobBoard.tsx:234 | every string of that shape is accepted by the matcher |
| ApplyModal.EmailPatternIff | components/JobBoard.tsx:234 | the matcher accepts exactly the language of `^\S+@\S+\.\S+$` |
| ApplyModal.CheckApplication | components/JobBoard.tsx:224-237 | the checks in order, each outcome as an if-and-only-if: name blank, else e-mail blank, else not of the pattern's shape, else accepted |
| ApplyModal.AcceptedIff | components/JobBoard.tsx:224-237 | an application is accepted exactly when the name is not blank and the e-mail has the pattern's shape |
| ApplyModal.ErrorText | components/JobBoard.tsx:226-238 | the message of each check outcome; used by `Modal.FormSubmit` |
| ApplyModal.Modal.constructor | components/JobBoard.tsx:207-214 | the dialog opens on the contact view in English with an empty form |
| ApplyModal.Modal.SelectLanguage | components/JobBoard.tsx:273 | the dialog language becomes the selected one |
| ApplyModal.Modal.ApplyClick | components/JobBoard.tsx:222 | Apply Now moves to the form view |
| ApplyModal.Modal.EditApplication | components/JobBoard.tsx:314-322 | the form fields take the typed values |
| ApplyModal.Modal.FormSubmit | components/JobBoard.tsx:224-247 | the outcome is the checks' outcome, the error is its message in the selected language, and the view becomes submitted exactly when accepted; submitted is only ever reached with an accepted name and e-mail |
| ApplyModal.Modal.Close | components/JobBoard.tsx:249-259 | closing resets the view to contact and empties the fields and the error |
| Weather.WeatherIcon | components/GovSchemes.tsx:6-12 | rain when the lowercased conditions mention rain or shower; else cloud when they mention cloud; else sun when they mention sun or clear; else cloud; each as an if-and-only-if |
| Weather.WeatherIconIgnoresCase | components/GovSchemes.tsx:7 | the icon does not depend on letter case |
| Weather.RainOverCloud | components/GovSchemes.tsx:8-9 | "Cloudy with Rain" gets the rain icon |
| Weather.RotationDistinct | components/GovSchemes.tsx:18-27 | seven consecutive weekdays are pairwise distinct |
| Weather.Next7Days | components/GovSchemes.tsx:18-27 | seven names, entry i being the weekday `(today + i) mod 7`, all distinct |
| Weather.DayLabel | components/GovSchemes.tsx:111 | the computed name for the card when there is a non-empty one, else the entry's own day; characterised by `DayLabelFromNames` |
| Weather.DayLabelFromNames | components/GovSchemes.tsx:111 | with the seven computed names, card i < 7 is headed by name i and later cards by their own day |
| Weather.Advisor.constructor | components/GovSchemes.tsx:30-35 | the initial state: empty location, English, no forecast, not loading, no error |
| Weather.Advisor.EditLocation | components/GovSchemes.tsx:72 | the location takes the typed value |
| Weather.Advisor.SelectLanguage | components/GovSchemes.tsx:78 | the language becomes the selected one |
| Weather.Advisor.BeginSearch | components/GovSchemes.tsx:39-47 | a blank location sets "Please enter a location." and sends nothing, changing nothing else; otherwise loading starts, error and forecast are cleared, the location is recorded and the request is sent |
| Weather.FailureMessage | components/GovSchemes.tsx:53 | the message of the thrown value; used by `Advisor.FinishSearch` |
| Weather.Advisor.FinishSearch | components/GovSchemes.tsx:49-56 | the forecast or the failure's message (the error's message, or the unknown-error text) is stored, and loading ends |
| Weather.Advisor.HandleSearch | components/GovSchemes.tsx:39-57 | the whole handler: the blank guard, or a request whose outcome fills the forecast or the error, always ending not loading |
| Chat.Chatbot.constructor | components/MarketPlace.tsx:11-14 | an empty log, empty input, English, not loading |
| Chat.ReplyText | components/MarketPlace.tsx:32-35 | the reply's text, or the apology on failure; used by `Chatbot.FinishSend` |
| Chat.Chatbot.EditInput | components/MarketPlace.tsx:91 | the input takes the typed value |
| Chat.Chatbot.SelectLanguage | components/MarketPlace.tsx:61 | the language becomes the selected one |
| Chat.Chatbot.BeginSend | components/MarketPlace.tsx:23-31 | a blank input changes nothing; otherwise the user's message is appended after the old log, the input is cleared, loading starts, and the request carries the question and the selected language |
| Chat.Chatbot.FinishSend | components/MarketPlace.tsx:30-39 | exactly one model message, the reply or the apology, is appended, and loading ends |
| Chat.Chatbot.HandleSend | components/MarketPlace.tsx:23-40 | the whole handler: nothing for a blank input, else the user message and one model message after the old log; the log stays alternating and loading ends |
| Chat.Chatbot.HandleKeyPress | components/MarketPlace.tsx:42-46 | any key other than Enter, or Enter while loading, changes nothing; Enter on a blank input changes nothing either; Enter otherwise runs the send handler |

## Left out

- The Gemini calls (`translateJob`, `getWeatherAndAdvice`, `getChatbotResponse`) are not part of
  this model. The translator is a function parameter that returns a translation or fails. The
  forecast fetch and the chat reply are the outcome parameters of `FinishSearch` and `FinishSend`.
  The parse-failure fallback of the translation service counts as one more successful result.
- Jobs.CycleIdempotent: the translator is modelled as a fixed function, so a repeated call gives
  the same answer. The real service is queried again on every cycle and may answer differently.
- JobBoard.Board.constructor: the translation effect also runs once on mount. That cycle is
  `TranslateAllJobs`, which a caller runs right after the constructor. `SelectViewLanguage` and
  `Submit` run the effect's cycle themselves.
- Overlapping translation cycles, when the effect re-fires before an earlier cycle has finished, are
  not modelled. A cycle is one atomic step. React's batching of state updates is also not modelled.
- `Date.now()` becomes the `freshId` parameter of `Post` and `Submit`, which is required to differ from every
  id on the board. `new Date().getDay()` becomes the `today` parameter of `Next7Days`.
- Text.ToLower: lowers ASCII letters only, not the full Unicode case mapping of `toLowerCase`.
- The interface string tables of the dialog are opaque data. Only the fallback to English and the
  four strings the validation messages use are modelled.
- The temperatures of a forecast day are only displayed and are left out. So are `console.log`,
  `console.error`, the scrolling of the chat log, all markup, and the job-selection state that opens
  the dialog.
- ApplyModal.Modal.Close: resets the dialog at once. The source resets it 300 ms after closing, to
  let the exit animation run.
- ApplyModal.Modal.EditApplication: requires the form view, because the source's inputs exist only
  there.
- Chat.Chatbot.BeginSend: requires that no reply is awaited, because the input box and the send
  button are disabled while loading. `HandleKeyPress` states the Enter guard itself.
- Chat.Chatbot.FinishSend: requires a reply to be awaited, as it only runs after `BeginSend` started
  one.
- The camera, audio and image handling of the crop doctor, the service wrappers and the layout
  components are not part of this model.
