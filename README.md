# WhatsApp session dashboard — a verified model of its client-side logic

The dashboard is a React front end for a WhatsApp messaging service. Users manage messaging sessions on it:
they create one, scan its QR code, reconnect it, log it out or delete it. They also send messages through an
authenticated session, and read usage analytics. This project models the decision and state logic of that
front end in Dafny and proves what it promises:

- **SessionContext** (`session_context.dfy`). The session store is the list of session records and its
  loading flag. It offers refresh, create, delete, reconnect, logout and the QR lookup. Every awaited
  service call is a parameter: either a thrown error or the reply body.
- **SessionsPage** (`sessions_page.dfy`). The sessions page holds the per-key busy flags, the buttons each
  status offers and the status badge. It also holds the QR modal and the bounded follow-up polling: a
  fetch every 2 s, at most 15 within the 30 s window, stopping at the first code.
- **Validation** (`validation.dfy`). Per-field rules are tried in a fixed order, and the first failing
  one gives the message. The form's error map is built field by field and then patched for the password
  confirmation.
- **Phone** (`phone.dfy`). The phone helpers strip non-digits, add a leading `1` to ten-digit numbers
  that do not already start with 1, and accept 10 to 15 digits.
- **Language** (`language.dfy`). The translation table has a fall-back to the key. It comes with the
  English/Arabic toggle, the right-to-left flag, and the `language` entry of local storage that the
  provider reads on start and rewrites on every change.
- **Analytics** (`analytics.dfy`). It computes the sent and failed totals, the per-day chart rows, the
  total API requests, the per-endpoint grouping and the five busiest endpoints.
- **Dashboard** (`dashboard.dfy`). It builds the summary cards, including the fall-back used when the
  usage report cannot be read. Its five most recent sessions are `Common.Recent`.
- **Messages** (`messages.dfy`). It lists the authenticated sessions offered for sending and picks the
  default selection. It runs the guard chain before a send, including the quota rule where -1 means
  unlimited, and keeps the in-page history of sent messages.
- **Common** (`common.dfy`). Shared option and result types, and JavaScript's white-space set for
  `trim()`. It also holds `slice(0, n)`, decimal rendering, and the five-item "recent" prefix that the
  dashboard and the message history panel share.

State that the source changes in place is held in classes: `SessionStore`, `SessionsPage`,
`LanguageState` and `MessageComposer`. Their methods are specified by the new state they produce.
The loops that build or look up structures are methods with loop invariants: the `dailyData` and
`endpointStats` reductions, their key lookups, the form's `forEach`, the dashboard's sent-count `forEach`
and the poll interval. The reductions and the form's loop are proved against specification functions
whose properties are proved as lemmas, and the sent-count loop against the recursive status totals. Two
are specified directly instead: the key lookup `FindFirst` by its ensures (the first match, or none), and
the poll by the predicate `PollSettled`, about which no further lemmas are proved. The numeric `filter`/`reduce` sums (the sent and failed totals and `totalRequests`) are recursive
functions, and so is the `slice` of a sorted list.

The code performs no status checks before reconnect, logout or delete, and it takes no per-session lock.
A poll stops only at its first code or when its 30 s window closes; nothing cancels it when its modal is
closed or reopened for another session. So the model claims none of these guarantees, and the busy flags
are only UI state.

## Model

| member | source | states |
|---|---|---|
| Common.Recent | src/components/Dashboard/Dashboard.tsx:120 | the recent sessions, like the history panel of Messages.tsx:285, are the first min(5, n) items in list order |
| SessionContext.FailureMessage | src/contexts/SessionContext.tsx:79-81 | the thrown message is the reply's error when that is a non-empty string and the fallback otherwise, so it is never empty when the fallback is not |
| SessionContext.CreateRequestBody | src/contexts/SessionContext.tsx:69-72 | the request body carries `sessionId` exactly when the caller supplied a non-empty id, and then carries that id |
| SessionContext.FilterOut | src/contexts/SessionContext.tsx:102 | no surviving record has the deleted id, every survivor comes from the old list, and the list never grows |
| SessionContext.FilterOutAppend | src/contexts/SessionContext.tsx:102 | filtering distributes over concatenation, so the surviving records keep their relative order |
| SessionContext.FilterOutKeepsOthers | src/contexts/SessionContext.tsx:102 | every record whose id differs from the deleted one survives |
| SessionContext.FilterOutAbsent | src/contexts/SessionContext.tsx:102 | deleting an id that no record carries leaves the list unchanged |
| SessionContext.Authenticated | src/components/Messages/Messages.tsx:28 | the filter keeps exactly the authenticated sessions, all of them from the list |
| SessionContext.AuthenticatedAppend | src/components/Messages/Messages.tsx:28 | the authenticated filter distributes over concatenation, keeping list order |
| SessionContext.QrCodeOf | src/contexts/SessionContext.tsx:149-161 | a code is returned exactly when the reply is successful with a non-empty `qr`; null otherwise; a transport error propagates as an error |
| SessionContext.SessionStore.constructor | src/contexts/SessionContext.tsx:45-50 | mounting starts from the empty list and installs the first listing if it succeeds, with loading off |
| SessionContext.SessionStore.Refresh | src/contexts/SessionContext.tsx:52-65 | a successful listing replaces the whole list; an unsuccessful or thrown one keeps it; loading is off afterwards either way |
| SessionContext.SessionStore.Create | src/contexts/SessionContext.tsx:67-90 | on success it refreshes and returns the id the service assigned; on failure it returns the error (the reply's or the fallback) without refreshing |
| SessionContext.SessionStore.Delete | src/contexts/SessionContext.tsx:92-109 | on success the list is the old list without that id; on failure the error is returned and the list is untouched |
| SessionContext.SessionStore.Reconnect | src/contexts/SessionContext.tsx:111-128 | the list is never edited directly: on success it is re-synced by a refresh, on failure it is unchanged |
| SessionContext.SessionStore.Logout | src/contexts/SessionContext.tsx:130-147 | the list is never edited directly: on success it is re-synced by a refresh, on failure it is unchanged |
| SessionContext.AckOutcome | src/contexts/SessionContext.tsx:98-100 | an acknowledgement succeeds exactly when its body says success; otherwise the thrown or the body's error (or fallback) results |
| SessionsPage.StatusColor | src/components/Sessions/Sessions.tsx:133-144 | a status gets a coloured badge exactly when it is one of the three known ones; every other string gets the grey one |
| SessionsPage.StatusIcon | src/components/Sessions/Sessions.tsx:146-157 | the alert icon is shown exactly for statuses other than authenticated and connecting, the check icon exactly for authenticated |
| SessionsPage.StatusColorTotal | src/components/Sessions/Sessions.tsx:133-144 | the three known statuses get three different badge colours |
| SessionsPage.OfferedActions | src/components/Sessions/Sessions.tsx:249-305 | Delete is always offered and is last; Show QR exactly for connecting, Reconnect exactly for disconnected with a phone number, Logout exactly for authenticated |
| SessionsPage.OfferedActionsShape | src/components/Sessions/Sessions.tsx:249-305 | a card offers at most two buttons; an unknown status, or a disconnected session without a phone number, offers only Delete |
| SessionsPage.PollForQr | src/components/Sessions/Sessions.tsx:72-86 | polling issues at most 15 fetches, passes over nulls and errors, stops at the first code and reports it; with no code it issued all 15 when the replies cover the window, and one per reply otherwise |
| SessionsPage.WithPolledCodeAsWritten | src/components/Sessions/Sessions.tsx:77 | the tick's update keeps the open modal's session and writes the polled code into it |
| SessionsPage.PolledCodeReachesOtherModal | src/components/Sessions/Sessions.tsx:77 | a code polled for session A lands in a modal opened for session B |
| SessionsPage.WithPolledCode | src/components/Sessions/Sessions.tsx:65-77 | a polled code fills the modal of the session it was fetched for, and leaves a modal open for any other session exactly as it was |
| SessionsPage.PolledCodeAgrees | src/components/Sessions/Sessions.tsx:77 | while the modal belongs to the polled session the corrected and the written update agree |
| SessionsPage.SessionsPage.constructor | src/components/Sessions/Sessions.tsx:29-34 | the page starts with no busy flags and a closed, empty QR modal |
| SessionsPage.SessionsPage.RefreshTick | src/components/Sessions/Sessions.tsx:36-42 | each tick of the refresh interval is a plain store refresh: the listing replaces the list on success, and the store's loading flag ends off |
| SessionsPage.SessionsPage.HandleCreateSession | src/components/Sessions/Sessions.tsx:44-58 | the create flag is off afterwards whatever the outcome and the modal is untouched; the assigned id is returned on success, with the list refreshed and the store's loading flag off; a failure is swallowed and leaves the list and the store's loading flag |
| SessionsPage.SessionsPage.HandleShowQR | src/components/Sessions/Sessions.tsx:60-94 | the flag is off after the first fetch; an answered fetch opens the modal for that session with its code; a null answer starts the bounded polling; a thrown one leaves the modal and polls nothing |
| SessionsPage.SessionsPage.HandleDeleteSession | src/components/Sessions/Sessions.tsx:96-107 | nothing happens unless confirmed; otherwise the flag ends off, a successful delete filters that id out of the list, and a failed one leaves the list; the store's loading flag never changes |
| SessionsPage.SessionsPage.HandleReconnectSession | src/components/Sessions/Sessions.tsx:109-118 | the flag ends off; the list changes only by a successful reconnect's refresh, which leaves the store's loading flag off; a failed reconnect leaves that flag |
| SessionsPage.SessionsPage.HandleLogoutSession | src/components/Sessions/Sessions.tsx:120-131 | nothing happens unless confirmed; otherwise the flag ends off; the list changes only by a successful logout's refresh, which leaves the store's loading flag off; otherwise that flag stays |
| SessionsPage.SessionsPage.CloseQrModal | src/components/Sessions/Sessions.tsx:319 | closing resets the modal to closed and empty and leaves the busy flags |
| SessionsPage.FlagUpdateIsLocal | src/components/Sessions/Sessions.tsx:34 | setting one key's busy flag sets that key and leaves every other key's flag as it was |
| Validation.FirstFailingIndex | src/utils/validation.ts:20-47 | the checks before the reported one all pass, and the reported one fails |
| Validation.FirstFailingUnrolled | src/utils/validation.ts:20-47 | the first failing check is required, then min length, max length, pattern, custom, in that order |
| Validation.ValidateField | src/utils/validation.ts:14-50 | the field passes exactly when no check fails, and otherwise reports the message of the first failing check |
| Validation.RequiredBlank | src/utils/validation.ts:20-22 | a required field holding only white space reports the `required` message whatever its other rules |
| Validation.EmptyPassesUnlessRequired | src/utils/validation.ts:24-47 | an empty value passes every rule set that does not require it |
| Validation.ZeroBoundIgnored | src/utils/validation.ts:24-33 | a length bound of 0 validates exactly like an absent bound |
| Validation.MinLengthMessage | src/utils/validation.ts:24-29 | only the password field gets the translated too-short message; others get the generic one with the bound |
| Validation.PatternMessage | src/utils/validation.ts:35-43 | a pattern failure reports the email message, the phone message, or the generic one, by field name |
| Validation.FieldError | src/utils/validation.ts:60-63 | a field's error is recorded exactly when its first failing check gives a non-empty message, and it is that message |
| Validation.PasswordsMismatch | src/utils/validation.ts:67 | a mismatch needs both passwords present, and they differ |
| Validation.ValidateForm | src/utils/validation.ts:52-72 | a key is in the error map exactly when its field's rule fails or the passwords mismatch; the mismatch message wins for `confirmPassword`; every other entry is its field's message |
| Phone.Digits | src/utils/api.ts:70 | the cleaned string holds only digits and is no longer than the input |
| Phone.DigitsAppend | src/utils/api.ts:70 | stripping non-digits distributes over concatenation |
| Phone.DigitsOfDigits | src/utils/api.ts:70 | a string of digits is its own cleaned string |
| Phone.DigitsLength | src/utils/api.ts:70 | the cleaned string's length is the number of digit characters in the input |
| Phone.FormatPhoneNumber | src/utils/api.ts:68-78 | the formatted number holds only digits, is the input's digits with or without a leading "1", and a ten-digit result starts with 1 |
| Phone.ValidatePhoneNumber | src/utils/api.ts:80-83 | an accepted input has at least ten characters |
| Phone.FormatCases | src/utils/api.ts:73-77 | a "1" is prefixed exactly when the cleaned number has ten digits and does not start with 1 |
| Phone.FormatLength | src/utils/api.ts:68-78 | the formatted length is the input's digit count, or one more and then exactly 11 |
| Phone.FormatIdempotent | src/utils/api.ts:68-78 | formatting a formatted number changes nothing |
| Phone.ValidateIffDigitCount | src/utils/api.ts:80-83 | a number is valid exactly when it has between 10 and 15 digits |
| Phone.ValidateDependsOnDigits | src/utils/api.ts:68-83 | inputs with the same digits format and validate alike |
| Phone.InsertNonDigitPreserves | src/utils/api.ts:68-83 | inserting a non-digit anywhere changes neither the verdict nor the formatted number |
| Language.TableTextsNonEmpty | src/contexts/LanguageContext.tsx:12-57 | every table row has a non-empty text in both languages |
| Language.Translate | src/contexts/LanguageContext.tsx:101-103 | a known key gives its text in the language; an unknown key gives the key itself |
| Language.Toggled | src/contexts/LanguageContext.tsx:94 | toggling always changes the language |
| Language.ToggleTwice | src/contexts/LanguageContext.tsx:93-95 | toggling twice restores the language |
| Language.Dir | src/contexts/LanguageContext.tsx:89 | the direction is `rtl` exactly for Arabic and `ltr` exactly for English |
| Language.InitialLanguageAsWritten | src/contexts/LanguageContext.tsx:82-85 | any non-empty stored string becomes the language; absent or empty gives English |
| Language.UncheckedSavedLanguage | src/contexts/LanguageContext.tsx:84 | a stored "fr" becomes a current language that is neither English nor Arabic |
| Language.InitialLanguage | src/contexts/LanguageContext.tsx:82-85 | the starting language is Arabic exactly when "ar" was stored, and English otherwise |
| Language.InitialLanguageAgrees | src/contexts/LanguageContext.tsx:82-85 | on the values the app itself stores, the corrected and the written start agree |
| Language.StoredCodeRestores | src/contexts/LanguageContext.tsx:82-88 | a stored language code is read back, as written and as corrected, as that same language |
| Language.LanguageState.constructor | src/contexts/LanguageContext.tsx:82-88 | the provider starts in the corrected initial language, and the first run of the effect stores its code |
| Language.LanguageState.ToggleLanguage | src/contexts/LanguageContext.tsx:87-95 | the new language is the toggled old one, never the same, and its code is stored |
| Language.LanguageState.SetLanguage | src/contexts/LanguageContext.tsx:87-99 | the new language is the one given, and its code is stored |
| Language.LanguageState.RestartRestores | src/contexts/LanguageContext.tsx:82-88 | once the effect has stored the current language, a restart comes back in that language |
| Language.LanguageState.T | src/contexts/LanguageContext.tsx:101-103 | a known key gives its non-empty text in the current language; an unknown key gives the key |
| Language.LanguageState.IsRtl | src/contexts/LanguageContext.tsx:105 | the layout is right to left exactly when the document direction is `rtl` |
| Language.LanguageState.DocumentAttributes | src/contexts/LanguageContext.tsx:89-90 | the document direction is `rtl` exactly when right to left, and `lang` is the language's code |
| Analytics.DistinctProperties | src/components/Analytics/Analytics.tsx:70-81 | keys in first-appearance order hold each key of the input once, and no other key |
| Analytics.StatusTotal | src/components/Analytics/Analytics.tsx:59-65 | each statistic of the status counts toward the total, and the total never exceeds the sum of all counts |
| Analytics.SentFailedBounded | src/components/Analytics/Analytics.tsx:59-67 | sent plus failed never exceeds the sum of all counts |
| Analytics.OtherStatusIgnored | src/components/Analytics/Analytics.tsx:59-65 | a statistic of any other status changes neither total |
| Analytics.RepeatedPairOverwrites | src/components/Analytics/Analytics.tsx:73 | a repeated date and status replaces the earlier count instead of adding to it |
| Analytics.FindFirst | src/components/Analytics/Analytics.tsx:71-95 | the lookup of a day row by date (line 71) and of an endpoint's entry (line 95): the index is that of the first entry with the key, or the length when none has it |
| Analytics.DailyData | src/components/Analytics/Analytics.tsx:70-81 | one row per distinct date in first-appearance order, each holding per status the last count read |
| Analytics.DailyStep | src/components/Analytics/Analytics.tsx:71-79 | updating a known date's row or appending a new date's row keeps the rows matching the statistics read |
| Analytics.LastCountAbsent | src/components/Analytics/Analytics.tsx:75-78 | a date no statistic carries has no count for any status |
| Analytics.ProcessMessageStats | src/components/Analytics/Analytics.tsx:56-84 | no statistics give zeros and no rows; otherwise the sent and failed totals, their sum, and the matching chart rows |
| Analytics.TotalRequests | src/components/Analytics/Analytics.tsx:89 | no statistic's count exceeds the total, and the total is 0 exactly when every count is 0 |
| Analytics.GroupByEndpoint | src/components/Analytics/Analytics.tsx:93-101 | one entry per distinct endpoint in first-appearance order, each with its summed count, together summing to all requests |
| Analytics.GroupStep | src/components/Analytics/Analytics.tsx:95-98 | adding to a known entry or creating a new one keeps the grouping matching the statistics read |
| Analytics.EndpointTotalAbsent | src/components/Analytics/Analytics.tsx:95-96 | an endpoint no statistic names has a total of 0 |
| Analytics.InsertByCountPermutes | src/components/Analytics/Analytics.tsx:105 | inserting an entry adds exactly that entry |
| Analytics.InsertByCountSorted | src/components/Analytics/Analytics.tsx:105 | inserting into a list sorted by count, largest first, keeps it sorted |
| Analytics.SortByCountDesc | src/components/Analytics/Analytics.tsx:105 | the sorted list is a permutation of the grouping, ordered by count, largest first |
| Analytics.TopEndpoints | src/components/Analytics/Analytics.tsx:103-106 | the top list has min(5, entries) entries, all from the grouping, ordered by count, largest first |
| Analytics.TopEndpointsDistinct | src/components/Analytics/Analytics.tsx:103-106 | with distinct endpoints in the grouping, the top list names each endpoint once |
| Analytics.TopEndpointsAreTopmost | src/components/Analytics/Analytics.tsx:103-106 | no entry left out of the top list counts more than any entry kept |
| Analytics.TopHoldsTrueTotals | src/components/Analytics/Analytics.tsx:93-106 | for a grouping that matches the statistics, every top entry names an endpoint of the data and holds its true total, and no endpoint is named twice |
| Analytics.TopHoldsBusiest | src/components/Analytics/Analytics.tsx:93-106 | for a grouping that matches the statistics, no endpoint left out of the top list had more requests than one kept |
| Analytics.ProcessApiStats | src/components/Analytics/Analytics.tsx:86-109 | no statistics give 0 and none; otherwise the total of all counts and up to five distinct busiest endpoints, each an endpoint of the data with its true total, largest first |
| Dashboard.ActiveSessions | src/components/Dashboard/Dashboard.tsx:44-45 | the active count never exceeds the number of sessions |
| Dashboard.ActiveSessionsAdditive | src/components/Dashboard/Dashboard.tsx:45 | the active count adds up over a split list, counting one per authenticated session |
| Dashboard.SentOnBounded | src/components/Dashboard/Dashboard.tsx:55-61 | today's sent messages never exceed all sent messages |
| Dashboard.CountSent | src/components/Dashboard/Dashboard.tsx:50-62 | the loop sums the sent counts and today's sent counts, the latter bounded by the former |
| Dashboard.FetchStats | src/components/Dashboard/Dashboard.tsx:39-83 | session counts come from the list; message counts come from a successful report, are 0 for an unsuccessful one, and fall back to the user's counter with 0 today when reading the report throws |
| Messages.SendCheck | src/components/Messages/Messages.tsx:62-85 | a send goes ahead exactly when a session is selected, phone and message are not blank, the phone is valid, and the quota allows it; each rejection implies that every earlier guard passed and its own failed, in the order session, phone, message, validity, quota |
| Messages.BlankPhoneIsInvalid | src/components/Messages/Messages.tsx:67-80 | a blank phone number would fail the validity guard too |
| Messages.AcceptedSendIsWellFormed | src/components/Messages/Messages.tsx:62-85 | an accepted send has 10 to 15 phone digits, a message with a non-space character, a signed-in user, and an unlimited or unexhausted quota |
| Messages.QuotaExhausted | src/components/Messages/Messages.tsx:82 | with no user signed in the quota guard trips; a limit of -1 never trips it, a limit of 0 or below -1 always does |
| Messages.PrependedEntryShownFirst | src/components/Messages/Messages.tsx:114 | a newly sent entry heads the panel, followed by the four most recent older ones |
| Messages.MessageComposer.constructor | src/components/Messages/Messages.tsx:21-25 | the page starts with an empty form and history, not loading |
| Messages.MessageComposer.SelectDefault | src/components/Messages/Messages.tsx:30-34 | with nothing selected, the first authenticated session becomes selected; otherwise the selection stays |
| Messages.MessageComposer.SendMessage | src/components/Messages/Messages.tsx:59-124 | a failing guard stops the send with no change; success clears the message and prepends a `sent` entry, keeping the old entries in order; failure keeps message and history |

## Left out

- Network I/O: `apiRequest` (fetch, time-outs, JSON parsing, error-message translation) is not part of this model. Each remote call is a reply parameter.
- Timers are not modelled as time. The 10 s refresh is the `RefreshTick` method. The 1 s delayed QR modal after a create is left out; `HandleCreateSession` returns the id the modal would open for. Poll ticks are a sequence of replies, with at most 15 answered.
- Overlapping poll ticks are not modelled. Neither are several polls for different sessions running at once, or a poll that outlives a closed modal: the model runs one poll to completion.
- `getSessionStatus` has no caller in the modelled pages and is not part of this model.
- The auth context is not part of this model: storage of the token, `refreshUser` and the user record. The user's limit and usage are parameters.
- The profile page, layout, login, form-field, spinner and toggle components are rendering only. So are toasts and `confirm` dialogs; a confirmation is a boolean parameter.
- Floating point: the average response times and the percentage widths of the progress bars are left out.
- Session counts and statistic counts are non-negative integers. A count that is not a number is not modelled.
- A listing reply whose `sessions` member is missing is not modelled: such a reply would install `undefined`.
- Analytics.GroupByEndpoint: endpoints keep first-appearance order. A JavaScript object would list integer-like keys first, but endpoints are paths, so this cannot arise.
- Analytics.DailyData: a status named `date` would overwrite the row's date in the source. The model keeps statuses and the date apart.
- Analytics.SortByCountDesc: the source's sort is stable. The contract states sortedness and permutation, not the order among equal counts.
- Validation.ValidateField: lengths count characters. JavaScript counts UTF-16 code units, which differ for characters outside the basic plane. Regular expressions and custom checks are opaque predicates.
- SessionsPage.SessionsPage.HandleCreateSession: the busy flag of the create button and that of a session whose id is "create" share one key in the source. The model keeps that sharing and proves nothing about it.
- SessionContext.SessionStore.Delete: the source filters the list captured when the page last rendered. The model filters the current list.
- Messages.MessageComposer.SendMessage: a selected session that is no longer authenticated is not re-checked, as in the source. The text of a TypeError is the one common engines produce. A body with success but no `data` clears the message and then fails.
- Messages.MessageComposer.SendMessage: the loading flag during the request is not observable in the model, which settles the request within the call.
- Dashboard.FetchStats: the loading flag around the fetch is not modelled, and today's date is a parameter.
- SessionContext.SessionStore.Refresh: the store's loading flag is on only while the listing request runs, so in the source every 10 s tick of `RefreshTick`, and every refresh after a create, reconnect or logout, briefly replaces the session grid with the spinner. The model settles the request within the call, so only the flag's value afterwards is stated.

## Findings

| source | as written | input that shows it | evidently intended | confidence | as-written member | corrected member |
|---|---|---|---|---|---|---|
| src/contexts/LanguageContext.tsx:82-85 | the stored language is cast to `Language` without a check, so any non-empty stored string becomes the current language | `localStorage.language = "fr"`: the language is "fr", neither English nor Arabic | an unknown stored value falls back to English | not executed; by reading | Language.InitialLanguageAsWritten | Language.InitialLanguage |
| src/components/Sessions/Sessions.tsx:77 | a poll tick writes its code into whatever modal is open, keeping that modal's session id | open the QR modal for A (null code, polling), close it, open it for B; A's next code shows in B's modal | a polled code reaches only the modal of the session it was fetched for | not executed; by reading | SessionsPage.WithPolledCodeAsWritten | SessionsPage.WithPolledCode |
