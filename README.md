# mini-wallet-frontend, modelled in Dafny

This is a model of the client-side logic of a small wallet web application, written as React components.
- Users log in with an email address or a Nigerian phone number. A one-time password sent over WhatsApp may confirm the login.
- Users verify their identity with a Bank Verification Number (BVN) and a date of birth.
- Users fund their wallet and transfer money to another user.
- A four-digit transaction PIN approves operations. A three-step wizard changes the PIN.
- The session lives in `localStorage` under the keys `token` and `user`.
- An HTTP client adds the bearer token to every request and turns failed responses into user-facing messages.
- Helpers format amounts with thousands separators.

Each React component with state is modelled as a class.
- Its state hooks become fields.
- Each of its event handlers becomes a method, and the method's contract states the new state.
- Digit boxes are arrays.
- Form data and error objects are maps.
- A server reply is a parameter of the handler that awaits it. The reply is a datatype that covers both a resolved call and a rejected one.
- A component without state hooks, the BVN verification page, is a module whose methods take the auth provider and write its storage.
- Pure helpers (formatters, validators, date conversion, the redirect logic) are functions with lemmas relating them to independent characterisations.

`localStorage` is a class over a `map`. `JSON.stringify` and `JSON.parse` are modelled for one-level objects by a small codec, with a proved round trip.

Modules and files:

| file | module | program part |
|---|---|---|
| text.dfy | Wrappers, Text | `Option`; string operations the program uses (regex filters, `split`, `substring`, `||` defaults, numerals) |
| formatters.dfy | Formatters | `formatAmount`, `parseAmount` |
| digit_entry.dfy | DigitEntry | the digit boxes shared by the PIN and OTP modals |
| pin_modal.dfy | PinModal | the PIN gate |
| update_pin_modal.dfy | UpdatePinModal | the change-PIN wizard |
| otp_modal.dfy | OtpModal | the OTP entry with its resend countdown |
| json.dfy | Json | `JSON.stringify`/`JSON.parse` on the stored user record |
| storage.dfy | Storage, AuthService | `localStorage`; `authService.logout` and `getCurrentUser` |
| auth_context.dfy | AuthContext | the authentication provider |
| api.dfy | Api | the request and response interceptors |
| forms.dfy | Forms | toasts and the "clear error on typing" rule |
| login.dfy | Login | the login page, its validator and phone formatter |
| bvn_form.dfy | BvnVerification | the BVN form and its date conversions |
| bvn_page.dfy | BvnVerificationPage | the page around it |
| amount.dfy | AmountInput | the amount field filter and `parseFloat` |
| transfer.dfy | TransferFunds | the transfer form |
| fund_wallet.dfy | FundWallet | the deposit form |

## Model

| member | source | states |
|---|---|---|
| Formatters.Cleaned | src/utils/formatters.js:5 | the cleaned text holds only digits and `.` |
| Formatters.WholeDigits | src/utils/formatters.js:7-8 | the whole part is all digits |
| Formatters.DecimalDigits | src/utils/formatters.js:9 | the decimal part is all digits, `""` when there is no second piece |
| Formatters.TwoPlaces | src/utils/formatters.js:12-14 | at most two decimals; a short decimal part is kept and a long one is cut to its first two characters |
| Formatters.FormatAmount | src/utils/formatters.js:1-27 | falsy input (`""`, `0`, null/undefined) formats to `""` |
| Formatters.KeepOfGrouped | src/utils/formatters.js:18 | removing the inserted commas from the grouped whole part gives back the digits |
| Formatters.GroupedCharacters | src/utils/formatters.js:18 | the grouped whole part is made of digits and commas |
| Formatters.PiecesAreDigits | src/utils/formatters.js:5-7 | every `.`-piece of cleaned text is all digits |
| Formatters.SplitDigitsOnly | src/utils/formatters.js:5-9 | a digit string is its own whole part with no decimal piece |
| Formatters.ParseAmount | src/utils/formatters.js:29-31 | the result has no comma and the same other characters; comma-free input is returned unchanged |
| Formatters.CommaFreeFacts | src/utils/formatters.js:30 | removing commas keeps exactly the non-comma characters, and changes nothing when there is none |
| Formatters.ParseAmountConcat | src/utils/formatters.js:30 | comma removal distributes over concatenation |
| Formatters.FormatTextShape | src/utils/formatters.js:7-26 | the result is the grouped canonical whole part, then `.` and at most two decimals when there are any |
| Formatters.FormatTextCharacters | src/utils/formatters.js:17-24 | the result is made of digits, commas and at most one `.` |
| Formatters.PiecesOfFormatted | src/utils/formatters.js:17-24 | cleaning a formatted result gives back the canonical whole part and the decimals |
| Formatters.CanonicalDigitsOfCanonical | src/utils/formatters.js:18 | `parseInt` then `toLocaleString` on a numeral without leading zeros keeps its digits |
| Formatters.CanonicalDigitsValue | src/utils/formatters.js:18 | leading zeros are dropped and the value is kept |
| Formatters.FormatTextIdempotent | src/utils/formatters.js:1-27 | formatting formatted text changes nothing |
| Formatters.FormatAmountIdempotent | src/utils/formatters.js:1-27 | formatting a formatted amount again changes nothing |
| Formatters.FormatAmountOfNumber | src/utils/formatters.js:1-27 | a positive safe integer formats to its decimal numeral with thousands separators |
| Formatters.PiecesOfAmountText | src/utils/formatters.js:7-9 | the plain amount text `w.d` splits back into `w` and `d` |
| Formatters.ParseFormatRoundTrip | src/utils/formatters.js:1-31 | `parseAmount(formatAmount(x)) == x` for canonical amounts with at most two decimals |
| DigitEntry.Empties | src/components/shared/PinModal.jsx:12 | `n` empty boxes |
| DigitEntry.JoinLength | src/components/shared/PinModal.jsx:62 | the joined boxes are digits; they are as long as the boxes exactly when every box is filled |
| DigitEntry.Chars | src/components/shared/PinModal.jsx:56 | `split("")`: one box per character, holding it |
| DigitEntry.JoinChars | src/components/shared/PinModal.jsx:56-57 | joining split text gives the text back |
| DigitEntry.CharsOfDigits | src/components/shared/PinModal.jsx:55-57 | split digits are valid, filled boxes |
| DigitEntry.Fill | src/components/shared/PinModal.jsx:57 | the boxes get exactly the given contents |
| PinModal.SubmitEnabledIffFilled | src/components/shared/PinModal.jsx:148 | with no request in flight, Verify is enabled exactly when all four boxes are filled; it is always disabled while loading |
| PinModal.Modal.constructor | src/components/shared/PinModal.jsx:12-14 | four empty boxes and no error |
| PinModal.Modal.Open | src/components/shared/PinModal.jsx:18-26 | opening empties the boxes and clears the error |
| PinModal.Modal.HandleInputChange | src/components/shared/PinModal.jsx:28-44 | only nothing or one digit is accepted; only box `index` changes; auto-submit fires exactly when the last box is edited and all four are filled, with the joined four digits |
| PinModal.Modal.HandlePaste | src/components/shared/PinModal.jsx:52-60 | exactly four pasted digits replace the boxes; any other paste changes nothing |
| PinModal.Modal.Submit | src/components/shared/PinModal.jsx:62-96 | a PIN that is not four long sets the length error and sends nothing; a valid reply raises the success toast, verifies and closes; an invalid reply or a rejection sets its message and empties the boxes, with no toast |
| UpdatePinModal.StepOf | src/components/shared/UpdatePinModal.jsx:304-308 | each kind of input belongs to step 1, 2 or 3 |
| UpdatePinModal.OnlyStepArrayEditable | src/components/shared/UpdatePinModal.jsx:246-251 | at each step exactly the step's own inputs are enabled, and none while loading |
| UpdatePinModal.Modal.constructor | src/components/shared/UpdatePinModal.jsx:6-11 | three empty four-box arrays, step 1, no error |
| UpdatePinModal.Modal.ResetForm | src/components/shared/UpdatePinModal.jsx:27-34 | back to the reset state |
| UpdatePinModal.Modal.HandleInputChange | src/components/shared/UpdatePinModal.jsx:36-82 | only the edited array's box changes, and only for nothing or one digit; the last box filled chains to verification at step 1, to step 3 from step 2, and to the update at step 3 |
| UpdatePinModal.Modal.VerifyCurrentPin | src/components/shared/UpdatePinModal.jsx:106-142 | length error without a request; a valid PIN moves to step 2; an invalid one or a failure sets the error and empties the current PIN |
| UpdatePinModal.Modal.UpdatePin | src/components/shared/UpdatePinModal.jsx:144-193 | the checks fire in source order (lengths, mismatch, same as current); only when all pass is the update sent; success raises the toast, resets and closes; failure only sets the error |
| UpdatePinModal.Modal.Back | src/components/shared/UpdatePinModal.jsx:319-327 | at step 1 it closes and resets; otherwise it goes back one step, clears the error and keeps all PINs |
| UpdatePinModal.Modal.InputEvent | src/components/shared/UpdatePinModal.jsx:36-193 | one keystroke with the request it chains to: verification exactly when the last current-PIN box is filled; the update exactly when the last confirmation box is filled, the confirmation matches the new PIN and the new PIN differs from the current one; the new arrays, step, error and toast in every case |
| OtpModal.TickBounds | src/components/shared/OTPModal.jsx:26-32 | a tick never goes below 0, decreases a positive countdown and keeps 0 at 0 |
| OtpModal.TicksValue | src/components/shared/OTPModal.jsx:26-32 | `k` ticks from `c` leave `max(c - k, 0)` |
| OtpModal.ResendAvailableAfterDelay | src/components/shared/OTPModal.jsx:19-32 | from a fresh countdown of 60 the resend link reappears after exactly 60 ticks |
| OtpModal.Modal.constructor | src/components/shared/OTPModal.jsx:7-10 | six empty boxes, no error, countdown 0 |
| OtpModal.Modal.Open | src/components/shared/OTPModal.jsx:15-24 | opening empties the boxes, clears the error and starts the countdown at 60 |
| OtpModal.Modal.TimerTick | src/components/shared/OTPModal.jsx:26-32 | one interval tick applies the updater to the countdown |
| OtpModal.Modal.HandleInputChange | src/components/shared/OTPModal.jsx:39-55 | as for the PIN modal with six boxes |
| OtpModal.Modal.HandlePaste | src/components/shared/OTPModal.jsx:63-71 | exactly six pasted digits replace the boxes; anything else changes nothing |
| OtpModal.Modal.Submit | src/components/shared/OTPModal.jsx:73-101 | length error without a request; a token raises the success toast, and then with the `completeLogin` hook completes the sign-in and closes, without it falls into the catch (error, boxes cleared, still open); no token sets the message and keeps the digits; a rejection sets the message and clears them; the countdown is untouched |
| OtpModal.CompleteLoginMissing | src/context/AuthContext.jsx:44-50 | the auth context's value has no `completeLogin` |
| OtpModal.Modal.SubmitAsWritten | src/components/shared/OTPModal.jsx:13-97 | inside the application's provider a verified code raises the toast, then sets "OTP verification failed", clears the digits and never closes or completes the sign-in |
| OtpModal.Modal.Resend | src/components/shared/OTPModal.jsx:103-129 | nothing while the countdown runs; success raises the toast and restarts it at 60; failure sets the error and keeps the countdown |
| Json.Keys | src/context/AuthContext.jsx:33 | the keys of an object, in order |
| Json.KeysConcat | src/context/AuthContext.jsx:33 | keys distribute over concatenation |
| Json.DistinctCons | src/context/AuthContext.jsx:33 | a key sequence with a new head is distinct exactly when the head is new and the rest distinct |
| Json.DistinctAppend | src/context/AuthContext.jsx:33 | appending a new key keeps keys distinct |
| Json.Get | src/pages/BVNVerificationPage.jsx:30 | a property is found exactly when the object has the key |
| Json.Set | src/pages/BVNVerificationPage.jsx:11-15 | setting a property keeps the key order and appends a new key at the end |
| Json.SetGet | src/pages/BVNVerificationPage.jsx:11-15 | after setting `k`, `k` reads the new value and every other key reads as before |
| Json.SetKeys | src/pages/BVNVerificationPage.jsx:11-15 | setting keeps keys distinct; a new key is appended |
| Json.Defined | src/context/AuthContext.jsx:33 | `JSON.stringify` drops undefined properties |
| Json.DefinedKeys | src/context/AuthContext.jsx:33 | dropping undefined properties keeps keys distinct and adds none |
| Json.DefinedGet | src/context/AuthContext.jsx:33 | a property reads as before unless it was undefined, which then reads as missing |
| Json.ParseStringBody | src/services/authService.js:36 | the parser consumes input |
| Json.DigitRun | src/services/authService.js:36 | the longest run of leading digits |
| Json.ParseNumber | src/services/authService.js:36 | the parser consumes input |
| Json.ParseValue | src/services/authService.js:36 | a parsed value is never undefined and input is consumed |
| Json.ParseMember | src/services/authService.js:36 | the parser consumes input |
| Json.StringRoundTrip | src/services/authService.js:36 | an escaped string parses back to itself |
| Json.DigitRunConcat | src/services/authService.js:36 | the digit run of a numeral followed by a non-digit is the numeral |
| Json.NumberRoundTrip | src/services/authService.js:36 | a printed number parses back to itself |
| Json.ValueRoundTrip | src/services/authService.js:36 | a printed value parses back to itself |
| Json.MemberRoundTrip | src/services/authService.js:36 | a printed property parses back to itself |
| Json.ShiftMember | src/services/authService.js:36 | moving one property into the accumulator keeps keys distinct |
| Json.ShiftConcat | src/services/authService.js:36 | moving one property keeps the concatenated object |
| Json.MembersRoundTrip | src/services/authService.js:36 | printed properties parse back to the same properties |
| Json.ParseObjectText | src/services/authService.js:36 | text `{...}` whose members parse completely is that object |
| Json.ParseStringify | src/services/authService.js:34-37 | `JSON.parse(JSON.stringify(o))` is `o` without its undefined properties |
| Storage.BrowserStorage.constructor | src/services/authService.js:29-37 | an empty store |
| Storage.BrowserStorage.GetItem | src/services/authService.js:35 | `getItem` finds a value exactly when the key is present |
| Storage.BrowserStorage.SetItem | src/context/AuthContext.jsx:32-33 | `setItem` writes exactly that key |
| Storage.BrowserStorage.RemoveItem | src/services/authService.js:30-31 | `removeItem` removes exactly that key |
| AuthService.AfterLogout | src/services/authService.js:29-32 | no token and no user afterwards; every other key unchanged |
| AuthService.LogoutIdempotent | src/services/authService.js:29-32 | logging out twice is logging out once |
| AuthService.Logout | src/services/authService.js:29-32 | storage becomes AfterLogout of what it was |
| AuthService.GetCurrentUser | src/services/authService.js:34-37 | no user exactly when the key is missing or empty; a found user is what the text parses to; `JSON.parse` throws exactly on nonempty text that does not parse |
| AuthService.NoUserAfterLogout | src/services/authService.js:29-37 | after logout there is no current user |
| AuthService.GetCurrentUserAfterWrite | src/services/authService.js:34-37 | a stringified object written under `user` reads back as that object without its undefined properties |
| AuthContext.TokenText | src/context/AuthContext.jsx:32 | the stored token text is empty exactly when the token is the empty string (`null` is stored as `"null"`) |
| AuthContext.LoginIsRestored | src/context/AuthContext.jsx:20-36 | after `login` with a truthy token, the next load restores the session with the stored object |
| AuthContext.Provider.constructor | src/context/AuthContext.jsx:15-18 | not authenticated, no user, loading |
| AuthContext.Provider.Init | src/context/AuthContext.jsx:20-29 | authenticated exactly when a truthy token and a truthy user are stored; a failed parse throws and changes nothing |
| AuthContext.Provider.Login | src/context/AuthContext.jsx:31-36 | storage gets the token and the stringified user; authenticated with that user |
| AuthContext.Provider.Logout | src/context/AuthContext.jsx:38-42 | storage as after logout; not authenticated and no user |
| Api.WithToken | src/services/api.js:14-17 | a truthy token sets `Authorization: Bearer <token>`; every other header unchanged; no token, no change |
| Api.InterceptRequest | src/services/api.js:12-23 | the headers are WithToken of the stored token |
| Api.UserMessage | src/services/api.js:35-46 | the user message is never empty |
| Api.UserMessageTable | src/services/api.js:35-46 | with a body: its `message`, else its `error`, else the generic text; without one: the text fixed by the error code |
| Api.InterceptError | src/services/api.js:28-48 | a 401 logs out and redirects to `/login`; any other failure leaves storage alone; the message is UserMessage |
| Forms.Blanked | src/pages/Login.jsx:29-35 | after typing in a field its error is no longer shown; other errors and the set of keys are unchanged |
| Login.IdentifierError | src/pages/Login.jsx:45-60 | no error exactly for an accepted identifier; each of the three messages in its own case |
| Login.FormErrors | src/pages/Login.jsx:42-68 | only the two fields; each error exactly in its case; no errors exactly when the form is valid |
| Login.PhoneStartsLikePhone | src/pages/Login.jsx:137-142 | every valid Nigerian phone number passes the formatting guard |
| Login.DigitsOf | src/pages/Login.jsx:119 | only digits remain |
| Login.FormattedDigits | src/pages/Login.jsx:117-135 | the digits of the formatted value: `+234...` kept whole, `0...` cut to 11, anything else unchanged |
| Login.FormatIdempotent | src/pages/Login.jsx:117-135 | formatting formatted text changes nothing |
| Login.DigitsOfPhone | src/pages/Login.jsx:47-54 | the digits of a valid phone number are its country code or trunk form |
| Login.TrunkPhone | src/pages/Login.jsx:127-131 | a valid `0...` number has 11 digits and takes the trunk layout |
| Login.CountryPhone | src/pages/Login.jsx:122-126 | a valid `234...`/`+234...` number takes the country layout |
| Login.FormatKeepsValidPhone | src/pages/Login.jsx:117-160 | formatting a valid Nigerian phone number keeps it valid |
| Login.Page.constructor | src/pages/Login.jsx:9-16 | empty identifier and password, no errors, OTP modal closed |
| Login.Page.HandleChange | src/pages/Login.jsx:22-36 | only the named field changes; its error is blanked |
| Login.Page.HandleIdentifierChange | src/pages/Login.jsx:137-160 | a phone-like value is stored formatted, any other as typed; a valid phone stays valid; the identifier's error is blanked |
| Login.Page.ValidateForm | src/pages/Login.jsx:42-68 | the shown errors are FormErrors; valid exactly when there are none |
| Login.Page.Submit | src/pages/Login.jsx:70-103 | an invalid form sends nothing and shows the fix-errors toast; OTP required: login without a token, opens the OTP modal; a truthy token: login, success toast, navigate to the dashboard; otherwise a failure toast with the server's message when it has one |
| Login.Page.CloseOtp | src/pages/Login.jsx:105-108 | closes the OTP modal and keeps the form |
| BvnVerification.FormErrors | src/pages/BVNVerification.jsx:30-45 | each error exactly in its case; none exactly when the BVN is 11 digits and a date is given |
| BvnVerification.PadStart2 | src/pages/BVNVerification.jsx:75-91 | long text is kept; short text is left-padded with `0` to two characters |
| BvnVerification.FormatDateForInput | src/pages/BVNVerification.jsx:75-82 | dash-free text is returned unchanged |
| BvnVerification.FormatDateForSubmit | src/pages/BVNVerification.jsx:84-91 | dash-free text is returned unchanged; it throws exactly when there are two pieces |
| BvnVerification.SplitDate | src/pages/BVNVerification.jsx:75-91 | a date built from three dash-free parts splits back into them |
| BvnVerification.SubmitPads | src/pages/BVNVerification.jsx:84-91 | `Y-M-D` becomes `DD-MM-Y`, day and month padded to two characters |
| BvnVerification.InputPads | src/pages/BVNVerification.jsx:75-82 | `D-M-Y` becomes `Y-MM-DD`, month and day padded to two characters |
| BvnVerification.SubmitThenInput | src/pages/BVNVerification.jsx:167-185 | a date-input value converted for the server and back for display is unchanged |
| BvnVerification.InputThenSubmit | src/pages/BVNVerification.jsx:75-91 | a server date `DD-MM-Y` converted for display and back is unchanged |
| BvnVerification.Form.constructor | src/pages/BVNVerification.jsx:6-11 | empty fields, no errors |
| BvnVerification.Form.HandleChange | src/pages/BVNVerification.jsx:14-28 | only the named field changes; its error is blanked |
| BvnVerification.Form.HandleDateChange | src/pages/BVNVerification.jsx:172-180 | stores the server format and blanks the error; a throwing conversion changes nothing; every date-input value is shown back unchanged |
| BvnVerification.Form.ValidateForm | src/pages/BVNVerification.jsx:30-45 | the shown errors are FormErrors; valid exactly when there are none |
| BvnVerification.Form.Submit | src/pages/BVNVerification.jsx:47-73 | an invalid form sends nothing; success reports the reply's result; anything else shows the server's message or the fallback |
| BvnVerificationPage.UpdatedUserFields | src/pages/BVNVerificationPage.jsx:11-15 | the updated record has the reply's status and limit, every other property of the old record, and no key twice |
| BvnVerificationPage.HandleVerificationComplete | src/pages/BVNVerificationPage.jsx:9-23 | only `user` in storage is written, with the updated record |
| BvnVerificationPage.SubmitForm | src/pages/BVNVerificationPage.jsx:9-17 | storage changes exactly when the form reports a successful verification |
| BvnVerificationPage.Route | src/pages/BVNVerificationPage.jsx:25-33 | to login exactly when there is no truthy user; to the dashboard exactly when the user is verified; else the form |
| BvnVerificationPage.VerifiedUserIsStored | src/pages/BVNVerificationPage.jsx:9-33 | after a VERIFIED reply the stored record reads back with the new limit and the old properties, and the page routes to the dashboard |
| AmountInput.DotIndex | src/components/TransferFunds.jsx:24 | the first `.`, or the length |
| AmountInput.AmountParts | src/components/TransferFunds.jsx:24 | an accepted amount has all-digit whole and fraction parts |
| AmountInput.DigitsValuePositive | src/components/TransferFunds.jsx:40-45 | a digit string is positive exactly when it has a nonzero digit |
| AmountInput.DigitsOfParts | src/components/TransferFunds.jsx:40 | the digits of an amount are those of its two parts |
| AmountInput.ParseFloatNaN | src/components/TransferFunds.jsx:40-41 | `parseFloat` gives NaN exactly on accepted text without a digit |
| AmountInput.ParseFloatPositive | src/components/TransferFunds.jsx:40-41 | the value is positive exactly when a digit is nonzero |
| AmountInput.RejectsAmountIff | src/components/TransferFunds.jsx:40-45 | the submit check turns an amount down exactly when it has no nonzero digit |
| AmountInput.EnabledButRejected | src/components/TransferFunds.jsx:185-190 | the only nonempty amount with the button enabled that submit still rejects is `"."` |
| AmountInput.QuickAmountText | src/components/TransferFunds.jsx:134-143 | a quick amount's text passes the filter and parses back to its number |
| TransferFunds.Form.constructor | src/components/TransferFunds.jsx:5-11 | empty form, no error, no success |
| TransferFunds.Form.HandleChange | src/components/TransferFunds.jsx:13-19 | only the named field changes |
| TransferFunds.Form.HandleAmountChange | src/components/TransferFunds.jsx:21-30 | an edit is kept exactly when the filter accepts it |
| TransferFunds.Form.QuickAmount | src/components/TransferFunds.jsx:134-143 | sets the amount to the button's number; the button is then enabled exactly when a recipient is given |
| TransferFunds.Form.Submit | src/components/TransferFunds.jsx:32-83 | the amount and recipient checks in order; a request exactly when both pass; success records the notice and clears the form; failures set the server's message or the fallback |
| FundWallet.Form.constructor | src/components/FundWallet.jsx:5-8 | empty amount, no error, no success |
| FundWallet.Form.HandleAmountChange | src/components/FundWallet.jsx:47-53 | an edit is kept exactly when the filter accepts it |
| FundWallet.Form.QuickAmount | src/components/FundWallet.jsx:83-87 | sets the amount to the button's number, which parses back and enables the button |
| FundWallet.Form.Submit | src/components/FundWallet.jsx:10-45 | a request exactly when the amount has a nonzero digit, with its positive value; success records the notice and clears the amount; failures set the message |

## Left out

- Rendering, CSS, focus moves, toasts' display duration and the password visibility toggle are presentation only. Every `addToast` call is an output of its handler. The login page's navigation and the BVN page's redirects are outputs too.
- The delayed `navigate("/dashboard")` that `handleVerificationComplete` schedules with `setTimeout` is not modelled; only its storage write is.
- The `loading` flag is not a field. Every handler runs to completion with the server's reply as a parameter, so no two handlers interleave. The disabled rules take `loading` as a parameter. Concurrent requests and unmounting mid-request are not modelled.
- Network calls (`api.post`, the `authService`, `pinService`, `transferService` and `depositService` functions) become reply parameters. The request body the handler would send is an output.
- The success half of the response interceptor is the identity and is not modelled. A 401's `window.location.href` assignment is the returned redirect.
- The OTP modal's `completeLogin` hook has no body to model, since the auth context does not define it (see Findings). The token it would receive is an output of `OtpModal.Modal.Submit`.
- `handleOTPSuccess` is passed as the OTP modal's `onSuccess` prop (src/pages/Login.jsx:355), but the modal never reads that prop (src/components/shared/OTPModal.jsx:6), so no path calls it and it is not modelled.
- Login's `login(null, response.user, true, identifier)` call passes extra arguments that the provider ignores. `response.user` is modelled as a one-level JSON object, never undefined.
- Formatters.FormatAmount: the `Num` argument holds only whole numbers of at least 0. A fractional or negative number behaves like `Str` of its `toString()` text, so 1234.5 gives "1,234.5" and -5 gives "5"; that text is not derived from the number here, and exponent forms such as `1e21` are not modelled. None of the other files modelled here calls `formatAmount`.
- Formatters.FormatAmount: models `parseInt(...).toLocaleString("en-US")` only for whole parts up to 2^53 - 1 (the requires). Above that, floating-point rounding changes the digits.
- AmountInput.ParseFloat: an exact decimal. Rounding to the nearest double, subnormals and overflow to Infinity are not modelled.
- Json: only what the stored user record needs. Strings, non-negative integers, null and undefined, one object level, no whitespace, and only the `\"` and `\\` escapes. Nested values are not modelled. Integer-like keys are not moved to the front as JavaScript engines do. Stored text outside this subset makes `AuthService.GetCurrentUser` return `Throws` and makes `AuthContext.Provider.Init` report `threw` and leave `loading` true, whereas `JSON.parse` accepts text such as `{"a":true}`, `{"a": 1}`, `{"a":1.5}` or a nested object, and the program would restore that user.
- BvnVerification.Form.HandleDateChange: the TypeError that `formatDateForSubmit` throws for a two-piece value is modelled as a handler that updates nothing. React's error handling beyond that is not modelled.
- BvnVerificationPage.Spread: spreading a number, boolean or null copies nothing, and spreading a string copies its characters; these follow JavaScript. Arrays are not modelled.
- Api.ErrorBody: a non-object `error.response.data`, such as a plain string, is not modelled.
- Browser-side `maxLength`, `required` and `type="email"` validation, and UTF-16 code-unit lengths (characters are Dafny chars), are not modelled.
- TransferFunds.Form.HandleChange: requires a name other than `amount`, because only the recipient input is wired to it. The amount input uses `HandleAmountChange`.
- UpdatePinModal.Modal.HandleInputChange: requires the edited kind's step to be the current step. Other inputs are neither rendered nor enabled, so they cannot raise events.
- The keyboard handler that moves focus back on Backspace changes no state and is not modelled.

## Findings

| source | as written | input that shows it | evidently intended | confidence | as-written member | corrected member |
|---|---|---|---|---|---|---|
| src/components/shared/OTPModal.jsx:13-97 | the modal destructures `completeLogin` from `useAuth()`, but the provider's value has only `isAuthenticated`, `user`, `login`, `logout` and `loading`. The call after a verified code throws a TypeError into the catch: "OTP verification failed", digits cleared, modal left open, after a "Login successful!" toast | six digits and a reply with a non-empty `token` | the sign-in completes with the token and the modal closes | high; not executed | OtpModal.Modal.SubmitAsWritten | OtpModal.Modal.Submit |
