# OTP sign-in and document upload: a Dafny model

This project models the logic at the core of a React Native app. A user
signs in with a one-time password (OTP) sent to their phone, and then
uploads documents with metadata. Three parts of the app are modelled:

- **The `auth` Redux slice** (`AuthSlice`, `auth_slice.dfy`). The state is
  `{phone, status, error}`. The reducer reacts to the `pending`,
  `fulfilled` and `rejected` actions of the two async thunks, `generateOtp`
  and `validateOtp`. Each thunk rejects with the HTTP response body when
  that body is truthy, and with the error message otherwise.
  - `validateOtp` is created with the same action-type prefix as
    `generateOtp` (`auth/generateOtp`). So the reducer cases written for
    `generateOtp` also handle every `validateOtp` action. The model keeps
    this and proves it (`ValidateOtpDrivesSameTransitions`).
  - Neither thunk sends the OTP. Both read only `phone` from their argument.
  - The state is a value (`AuthRecord`, `Step`, `Run`), and also a class
    (`AuthState`) updated in place by one method per reducer case.
- **The OTP entry buffer** (`OtpEntry`, `otp_entry.dfy`). The screen keeps
  six one-digit slots (`code`), the complete code entered so far
  (`fullOtp`) and the focused slot.
  - Typing edits one slot and rebuilds `fullOtp` from the slots.
  - A paste of six or more digits sets `fullOtp`. An effect then spreads its
    first six digits over the slots.
  - Each handler, taken together with the effect that React runs after it
    (`OnChangeText`), keeps one invariant, `Consistent`: the slots and
    `fullOtp` describe the same code. `HandleChange` alone need not keep
    it, because a paste updates `fullOtp` before the effect refills the
    slots.
  - Verify and Resend dispatch the thunks above through `AuthState`.
- **The upload form** (`Upload`, `upload.dfy`). The pure rules are
  functions over a `FormState` record:
  - the case-insensitive tag suggestions;
  - the validation gate and the "required" markers;
  - the `DD-MM-YYYY` date string, with a parser that reads it back;
  - the `{tag_name}` payload and the file descriptor;
  - the category-to-sub-category options;
  - the decision over a camera result, including the 5 MiB cap;
  - the failure alert.

  The form itself is a class, `UploadForm`, whose fields are the screen's
  `useState` hooks. Its handlers update them in place.

The JavaScript behaviour these depend on is in `Js` (`js.dfy`):

- truthiness and `||`;
- `trim`, with ECMAScript's white-space set;
- `toLowerCase`, `includes`, `endsWith` and `padStart`;
- `replace(/\D/g, '')`;
- `String(n)`;
- `Array.prototype.filter`.

Remote calls, the clock and user gestures are parameters: a call's outcome,
today's date, a camera result, and the key pressed.

## Model

| member | source | states |
|---|---|---|
| Js.Or | src/features/auth/authSlice.js:62 | `a \|\| b` is `a` when `a` is truthy and `b` otherwise; the result is truthy iff either operand is |
| Js.Filter | src/screens/UploadScreen.js:88-90 | `filter` keeps an order-preserving subsequence; an element is in the result iff it is in the input and the test accepts it |
| Js.FilterMultiplicity | src/screens/UploadScreen.js:88-90 | an accepted element occurs in the result as often as in the input; a rejected one does not occur |
| Js.FilterKeepsDistinct | src/screens/UploadScreen.js:357 | filtering a duplicate-free list gives a duplicate-free list |
| Js.TrimStart | src/screens/UploadScreen.js:258 | removing leading white space leaves a suffix of `s`; what was removed is all white space, and the result does not start with white space |
| Js.TrimEnd | src/screens/UploadScreen.js:258 | removing trailing white space leaves a prefix of `s`; what was removed is all white space, and the result does not end with white space |
| Js.Trim | src/screens/UploadScreen.js:258 | `s.trim()` is `TrimEnd(TrimStart(s))`, so it is `s` with exactly its blank ends cut off; it is no longer than `s`; it is empty exactly when every character of `s` is ECMAScript white space, and otherwise neither starts nor ends with white space |
| Js.ToLower | src/screens/UploadScreen.js:87-89 | `toLowerCase` keeps the length and maps each character on its own: each of `A`-`Z` to the matching letter of `a`-`z` (code point plus 32), everything else unchanged |
| Js.IncludesIffOccurs | src/screens/UploadScreen.js:89 | `includes` holds exactly when the searched string occurs at some index |
| Js.PadStart | src/screens/UploadScreen.js:264 | `padStart(n, c)` gives a string of length `max(\|s\|, n)` that ends with `s` and is `c` before it |
| Js.IntToString | src/screens/UploadScreen.js:264 | `String(n)` is non-empty, starts with "-" exactly for negative `n`, is otherwise all digits, and has no leading zero: a non-negative number of two or more digits does not start with "0", and after the "-" of a negative number come digits not starting with "0" |
| Js.StripNonDigits | src/screens/OTPVerificationScreen.js:59 | `replace(/\D/g, '')` leaves only digits, and is no longer than the input; a character occurs in the result iff it is a digit of the input; a digits-only string is unchanged |
| Js.StripNonDigitsOrderAndCounts | src/screens/OTPVerificationScreen.js:59 | the result is a subsequence of the input (the digits keep their order) and each digit occurs exactly as often as in the input, no other character at all: together, exactly the input's digits in order |
| Js.IntToStringRoundTrip | src/screens/UploadScreen.js:264 | `String(year)` reads back as the same integer, negative years included |
| AuthSlice.RequestFor | src/features/auth/authSlice.js:22-29 | both thunks issue a GET to the fixed endpoint and pass `{ mobile_number: phone }` as axios's second (configuration) argument, with the argument's phone; the OTP is not passed at all |
| AuthSlice.RejectValue | src/features/auth/authSlice.js:18 | the reject value is the response body when it exists and is truthy, and the error message otherwise |
| AuthSlice.SettleAction | src/features/auth/authSlice.js:5-21 | a call settles with `fulfilled` carrying the response body, or with `rejected` carrying the reject value; the action keeps the thunk's argument |
| AuthSlice.Unwrapped | src/screens/OTPVerificationScreen.js:93-96 | `unwrap()` throws the rejected action's payload when it is truthy (the thunk rejected with a value), and otherwise the action's serialized error `{ message: 'Rejected' }`, for every thunk and argument; what it throws is never falsy |
| AuthSlice.Step | src/features/auth/authSlice.js:50-63 | an action of any other type leaves the state unchanged; the phone only ever becomes the action's argument phone; no action leads into idle; entering loading clears the error; entering succeeded takes the argument's phone and keeps the error; entering failed keeps the phone |
| AuthSlice.ValidateOtpDrivesSameTransitions | src/features/auth/authSlice.js:22-23 | each `validateOtp` action changes the state exactly as the matching `generateOtp` action does; pending gives loading, fulfilled gives succeeded, rejected gives failed |
| AuthSlice.RunPreservesCoherent | src/features/auth/authSlice.js:50-63 | any sequence of actions keeps the state coherent: idle only as the initial state, and no error while loading |
| AuthSlice.ReachableStatesAreCoherent | src/features/auth/authSlice.js:42-63 | every state reachable from `initialState` is coherent |
| AuthSlice.CallLifecycle | src/features/auth/authSlice.js:52-63 | a whole call, pending then settled: success gives succeeded, the argument's phone and no error; failure gives failed, the old phone, and an error that is the reject value or "Rejected" (never falsy) |
| AuthSlice.AuthState.constructor | src/features/auth/authSlice.js:42-46 | the initial state is phone null, status idle, error null |
| AuthSlice.AuthState.OnPending | src/features/auth/authSlice.js:52-55 | the pending case sets loading, clears the error and keeps the phone |
| AuthSlice.AuthState.OnFulfilled | src/features/auth/authSlice.js:56-59 | the fulfilled case sets succeeded, takes the phone from the argument and keeps the error |
| AuthSlice.AuthState.OnRejected | src/features/auth/authSlice.js:60-63 | the rejected case sets failed, sets the error to the payload when truthy and to the action's error message otherwise, and keeps the phone |
| AuthSlice.AuthState.Dispatch | src/features/auth/authSlice.js:50-63 | the in-place reducer agrees with `Step` on every action, including those of other types |
| AuthSlice.AuthState.Call | src/features/auth/authSlice.js:5-21 | dispatching a thunk issues exactly `RequestFor(t, arg)`, leaves the state that its two actions produce, and `unwrap` resolves iff the call resolved |
| OtpEntry.LastDigit | src/screens/OTPVerificationScreen.js:69-70 | the slot receives the last digit of the text, or "" exactly when the text holds no digit |
| OtpEntry.JoinOfSlots | src/screens/OTPVerificationScreen.js:74 | the joined slots are digits only, at most one per slot; when every slot is filled, position `i` is slot `i`'s digit; when all are empty, the join is "" |
| OtpEntry.EditKeepsConsistent | src/screens/OTPVerificationScreen.js:67-75 | after a one-slot edit, setting `fullOtp` to the joined slots restores the invariant |
| OtpEntry.FilledSlotsSpellFullOtp | src/screens/OTPVerificationScreen.js:115 | under the invariant, "all six slots filled" iff "`fullOtp` has six or more digits", and then the first six digits are the slots |
| OtpEntry.Spread | src/screens/OTPVerificationScreen.js:37-54 | the effect's spread gives six slots, slot `i` holding the `i`-th digit of `fullOtp` |
| OtpEntry.AfterChange | src/screens/OTPVerificationScreen.js:37-81 | after a text change and the effect there are six slots, and `fullOtp` is the pasted digits or the joined edited slots: the effect never alters it |
| OtpEntry.AfterChangeSlots | src/screens/OTPVerificationScreen.js:37-81 | when `fullOtp` changed to six or more digits, slot `i` holds its `i`-th digit; otherwise every slot but `index` is as before |
| OtpEntry.HandlerThenEffect | src/screens/OTPVerificationScreen.js:37-81 | whatever the handler leaves (the pasted digits with the old slots, or one edited slot with their join), running the effect when `fullOtp` changed gives `AfterChange` and restores the invariant |
| OtpEntry.AfterChangeKeepsConsistent | src/screens/OTPVerificationScreen.js:37-81 | a text change followed by the effect keeps the invariant; a paste makes `fullOtp` all of the pasted digits; any other change edits slot `index` only |
| OtpEntry.OtpBuffer.constructor | src/screens/OTPVerificationScreen.js:27-34 | six empty slots, empty `fullOtp`, focus on the first slot |
| OtpEntry.OtpBuffer.AllFilled | src/screens/OTPVerificationScreen.js:115 | under the invariant, `allFilled` holds exactly when `fullOtp` has six or more digits |
| OtpEntry.OtpBuffer.SubmittedOtp | src/screens/OTPVerificationScreen.js:91 | the submitted code is `fullOtp`, because the `code.join('')` fallback is never needed; when complete, its first six digits are the slots |
| OtpEntry.OtpBuffer.HandleChange | src/screens/OTPVerificationScreen.js:56-81 | a paste of six or more digits sets `fullOtp` only; any other text sets slot `index` to its last digit, sets `fullOtp` to the joined slots, and moves focus forward when a digit was entered below the last slot |
| OtpEntry.OtpBuffer.DistributeFullOtp | src/screens/OTPVerificationScreen.js:37-54 | with six or more digits in `fullOtp`, fresh slots hold its first six digits; otherwise the slots are unchanged |
| OtpEntry.OtpBuffer.OnChangeText | src/screens/OTPVerificationScreen.js:37-81 | the handler, then the effect (only when `fullOtp` changed), gives exactly `AfterChange` and keeps the invariant |
| OtpEntry.OtpBuffer.HandleKeyPress | src/screens/OTPVerificationScreen.js:83-88 | Backspace on an empty slot other than the first moves the focus one slot back; any other key keeps it |
| OtpEntry.OtpBuffer.HandleVerify | src/screens/OTPVerificationScreen.js:90-98 | dispatches `validateOtp` with the phone and `fullOtp`, so the request issued carries the phone and not the code; navigates iff the call resolved; otherwise alerts "Verification failed — " followed by the string form of what `unwrap` throws: the truthy reject value, or "[object Object]" for the serialized error |
| OtpEntry.OtpBuffer.HandleResend | src/screens/OTPVerificationScreen.js:100-113 | dispatches `generateOtp` with the phone, issuing the request for that phone; on success clears every slot and `fullOtp` and alerts "Code resent to " followed by the phone; on failure leaves the buffer and alerts "Resend failed — " followed by the string form of what `unwrap` throws |
| Upload.SubOptions | src/screens/UploadScreen.js:292-295 | the personal options iff the category is "Personal", and the professional options otherwise |
| Upload.Suggests | src/screens/UploadScreen.js:86-91 | with an empty input, a tag is offered exactly when it is not selected |
| Upload.FilteredTags | src/screens/UploadScreen.js:86-91 | the suggestions are an order-preserving subsequence of the available tags; a tag is suggested iff its lower-case form contains the lower-case input and it is not selected |
| Upload.EmptyInputSuggestsUnselected | src/screens/UploadScreen.js:86-91 | with an empty input, the suggestions are exactly the unselected available tags in order; with nothing selected, they are all the available tags |
| Upload.SuggestionsIgnoreInputCase | src/screens/UploadScreen.js:87-89 | the suggestions for an input equal those for its lower-case form |
| Upload.ReadyToSubmit | src/screens/UploadScreen.js:258 | the gate passes iff file, category and sub-category are set, the remarks are not all white space, and there is at least one tag and no blank tag |
| Upload.FlaggedFields | src/screens/UploadScreen.js:338-344 | the date field is never marked as required, and nothing is marked before a submit attempt |
| Upload.SubmitBlockedIffFlagged | src/screens/UploadScreen.js:256-260 | after a submit attempt, the gate fails exactly when at least one field shows "This field is required." |
| Upload.TwoDigits | src/screens/UploadScreen.js:264 | a day or month becomes two digits that read back as that number |
| Upload.TwoDigitsIsPadded | src/screens/UploadScreen.js:264 | those two digits are `String(n).padStart(2, '0')` |
| Upload.DocumentDate | src/screens/UploadScreen.js:264 | the date string has the form `DD-MM-` followed by the year |
| Upload.DocumentDateRoundTrip | src/screens/UploadScreen.js:264 | the date string reads back as the same day, 1-based month and year |
| Upload.TagEntries | src/screens/UploadScreen.js:266 | one `{tag_name}` per tag, in order, and the tag names read back as the tags |
| Upload.FileFor | src/screens/UploadScreen.js:269-273 | the uri is the form's; the name is the file name when it is not empty, and exactly "document" when it is; the type is `application/pdf` iff the name ends in ".pdf", and `image/jpeg` otherwise |
| Upload.BuildRequest | src/screens/UploadScreen.js:262-273 | the request's file is described by `FileFor`; major and minor head and remarks are the form's; the date string reads back as the form's date; the tag names are the selected tags in order; the user id is "dharmesh" |
| Upload.RequestCarriesForm | src/screens/UploadScreen.js:256-273 | a request that passed the gate carries a non-empty uri, category and sub-category, a date that reads back as the form's, non-blank remarks, and the selected tags (non-empty, none blank) |
| Upload.CaptureOutcome | src/screens/UploadScreen.js:191-215 | a cancelled result is ignored; a photo is accepted iff there is no error code, a first asset exists and its size is not above 5 MiB; then the name and uri come from the asset, defaulting to ""; every refusal shows a non-empty message |
| Upload.PhotoSizeCap | src/screens/UploadScreen.js:209 | a photo of exactly 5 MiB is accepted; one byte more is refused |
| Upload.FailureAlert | src/screens/UploadScreen.js:282-288 | the alert is titled "Upload failed" and its message is never falsy: the payload's message, else the slice's error, else "Upload failed"; for a thrown error, its message, else "An error occurred." |
| Upload.UploadForm.constructor | src/screens/UploadScreen.js:45-55 | every field starts empty; the date is today; no submit has been attempted |
| Upload.UploadForm.SetAvailableTags | src/screens/UploadScreen.js:73-75 | the tags loaded from the store become the available tags |
| Upload.UploadForm.OnFocus | src/screens/UploadScreen.js:63-65 | focusing the screen clears the submit-attempted flag, so no field is marked |
| Upload.UploadForm.SetRemarks | src/screens/UploadScreen.js:396 | the remarks become the typed text |
| Upload.UploadForm.SetTagInput | src/screens/UploadScreen.js:366 | the tag input becomes the typed text |
| Upload.UploadForm.OnChangeDate | src/screens/UploadScreen.js:251-254 | a selected date replaces the form's date; a dismissal keeps it |
| Upload.UploadForm.SelectCategory | src/screens/UploadScreen.js:321 | choosing a category always resets the sub-category to "" and keeps the form invariant |
| Upload.UploadForm.SelectSubCategory | src/screens/UploadScreen.js:331-333 | a sub-category chosen from the current category's options is stored, and the invariant is kept |
| Upload.UploadForm.AddTag | src/screens/UploadScreen.js:232-249 | an empty or already selected tag leaves the tags unchanged; any other tag is appended; the input is cleared either way; the tags stay distinct; a new tag not yet available is posted, and becomes available when the post succeeds |
| Upload.UploadForm.SubmitTagInput | src/screens/UploadScreen.js:367 | submitting the input adds its trimmed text: a blank input adds nothing, a trimmed text already selected adds nothing, any other is appended; the input is cleared and the tags stay distinct |
| Upload.UploadForm.RemoveTag | src/screens/UploadScreen.js:357 | exactly that tag disappears; the others keep their relative order; a tag not present leaves the list unchanged |
| Upload.UploadForm.OnCameraResult | src/screens/UploadScreen.js:191-215 | an accepted photo sets the file name and uri; anything else leaves them and returns the alert, if any |
| Upload.UploadForm.ResetAfterUpload | src/screens/UploadScreen.js:276-281 | every field is cleared except the available tags, and the date becomes today |
| Upload.UploadForm.HandleSubmit | src/screens/UploadScreen.js:256-289 | marks the attempt; when the gate fails, sends nothing and changes nothing else; otherwise sends the request built from the form, then resets the form with a success alert, or keeps it with the failure alert |

## Left out

- Network I/O: the axios GETs in the thunks, the tag POST and the upload itself. Each outcome is an input (`CallOutcome`, `tagSaved`, `UploadOutcome`). `axios.get` receives `{ mobile_number }` as its second, configuration argument. The model records the value passed, not how axios uses it.
- `uploadFileDocumentEntry`, `fetchDocumentTags` and the store's `auth.tags` are not defined in src/features/auth/authSlice.js. The upload's result is therefore an input: fulfilled, settled otherwise with a payload message, or thrown. The available tags are an input too (`SetAvailableTags`).
- Native and library calls: the Android permission flow, the document picker and `keepLocalCopy`, `launchCamera` itself (only the decision over its result is modelled), `Alert` and `Linking`, and `console` logging.
- Focus is an index only. The delayed `setTimeout` focus moves are not modelled: to the last slot after a paste, and to the first slot after a resend. `DistributeFullOtp` and `HandleResend` keep the focus index as it was.
- Upload.UploadForm.OnCameraResult: an asset without a `uri` gives the form `undefined`; the model stores "" instead. Both are falsy, so the gate behaves the same.
- `toLowerCase` is modelled on ASCII letters only. Every other character is kept as it is.
- `new Date()` is the `today` parameter. A date is modelled as (year, 0-based month, day of month). The time-zone-dependent `toISOString` label and the `showDatePicker` flag are presentation only.
- Float layout (`inputWidth`), styles, and the presentation screens and navigation are not part of this model.
- The tag POST finishes asynchronously. `AddTag` applies its result immediately, so the order of other events against that completion is not modelled.
- Upload.UploadForm.SelectCategory and Upload.UploadForm.SelectSubCategory require values the pickers offer. The sub-category picker is only enabled once a category is chosen. Arbitrary values are not modelled.
- The reducer accepts any action in any state, so for example a new pending action after success is allowed. Strictly forward status transitions are not enforced, and the model follows the reducer as written.
- Upload.UploadForm.HandleSubmit, OtpEntry.OtpBuffer.HandleVerify and OtpEntry.OtpBuffer.HandleResend model an awaited call as one atomic step: the call's outcome is a parameter and the state changes at once. Edits made on the screen while the call is in flight, and handlers reading values captured before the `await`, are not expressible.
- `JsValue` has no numbers, booleans or arrays. A response body or reject value of those kinds is not modelled, so, for example, `'Verification failed — ' + err` for an array payload (which JavaScript joins with commas) is not covered.
