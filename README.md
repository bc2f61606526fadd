# Feedback form: validation engine and form-state machine

This project models the client side of a customer-feedback form (`app/page.tsx`).
It covers five field validators and the state the page keeps:

- `formData`: the five field values;
- `errors`: one message per field, `""` meaning no error;
- `touched`: whether each field has lost focus at least once;
- `isSubmitting`: the in-flight flag.

Three event handlers change this state: change, blur and submit.

## Modules

- `JsText` (`js_text.dfy`) models JavaScript strings as sequences of UTF-16 code units, so `length` counts what JavaScript counts. It also defines the whitespace set `IsWs`, which `trim` and the regular-expression class `\s` share: WhiteSpace plus LineTerminator, sections 12.2 and 12.3 of ECMA-262. `Trim` is `String.prototype.trim`. `TrimIs` shows that `Trim`'s contract determines it completely.
- `Validators` (`validators.dfy`) holds the twelve user-visible messages, the three regular expressions and the five validators. Each regular expression is hand-coded with one predicate per element. An optional element is "take it or skip it". A bounded repetition `{1,4}` is a bounded choice of its length. Each validator trims its input, checks its rules in source order and returns the first failing rule's message, or `""`.
- `ValidatorProperties` (`validator_properties.dfy`) proves what each validator accepts. It also proves the bounds the phone pattern imposes and an index-based description of the email pattern.
- `ValidatorExamples` (`validator_examples.dfy`) checks the boundary inputs `"Jo"`, `"J"`, `"John123"`, `"123-4567"`, `"12345"`, `"1.2.345"`, `"abc1234"`, `"a@b.c"`, `"a@b"` and `"a@.c"`.
- `FeedbackForm` (`feedback_form.dfy`) models the page state:
  - `Fields<T>` is the five-key record shape;
  - `Form` is a class holding the four state slots;
  - its methods `HandleChange`, `HandleBlur` and `HandleSubmit` are the three handlers.

  The form keeps an inductive invariant, `ErrorsAgree`. While a field is untouched, its error is `""`. Once it is touched, its error is its validator's verdict on its current value. The display rule ("error shown iff non-empty and touched") follows from this invariant.

The contact-number rule keeps a quirk of the code. The "at least 7 digits" check counts the characters left after removing whitespace, `-`, `(`, `)` and `+`. Dots are not removed, so they count. A description of the rule as "digit count ≥ 7" disagrees with the code, and this model follows the code. `ContactNumberAccepted` states the exact rule: digits plus dots ≥ 7. It also proves that an accepted number has at least 5 digits, because at most two dots fit the pattern. `ContactNumberDotsCount` shows that `"1.2.345"` (5 digits) is accepted.

## Model

| member | source | states |
|---|---|---|
| `JsText.Trim` | app/page.tsx:43-49 | the trimmed value is an infix of the input, with only whitespace around it and no whitespace at either end; it is empty exactly when the input is all whitespace |
| `JsText.TrimIs` | app/page.tsx:43-49 | any such infix is the result: whitespace around a part that neither starts nor ends with whitespace is exactly what trim removes |
| `JsText.TrimIdempotent` | app/page.tsx:43-49 | trimming twice gives the same as trimming once |
| `JsText.TrimOfTrimmed` | app/page.tsx:43-49 | a value that neither starts nor ends with whitespace is left unchanged |
| `JsText.TrimIgnoresPadding` | app/page.tsx:43-49 | adding whitespace before and after a value does not change its trim |
| `Validators.StripPhone` | app/page.tsx:74 | removing the class `[\s\-\(\)\+]` leaves none of those characters, only characters of the input, and never lengthens the value |
| `Validators.StripPhoneKeepsOthers` | app/page.tsx:74 | every code unit of the class is deleted and every other code unit is kept exactly as many times as it occurs in the input |
| `Validators.ValidateCustomerName` | app/page.tsx:42-53 | the result is `""` or one of the three name messages; it is "Customer name is required" exactly when the input is all whitespace |
| `Validators.ValidateCity` | app/page.tsx:55-63 | the result is `""` or one of the two city messages; it is "City is required" exactly when the input is all whitespace |
| `Validators.ValidateContactNumber` | app/page.tsx:65-78 | the result is `""` or one of the three contact messages; it is "Contact number is required" exactly when the input is all whitespace |
| `Validators.ValidateEmail` | app/page.tsx:80-89 | the result is `""` or one of the two email messages; it is "Email is required" exactly when the input is all whitespace |
| `Validators.ValidateFeedback` | app/page.tsx:91-99 | the result is `""` or one of the two feedback messages; it is "Feedback/Complaint is required" exactly when the input is all whitespace |
| `ValidatorProperties.CustomerNameAccepted` | app/page.tsx:42-53 | a name is accepted iff its trimmed value has at least 2 code units, each an ASCII letter or whitespace; an accepted name starts and ends with a letter |
| `ValidatorProperties.CustomerNameOneUnit` | app/page.tsx:46-48 | any trimmed value of length 1, letter or not, gives "must be at least 2 characters" |
| `ValidatorProperties.CustomerNameRejected` | app/page.tsx:42-53 | the length rule is checked first: a name is "too short" iff its trimmed value has exactly 1 code unit, and "letters and spaces" iff it has at least 2 and does not match `^[a-zA-Z\s]+$` |
| `ValidatorProperties.CityAccepted` | app/page.tsx:55-63 | a city is accepted iff its trimmed length is at least 2, whatever its characters; it is too short iff that length is 1 |
| `ValidatorProperties.FeedbackAccepted` | app/page.tsx:91-99 | feedback is accepted iff its trimmed length is at least 10; it gives the length message iff that length is between 1 and 9 |
| `ValidatorProperties.PhoneShapeBounds` | app/page.tsx:70 | a value matching the phone pattern has at most 24 code units, at least 3 digits and at most 2 dots, and holds only digits, separators, `+` and parentheses |
| `ValidatorProperties.StripKeepsDigitsAndDots` | app/page.tsx:74 | on such characters, the stripped length is the number of digits plus the number of dots |
| `ValidatorProperties.ContactNumberAccepted` | app/page.tsx:65-78 | a contact number is accepted iff its trimmed value matches the pattern and has at least 7 digits and dots together; an accepted one is 7 to 24 code units long and has at least 5 digits |
| `ValidatorProperties.ContactNumberRejected` | app/page.tsx:65-78 | the pattern is checked before the count: a contact number gets "valid contact number" iff it is not blank and its trimmed value does not match the pattern, and "at least 7 digits" iff the trimmed value matches but has fewer than 7 digits and dots together |
| `ValidatorProperties.EmailShapeIff` | app/page.tsx:84 | the email pattern matches iff the value has no whitespace, exactly one `@` that is not first, and a `.` after it with at least one code unit on each side |
| `ValidatorProperties.EmailAccepted` | app/page.tsx:80-89 | an email is accepted iff its trimmed value matches the pattern, and then it contains no whitespace |
| `ValidatorExamples.CustomerNameTwoLetters` | app/page.tsx:42-53 | "Jo" is accepted |
| `ValidatorExamples.CustomerNamePadded` | app/page.tsx:42-53 | "Jo" with a blank before it and a tab after it is accepted |
| `ValidatorExamples.CustomerNameOneLetter` | app/page.tsx:46-48 | "J" gives "Customer name must be at least 2 characters" |
| `ValidatorExamples.CustomerNameWithDigits` | app/page.tsx:49-51 | "John123" gives "Customer name should only contain letters and spaces" |
| `ValidatorExamples.CustomerNameBlank` | app/page.tsx:43-45 | a blank and a line feed give "Customer name is required" |
| `ValidatorExamples.DashedShape` | app/page.tsx:70 | "123-4567" matches the phone pattern |
| `ValidatorExamples.ContactNumberDashed` | app/page.tsx:65-78 | "123-4567" is accepted |
| `ValidatorExamples.FiveDigitsShape` | app/page.tsx:70 | "12345" matches the phone pattern |
| `ValidatorExamples.ContactNumberFiveDigits` | app/page.tsx:74-76 | "12345" gives "Contact number must be at least 7 digits" |
| `ValidatorExamples.DottedShape` | app/page.tsx:70 | "1.2.345" matches the phone pattern |
| `ValidatorExamples.DottedCounts` | app/page.tsx:74 | "1.2.345" has five digits and two dots |
| `ValidatorExamples.ContactNumberDotsCount` | app/page.tsx:74-77 | "1.2.345" is accepted although it has only 5 digits |
| `ValidatorExamples.ContactNumberLetters` | app/page.tsx:70-73 | "abc1234" gives "Please enter a valid contact number" |
| `ValidatorExamples.EmailMinimal` | app/page.tsx:80-89 | "a@b.c" is accepted |
| `ValidatorExamples.EmailNoDot` | app/page.tsx:84-87 | "a@b" gives "Please enter a valid email address" |
| `ValidatorExamples.EmailEmptyDomain` | app/page.tsx:84-87 | "a@.c" gives "Please enter a valid email address" |
| `FeedbackForm.Validate` | app/page.tsx:113-129 | the validator picked for a field gives that field's "is required" message exactly when the value is all whitespace |
| `FeedbackForm.ValidateDependsOnTrim` | app/page.tsx:42-99 | every validator gives the same verdict on a value and on its trim |
| `FeedbackForm.Fields.With` | app/page.tsx:105-108 | the spread update sets the named field and leaves the other four unchanged |
| `FeedbackForm.Fields.Values` | app/page.tsx:195 | `Object.values` lists every field's value and nothing else |
| `FeedbackForm.ValidateAll` | app/page.tsx:184-190 | each field's entry is that field's validator applied to that field's value |
| `FeedbackForm.Form.constructor` | app/page.tsx:15-39 | all values empty, no errors, nothing touched, not submitting; the invariant holds |
| `FeedbackForm.Form.HandleChange` | app/page.tsx:101-135 | the field's value is replaced and no other value changes; its error is recomputed from the new value only if it is touched, and otherwise no error changes; `touched` is unchanged; the invariant is kept |
| `FeedbackForm.Form.HandleBlur` | app/page.tsx:137-169 | the field becomes touched and its error is recomputed unconditionally; values and other fields are unchanged; the invariant is kept when the event carries the field's current value |
| `FeedbackForm.Form.HandleSubmit` | app/page.tsx:171-245 | a request carrying exactly the form's values is made iff every field validates. On success, values, errors and touched return to their initial state. On a failed or invalid submission, values are kept, all five fields are touched and every error is recomputed. The flag is false afterwards and the invariant holds |
| `FeedbackForm.ErrorShownIff` | app/page.tsx:311-317 | whenever the invariant holds, a field's error is shown iff the field is touched and its current value fails its validator |
| `FeedbackForm.EmptyFormErrors` | app/page.tsx:184-192 | on an empty form every field gets its non-empty "is required" message |
| `FeedbackForm.SubmitEmptyForm` | app/page.tsx:171-197 | submitting a fresh form makes no request, touches all five fields and shows all five "is required" messages |

## Left out

- The page markup, styling, video and images: presentation only. Only the rule that decides when an error is shown is kept, as `Form.ErrorShown`.
- `alert` and `console.error`: user notifications with no effect on the state. The message carried by `Rejected` is therefore unused.
- The `fetch` to `/api/submit-feedback` and `response.json()` (network I/O). The answer is the `outcome` parameter of `HandleSubmit`: `Success`, `Rejected(message)` or `Exception`. The request body is returned as `request`.
- The relay `app/api/submit-feedback/route.ts`. It is network I/O around environment configuration and an external endpoint, and it has no form state.
- Asynchronous suspension, React's batched state updates and stale closures. Each handler is one atomic step, so `isSubmitting` is only a flag that is false between steps. The concurrency it guards against is not modelled.
- FeedbackForm.Form.HandleBlur: takes the event's value as a parameter. It keeps the invariant only when that value is the field's current value, which a controlled input guarantees; the model does not model the DOM.
- Field names other than the five: the handlers are called only from the five inputs, so `Field` has exactly five values.
- Regular expressions in general: only the three patterns are written out, and `\s` uses the same fixed `IsWs` set as `trim`.
