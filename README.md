# Auth boilerplate rules, modelled in Dafny

This project models the rule logic of a Next.js authentication boilerplate:
- the password strength meters and policies;
- the email, username and OTP format checks;
- `sanitizeInput`;
- the generic `validateField` rule engine and its constant rule records;
- the zod schemas' acceptance predicates;
- token and session expiry arithmetic;
- the client-side state of the OTP countdown hook, the OTP digit-slot input, the password-confirmation attempt counter and the OTP resend countdown;
- the validation chains of the signup, login, change-password and edit-profile forms.

Each source file becomes one module:

| module | source |
|---|---|
| `PasswordUtils` | lib/password-utils.ts |
| `DbUtils` | lib/db-utils.ts |
| `AuthUtils` | lib/auth-utils.ts |
| `ValidationSchemas` | lib/validation-schemas.ts |
| `Validation` | lib/validation.ts |
| `SessionUtils` | lib/session-utils.ts |
| `Types` | lib/types.ts |
| `OtpTimer` | hooks/use-otp-timer.ts |
| `OtpInput` | components/auth/otp-input.tsx |
| `OtpForm` | components/auth/otp-form.tsx |
| `SignupForm` | components/auth/signup-form.tsx |
| `LoginForm` | components/auth/login-form.tsx |
| `PasswordConfirmation` | components/profile/password-confirmation-modal.tsx |
| `ChangePasswordForm` | components/profile/change-password-form.tsx |
| `ChangePasswordSection` | components/profile/change-password-section.tsx |
| `EditProfileForm` | components/profile/edit-profile-form.tsx |

Four modules are shared helpers:
- `JsText` holds the JavaScript string built-ins the code relies on:
  - the `\s` and `trim` white-space set;
  - `Number.prototype.toString`, `padStart` and `join`;
  - the `/\D/g` digit filter.
- `RegexClasses` holds the regular expressions as predicates.
- `RuleChecks` holds the "one message per failed check, in order" lists that the meters and validators build with `push`.
- `PolicyAgreement` holds the lemmas comparing the five definitions of an acceptable password.

State that React keeps with `useState` and updates in event handlers becomes a Dafny `class`:
- its fields are the state variables;
- its methods are the handlers;
- timer callbacks are explicit `Tick` methods.

A form's errors object becomes a record with one `Option<string>` per key. `None` means the key is absent. A present value is shown only when it is non-empty (JavaScript truthiness, `JsText.IsShown`).

The clock, the random draw and the outcome of each network call are parameters.

## Model

| member | source | states |
|---|---|---|
| PasswordUtils.CalculatePasswordStrength | lib/password-utils.ts:7-37 | The score is min(raw, 5), always in 0..5, where raw counts the six criteria met; the label and colour are looked up with the raw score. |
| PasswordUtils.RawScoreFromRequirements | lib/password-utils.ts:9-14 | The raw score is at most 6 and equals the count of true requirements plus one for length >= 12. |
| PasswordUtils.GetPasswordRequirements | lib/password-utils.ts:40-48 | Definition: the five flags length >= 8, uppercase, lowercase, digit, non-alphanumeric; `RawScoreFromRequirements` ties them to the score. |
| PasswordUtils.SpecialIsAnyNonAlnum | lib/password-utils.ts:46 | "special" holds for any character outside ASCII letters and digits, a single space included. |
| PasswordUtils.LabelTable | lib/password-utils.ts:16-23 | Raw 0-1 is Weak, 2 Fair, 3 Good, 4-5 Strong, and raw 6 falls back to Weak. |
| PasswordUtils.RawScoreMonotone | lib/password-utils.ts:9-14 | Appending characters never lowers the raw score. |
| PasswordUtils.AllCriteriaLabelledWeak | lib/password-utils.ts:33-36 | A password meeting all six criteria is shown with score 5 but labelled Weak in "bg-destructive". |
| PasswordUtils.LabelNotMonotone | lib/password-utils.ts:33-36 | "Abcdefg1" is Strong and "Abcdefg1!xyz" is Weak, so the label is not monotone under appending. |
| PasswordUtils.CorrectedPasswordStrength | lib/password-utils.ts:33-36 | With the capped score used for the lookup, raw >= 4 is Strong in green and raw <= 1 is Weak. |
| PasswordUtils.CorrectedLabelMonotone | lib/password-utils.ts:33-36 | With the capped lookup the label never drops as characters are appended. |
| DbUtils.GetPasswordStrength | lib/db-utils.ts:70-100 | The score counts the six criteria met (special means one of `@$!%*?&`); feedback lists the failed ones in check order; level is weak <= 2, fair 3, good 4, strong 5-6. |
| DbUtils.StrengthTotals | lib/db-utils.ts:75-94 | score <= 6 and score + number of feedback messages == 6. |
| DbUtils.NoFeedbackIffAllMet | lib/db-utils.ts:78-94 | Feedback is empty exactly when the password has length >= 12, a lowercase letter, an uppercase letter, a digit and one of `@$!%*?&`. |
| DbUtils.StrongPasswordScore | lib/db-utils.ts:60-94 | A password `isStrongPassword` accepts scores at least 5, and its only possible feedback is "Longer passwords are more secure". |
| DbUtils.IsStrongPassword | lib/db-utils.ts:60-65 | Definition: at least 8 characters, all letters, digits or `@$!%*?&`, with a lowercase letter, an uppercase letter, a digit and one of `@$!%*?&`; `StrongPasswordScore` and `PolicyAgreement.StrongPasswordPassesPolicy` relate it to the meters and the policy. |
| DbUtils.IsValidUsername | lib/db-utils.ts:51-55 | Definition: 3 to 20 characters, each a letter, digit, '_' or '-'; `ValidationSchemas.UsernameRuleIsValidUsername` and `Validation.SignupUsernameNarrower` compare it with the other username checks. |
| DbUtils.IsValidEmail | lib/db-utils.ts:43-46 | Definition: the email pattern, characterised by `RegexClasses.EmailPatternCharacterized`. |
| DbUtils.StripAngleBrackets | lib/db-utils.ts:137 | The result has no '<' or '>' and is no longer than the input; with `StripOneChar` and `StripAppend` it is the input with exactly the angle brackets removed. |
| DbUtils.StripOneChar | lib/db-utils.ts:137 | A single '<' or '>' is removed and any other single character is kept. |
| DbUtils.StripAppend | lib/db-utils.ts:137 | Stripping a concatenation is the concatenation of the stripped parts, so the kept characters stay in order. |
| DbUtils.StripKeepsCleanText | lib/db-utils.ts:137 | Text without angle brackets is unchanged by the replace. |
| DbUtils.SanitizeInput | lib/db-utils.ts:136-138 | The output has no '<' or '>', its length is min(trimmed length, 255), it is a prefix of the trimmed stripped input, and it does not start with white space. |
| DbUtils.SanitizeKeepsCleanText | lib/db-utils.ts:136-138 | Short, already-trimmed text without angle brackets passes through unchanged. |
| DbUtils.SanitizeIdempotentWhenShort | lib/db-utils.ts:136-138 | When no truncation happens, sanitizing twice equals sanitizing once. |
| DbUtils.SanitizeTwiceTrimsCut | lib/db-utils.ts:136-138 | When the cut at 255 leaves a trailing space, a second sanitize drops it. |
| DbUtils.SanitizeNotIdempotent | lib/db-utils.ts:136-138 | 254 'a's followed by " b" sanitizes to 255 characters, and then to 254. |
| DbUtils.ShouldRateLimit | lib/db-utils.ts:143-152 | limited iff attempts >= maxAttempts; remainingAttempts >= 0, and 0 exactly when limited; when not limited, attempts + remaining == maxAttempts. |
| DbUtils.RateLimitCountsDown | lib/db-utils.ts:143-152 | One more attempt lowers the remaining count by one, down to 0; once limited, the next attempt is limited too; with the defaults, 4 attempts leave 1 and the 5th is limited. |
| DbUtils.LockoutMinutesIgnored | lib/db-utils.ts:143-152 | `lockoutMinutes` has no effect on the result. |
| DbUtils.CalculateExpirationTime | lib/db-utils.ts:113-116 | expiresAt - now == minutes * 60000 ms, and is never before now for minutes >= 0. |
| DbUtils.TokenLifetime | lib/db-utils.ts:113-123 | A token is not expired at its issue instant, nor at its exact expiry instant, and is expired at every later instant. |
| DbUtils.IsTokenExpired | lib/db-utils.ts:121-123 | Definition: expired strictly after the expiry instant; `TokenLifetime` gives its behaviour over a token's life. |
| DbUtils.FormatUserResponse | lib/db-utils.ts:105-108 | The result has every key of the user except "password_hash", with the same values. |
| RegexClasses.EmailPatternCharacterized | lib/db-utils.ts:43-46 | The email pattern holds iff there is no white space, exactly one '@' not first, and a '.' after it that is neither the domain's first nor last character. |
| AuthUtils.ValidatePassword | lib/auth-utils.ts:2-31 | errors lists the failed rules in order: length < 8, no lowercase, no uppercase, no digit, no non-alphanumeric; valid iff errors is empty. |
| AuthUtils.PolicyAccepts | lib/auth-utils.ts:7-30 | No errors iff length >= 8 and all four character classes are present; there are at most 5 errors. |
| AuthUtils.ShortPasswordLengthFirst | lib/auth-utils.ts:7-9 | A password shorter than 8 reports the length message first. |
| AuthUtils.EmailChecksAgree | lib/auth-utils.ts:34-37 | `validateEmail` agrees with `isValidEmail` on every input. |
| AuthUtils.ValidateEmail | lib/auth-utils.ts:34-37 | Definition: the same email pattern; `EmailChecksAgree` proves it equal to `DbUtils.IsValidEmail`. |
| AuthUtils.GenerateOtp | lib/auth-utils.ts:41-45 | The OTP is all digits with decimal value equal to the draw; it has exactly `length` characters when the draw is below 10^length and length >= 1, and never fewer than `length`. |
| AuthUtils.PaddedDecimal | lib/auth-utils.ts:42-44 | Zero-padding the decimal string of n keeps it all digits with value n and length `length` when n < 10^length. |
| AuthUtils.SixDigitOtp | lib/auth-utils.ts:41-45 | With the default length and a draw below 10^6, the OTP is exactly six digits. |
| AuthUtils.ZeroLengthOtp | lib/auth-utils.ts:41-45 | `generateOTP(0)` yields "0", one character. |
| AuthUtils.OtpInjective | lib/auth-utils.ts:41-45 | Distinct draws give distinct OTPs. |
| AuthUtils.ExpiryWindows | lib/auth-utils.ts:48-51 | OTPs expire 600000 ms and reset tokens 3600000 ms after issue; an OTP is still valid at exactly 10 minutes and expired 1 ms later. |
| ValidationSchemas.ValidateField | lib/validation-schemas.ts:82-109 | valid iff no error, and any error is one of the rule's messages. |
| ValidationSchemas.FirstFailureReported | lib/validation-schemas.ts:86-108 | Checks run required, minLength, maxLength, pattern; valid iff none fails, and otherwise the first failure's message is the error. |
| ValidationSchemas.RequiredRejectsOnlyEmpty | lib/validation-schemas.ts:86-95 | `required` rejects only "" with the rule's message; a non-required "" still fails a positive minLength with "Must be at least N characters". |
| ValidationSchemas.OptionalRule | lib/validation-schemas.ts:90-106 | A rule that is neither required nor bounded above accepts exactly the values long enough for its minimum that match its pattern. |
| ValidationSchemas.UsernameRuleIsValidUsername | lib/validation-schemas.ts:6-12 | The signup and profile username rules accept exactly what `isValidUsername` accepts. |
| ValidationSchemas.EmailRuleIsValidEmail | lib/validation-schemas.ts:13-16 | The signup and profile email rules accept exactly what `isValidEmail` accepts. |
| ValidationSchemas.PasswordRuleClasses | lib/validation-schemas.ts:17-21 | The password rules (signup and new_password) accept iff length >= 8 and the first line has a lowercase letter, an uppercase letter and a digit. |
| ValidationSchemas.PasswordRuleNoSpecialNeeded | lib/validation-schemas.ts:64-68 | On single-line values, no special character is needed: "Abcdefg1" is accepted. |
| ValidationSchemas.FullNameRuleLength | lib/validation-schemas.ts:22-26 | Full name is valid iff 2..255 characters, with the exact bound messages. |
| ValidationSchemas.RequiredRules | lib/validation-schemas.ts:29-38 | The login username, login password and current_password rules accept exactly the non-empty values. |
| Validation.PasswordSchemaAccepts | lib/validation.ts:4-13 | Definition: length >= 8, a lowercase letter, an uppercase letter, a digit and a non-alphanumeric character; `PasswordSchemaIsValidatePassword` ties it to `validatePassword`. |
| Validation.SignupSchemaAccepts | lib/validation.ts:15-36 | Definition: the field rules of `signupSchema` and the refine on matching passwords; `SignupUsernameNarrower` and `SignupNeedsConfirmation` state its consequences. |
| Validation.LoginSchemaAccepts | lib/validation.ts:38-41 | Definition: a username of at least 3 characters and a password of at least 8; `SignupCredentialsLogIn` relates it to signup. |
| Validation.ChangePasswordSchemaAccepts | lib/validation.ts:43-56 | Definition: the field rules and both refines; `ChangePasswordAccepted` states what an accepted change guarantees. |
| Validation.OtpSchemaAccepts | lib/validation.ts:62-67 | Definition: exactly 6 characters, all digits; `OtpSchemaAcceptsGenerated` and `OtpForm.FilteredCodeChecks` relate it to the generator and the form. |
| Validation.PasswordSchemaIsValidatePassword | lib/validation.ts:4-13 | `passwordSchema` accepts exactly the passwords `validatePassword` calls valid. |
| Validation.SignupUsernameNarrower | lib/validation.ts:17-24 | Every signup-schema username passes `isValidUsername`, but "ab-c" passes `isValidUsername` and is refused by the schema. |
| Validation.SignupNeedsConfirmation | lib/validation.ts:30-36 | Signup is refused unless password == confirm_password, and an accepted password passes the policy. |
| Validation.ChangePasswordAccepted | lib/validation.ts:43-56 | An accepted change has new != current, confirm == new and a new password that passes the policy. |
| Validation.OtpSchemaAcceptsGenerated | lib/validation.ts:62-67 | Every six-digit generated OTP is accepted by `otpVerificationSchema`. |
| Validation.SignupCredentialsLogIn | lib/validation.ts:38-41 | Credentials accepted at signup are also accepted by `loginSchema`. |
| PolicyAgreement.SpecialClassesNested | lib/db-utils.ts:93 | Every `[@$!%*?&]` character is `[^a-zA-Z0-9]`, but '#' is only the latter. |
| PolicyAgreement.StrongPasswordPassesPolicy | lib/db-utils.ts:60-65 | `isStrongPassword` implies `validatePassword` is valid, but "Abcdefg1#" passes the policy and is not strong. |
| PolicyAgreement.MetersDisagree | lib/password-utils.ts:9-14 | "Abcdefg1" scores 4 on both meters (Strong on one), while "Abcdefg1#" scores 5 on one and 4 on the other. |
| PolicyAgreement.SchemaStricterOnOneLine | lib/validation.ts:4-13 | On single-line values `passwordSchema` implies the password rule, and "Abcdefg1" shows the converse fails. |
| PolicyAgreement.RuleStricterAcrossLines | lib/validation-schemas.ts:17-21 | "a\nBcdefg1" passes `passwordSchema` but fails the rule, whose lookaheads stop at the line break. |
| SessionUtils.GetSessionRemainingTime | lib/session-utils.ts:39-42 | Remaining time is >= exp - now and >= 0, positive exactly when the session is valid, and reaches exp from now when valid. |
| SessionUtils.CreateSessionPayload | lib/session-utils.ts:17-26 | The payload copies id, email and username, has iat == now and exp == now + expiresIn, so max(0, expiresIn) seconds are left. |
| SessionUtils.RefreshSession | lib/session-utils.ts:47-54 | Refreshing keeps the user fields, sets iat == now and exp == now + expiresIn, leaving max(0, expiresIn) seconds. |
| SessionUtils.IsSessionValid | lib/session-utils.ts:31-34 | Definition: valid strictly before the expiry second; `SessionLifetime` and `GetSessionRemainingTime` state its behaviour. |
| SessionUtils.SessionLifetime | lib/session-utils.ts:31-34 | A session with positive lifetime is valid from iat until just before exp, and invalid from exp on. |
| SessionUtils.CreatedAndRefreshedLive | lib/session-utils.ts:17-54 | Created and refreshed sessions are valid at issue and invalid expiresIn seconds later. |
| SessionUtils.RemainingTimeRunsDown | lib/session-utils.ts:39-42 | After `elapsed` seconds the remaining time is max(0, previous - elapsed). |
| SessionUtils.RefreshIdempotent | lib/session-utils.ts:47-54 | Refreshing twice at the same instant equals refreshing once. |
| SessionUtils.RefreshIsRelogin | lib/session-utils.ts:17-54 | Refreshing a created session equals creating it afresh at the refresh time. |
| OtpTimer.JsRemainder | hooks/use-otp-timer.ts:24 | `%` truncates: a non-negative dividend gives 0..d-1, a negative one -(d-1)..0. |
| OtpTimer.TwoDigitsOf | hooks/use-otp-timer.ts:25-27 | A number below 100 pads to two digits with its own value. |
| OtpTimer.FormatSecondsShape | hooks/use-otp-timer.ts:22-28 | For 0 <= t < 6000 the text is "MM:SS" of five characters with MM*60 + SS == t and SS < 60. |
| OtpTimer.FormatSeconds | hooks/use-otp-timer.ts:22-28 | Definition: the two-digit minutes, ':', and the two-digit truncated remainder; `FormatSecondsShape` proves the "MM:SS" reading. |
| OtpTimer.Timer.FormatTime | hooks/use-otp-timer.ts:22-28 | Definition: `FormatSeconds` of the timer's time left. |
| OtpTimer.Timer.constructor | hooks/use-otp-timer.ts:5-7 | A new timer starts at initialSeconds (default 60), not expired. |
| OtpTimer.Timer.Tick | hooks/use-otp-timer.ts:9-20 | With time left, one tick lowers it by exactly 1; with none, it sets isExpired; isExpired implies timeLeft <= 0 and a non-negative start never goes below 0. |
| OtpTimer.Timer.Reset | hooks/use-otp-timer.ts:30-33 | Reset restores initialSeconds and clears isExpired. |
| OtpInput.SyncedSlots | components/auth/otp-input.tsx:24-27 | Sync gives exactly `length` slots: the value's first characters one per slot, then "". |
| OtpInput.JoinOfSlots | components/auth/otp-input.tsx:36-45 | The joined value is as long as the filled slots, and has length `length` iff every slot is filled. |
| OtpInput.SyncAfterJoin | components/auth/otp-input.tsx:24-37 | Feeding the joined value back moves the filled slots to the front in order, and joins to the same value. |
| OtpInput.PadWithEmptySlots | components/auth/otp-input.tsx:78-80 | The loop appends "" until the slot list has `length` entries. |
| OtpInput.OtpBoxes.constructor | components/auth/otp-input.tsx:21 | A new input has `length` empty slots. |
| OtpInput.OtpBoxes.SyncValue | components/auth/otp-input.tsx:24-27 | The slots become `SyncedSlots(value, length)`. |
| OtpInput.OtpBoxes.HandleChange | components/auth/otp-input.tsx:29-46 | Input other than "" or one digit changes nothing; otherwise only slot `index` changes, onChange gets the join, and onComplete fires iff every slot is filled. |
| OtpInput.OtpBoxes.HandleBackspace | components/auth/otp-input.tsx:52-62 | Backspace clears the current slot if filled, else slot index-1 when index > 0; no other slot changes. |
| OtpInput.OtpBoxes.HandlePaste | components/auth/otp-input.tsx:70-89 | Only pasted digits are kept, cut to `length` and padded; a paste without digits changes nothing; onComplete fires iff at least `length` digits were pasted. |
| OtpInput.PastedSlotsAreDigits | components/auth/otp-input.tsx:70-80 | After a paste, every slot is "" or one digit. |
| OtpForm.FilterInput | components/auth/otp-form.tsx:103-106 | The filtered value is all digits, the first min(6, digit count) digits of the input. |
| OtpForm.FilteredCodeChecks | components/auth/otp-form.tsx:27-37 | A filtered code passes `validateForm` iff it has 6 digits, iff `otpVerificationSchema` accepts it; "" gives "OTP is required" and a short code "OTP must be 6 digits". |
| OtpForm.OtpError | components/auth/otp-form.tsx:27-37 | No error iff the code is not blank and has exactly 6 characters; "OTP is required" iff it is blank (empty after trimming). |
| JsText.DigitsOfOneChar | components/auth/otp-form.tsx:104 | The `/\D/g` filter keeps a single digit and drops any other single character. |
| JsText.DigitsOfAppend | components/auth/otp-input.tsx:73 | Filtering a concatenation is the concatenation of the filtered parts, so every digit survives, in order. |
| OtpForm.Form.constructor | components/auth/otp-form.tsx:23-25 | A new form has an empty code, no error and resend enabled. |
| OtpForm.Form.HandleInput | components/auth/otp-form.tsx:103-106 | Typing stores the filtered value and clears the error. |
| OtpForm.Form.ValidateForm | components/auth/otp-form.tsx:27-37 | valid iff the code has no error, which is then stored; nothing else changes. |
| OtpForm.Form.HandleResend | components/auth/otp-form.tsx:69-86 | Resend (only when enabled) sets the countdown to 60 and disables the button. |
| OtpForm.Form.Tick | components/auth/otp-form.tsx:74-82 | Each tick lowers the countdown by 1; at 1 or below it stops at 0 and resend is enabled again. |
| PasswordConfirmation.Confirm | components/profile/password-confirmation-modal.tsx:38-69 | An empty password only sets "Password is required"; success clears the password, resets the count and closes; failure adds exactly 1 to the count; the lockout message always comes with a closed dialog and a count >= 3. |
| PasswordConfirmation.FailureOutcome | components/profile/password-confirmation-modal.tsx:52-64 | A failure below 3 reports 3 - count (1 or 2) attempts remaining and stays open; at 3 or more it locks out and closes. |
| PasswordConfirmation.LockoutIsSticky | components/profile/password-confirmation-modal.tsx:35-58 | After a lockout, the next failure locks out again at once. |
| PasswordConfirmation.ThreeFailuresLockOut | components/profile/password-confirmation-modal.tsx:52-64 | From a fresh dialog three failures read 2 remaining, 1 remaining, then the lockout. |
| PasswordConfirmation.ConfirmationModal.constructor | components/profile/password-confirmation-modal.tsx:32-36 | The dialog starts open with an empty password, no error and count 0. |
| PasswordConfirmation.ConfirmationModal.SetPassword | components/profile/password-confirmation-modal.tsx:88 | Typing changes only the password. |
| PasswordConfirmation.ConfirmationModal.Reopen | components/profile/password-confirmation-modal.tsx:17-35 | The parent sets the `open` prop to true again; the password, error and attempt count kept in `useState` are unchanged. |
| PasswordConfirmation.ConfirmationModal.HandleConfirm | components/profile/password-confirmation-modal.tsx:38-69 | The new state is `Confirm` of the old one, and `onConfirm` receives the password iff it is non-empty. |
| ChangePasswordForm.FormErrorsCharacterized | components/profile/change-password-form.tsx:21-33 | current error iff current is empty; confirm error iff new != confirm; new error iff new is shorter than 8 or equals current; valid iff none of these. |
| ChangePasswordForm.FormErrors | components/profile/change-password-form.tsx:21-33 | Definition: the three successive writes of `validateForm`; `FormErrorsCharacterized` states when each error appears. |
| ChangePasswordForm.NewRequiredNeverShown | components/profile/change-password-form.tsx:25-28 | "New password is required" is never the reported message; an empty new password shows the length or the "different" message. |
| ChangePasswordForm.ClearError | components/profile/change-password-form.tsx:57-63 | Editing a field blanks only that field's shown error. |
| ChangePasswordForm.IntendedNewPasswordError | components/profile/change-password-form.tsx:25-28 | With the first failing rule winning, an empty new password reports "required", with the same verdict as the code. |
| ChangePasswordForm.IntendedOrderSameVerdict | components/profile/change-password-form.tsx:21-33 | The intended order accepts and rejects exactly the same forms with the same number of errors. |
| ChangePasswordForm.Form.constructor | components/profile/change-password-form.tsx:12-19 | The form starts with three empty fields and no errors. |
| ChangePasswordForm.Form.ValidateForm | components/profile/change-password-form.tsx:21-33 | The errors become `FormErrors` of the fields, and valid iff there are none. |
| ChangePasswordForm.Form.HandleChange | components/profile/change-password-form.tsx:57-63 | Sets one field and clears that field's error only. |
| ChangePasswordForm.Form.HandleSubmit | components/profile/change-password-form.tsx:35-55 | Submits iff the form is valid, after which all three fields are "" and success is set; otherwise the fields are kept. |
| ChangePasswordSection.GuardError | components/profile/change-password-section.tsx:25-39 | "All fields are required" iff a field is empty; "do not match" iff all are present and new != confirm; "same as current" only after both pass; no error iff all pass. |
| ChangePasswordSection.Section.constructor | components/profile/change-password-section.tsx:18-23 | The section starts closed with empty fields and no error. |
| ChangePasswordSection.Section.HandleChangePassword | components/profile/change-password-section.tsx:25-71 | A failing guard sets its error and sends nothing; otherwise the request carries only current and new; on ok the fields clear and the section closes, otherwise the fields stay and the error is set. |
| ChangePasswordSection.SentRequestsAreChecked | components/profile/change-password-section.tsx:45-52 | A sent request has non-empty, distinct current and new passwords, confirmed. |
| SignupForm.FormErrorsCharacterized | components/auth/signup-form.tsx:36-50 | name and email errors iff blank after trimming; password error iff shorter than 8, never "Password is required"; confirm error iff mismatch; valid iff none. |
| SignupForm.FormErrors | components/auth/signup-form.tsx:36-50 | Definition: the five checks of `validateForm`, the length rule overwriting "required"; `FormErrorsCharacterized` states when each error appears. |
| SignupForm.Request | components/auth/signup-form.tsx:62-67 | Definition: the trimmed name and email and the untrimmed password sent to sign-up; `RequestOfValidForm` states what a valid form sends. |
| SignupForm.RequestOfValidForm | components/auth/signup-form.tsx:62-67 | A valid form sends a non-empty trimmed name and email and the password verbatim, of length >= 8. |
| SignupForm.MatchHints | components/auth/signup-form.tsx:158-170 | The match and mismatch hints are never both shown, both are hidden iff confirm is empty, and the mismatch hint agrees with the confirm error. |
| SignupForm.Form.constructor | components/auth/signup-form.tsx:27-34 | The form starts empty with no errors and no message. |
| SignupForm.Form.ValidateForm | components/auth/signup-form.tsx:36-50 | The errors become `FormErrors` of the data, and valid iff there are none. |
| SignupForm.Form.HandleSubmit | components/auth/signup-form.tsx:52-67 | A request is made iff the form is valid, and it is `Request` of the data with errors and message cleared. |
| SignupForm.Form.HandleChange | components/auth/signup-form.tsx:121-128 | Sets the name or email and blanks that field's shown error and a shown message. |
| SignupForm.Form.HandlePasswordChange | components/auth/signup-form.tsx:131-141 | Sets the password, blanks its shown error, and blanks the confirm error when the new password equals confirm. |
| SignupForm.Form.HandleConfirmPasswordChange | components/auth/signup-form.tsx:143-152 | Sets confirm and blanks its shown error once it equals the password. |
| LoginForm.FormErrorsCharacterized | components/auth/login-form.tsx:35-42 | Identifier error iff blank after trimming; password error iff empty, untrimmed ("   " is accepted as a password). |
| LoginForm.FormErrors | components/auth/login-form.tsx:35-42 | Definition: the two checks of `validateForm`; `FormErrorsCharacterized` states when each error appears. |
| LoginForm.FormWeakerThanSchema | components/auth/login-form.tsx:35-42 | ("ab", "x") passes the form but not `loginSchema`. |
| LoginForm.Form.constructor | components/auth/login-form.tsx:26-33 | The form starts empty, unchecked, with no errors. |
| LoginForm.Form.ValidateForm | components/auth/login-form.tsx:35-42 | The errors become `FormErrors` of the data, and valid iff there are none. |
| LoginForm.Form.HandleSubmit | components/auth/login-form.tsx:44-68 | A request is made iff the form is valid; it carries the trimmed identifier as email, the password verbatim and `remember` from the checkbox. |
| LoginForm.Form.SetRememberMe | components/auth/login-form.tsx:31 | Only the checkbox state changes. |
| LoginForm.Form.HandleChange | components/auth/login-form.tsx:140-153 | Sets one field, blanks that field's shown error and a shown message. |
| EditProfileForm.FormErrorsCharacterized | components/profile/edit-profile-form.tsx:23-32 | Each of the three errors appears iff its field is blank after trimming; valid iff none. |
| EditProfileForm.FormErrors | components/profile/edit-profile-form.tsx:23-32 | Definition: the three blank-after-trim checks of `validateForm`; `FormErrorsCharacterized` states when each error appears. |
| EditProfileForm.UpdatedUser | components/profile/edit-profile-form.tsx:45-52 | The saved user takes the three form values untrimmed and the new updated_at, and keeps every other field. |
| EditProfileForm.UnchangedFormOnlyTouchesTimestamp | components/profile/edit-profile-form.tsx:45-52 | Saving an unedited form changes only updated_at. |
| EditProfileForm.ClearError | components/profile/edit-profile-form.tsx:62-68 | Editing a field blanks only that field's shown error. |
| EditProfileForm.Form.constructor | components/profile/edit-profile-form.tsx:15-21 | The form starts with the user's name, username and email (or empty without a user), and no errors. |
| EditProfileForm.Form.ValidateForm | components/profile/edit-profile-form.tsx:23-32 | The errors become `FormErrors` of the data, and valid iff there are none. |
| EditProfileForm.Form.HandleSubmit | components/profile/edit-profile-form.tsx:34-60 | Saves iff the form is valid, replacing the user by `UpdatedUser`; otherwise the user is unchanged. |
| EditProfileForm.Form.HandleChange | components/profile/edit-profile-form.tsx:62-68 | Sets one field and blanks only that field's shown error. |

## Left out

- Hashing, random bytes, UUIDs and TOTP secrets in lib/db-utils.ts are library calls with no logic of their own: `hashPassword`, `verifyPassword`, `generateToken`, `hashToken`, `generateUUID` and `generateTOTPSecret`.
- `Math.random()` in `generateOTP` is replaced by the integer it is floored to (`draw`). The fake user of the OTP form is left out.
- The clock (`Date.now()`, `new Date()`) is an explicit `now` / `timestamp` parameter. `setTimeout`/`setInterval` callbacks are explicit `Tick` calls. The 500 ms wait before the resend interval starts is folded into `HandleResend`. The auto-hide of success messages is left out.
- Network and auth-client calls are left out:
  - `authClient.signUp`, the sign-in calls, the Google sign-in and the server-side error mapping after a response;
  - `onConfirm` in the confirmation dialog, which is the `accepted` parameter;
  - the change-password request, which is the `Response` parameter.
- Also left out: toasts, routing, the `isLoading` flags and React rendering.
- In components/auth/otp-input.tsx, the focus moves done with `inputRefs` are left out. This covers the arrow keys and the focus step after typing or backspace.
- Zod's `.email()` format check is a boolean parameter of `Validation.SignupSchemaAccepts`. Zod's error aggregation and messages are left out. `passwordRecoverySchema` is left out: it only checks `.email()`.
- lib/server-actions.ts, lib/email.ts, lib/email-templates.tsx, lib/auth.ts and lib/auth-client.ts are not part of this model.
- The page and display components are not part of this model.
- Strings are sequences of Unicode characters. JavaScript `length` counts UTF-16 code units, so the length bounds differ for characters outside the Basic Multilingual Plane.
- DbUtils.FormatUserResponse: the user is a map from field names to one value type; JavaScript objects with mixed value types are not captured.
- OtpTimer.Timer.Tick: one call is one run of the effect. Several ticks racing within one render are not modelled.
- OtpForm.Form.HandleResend: requires the button to be enabled (`resendTimer` at 0). A second resend while counting would start a second interval in the code, which is not modelled.
- Integers are unbounded. JavaScript numbers are doubles, and precision loss above 2^53 is not modelled.
- JsText.NatToString: does not model that `Number.prototype.toString` switches to exponent notation from 1e21 on, so `generateOTP(length)` with length >= 22 can yield text such as "1.2e+21" in JavaScript, while the model always yields digits.

## Findings

| source | as written | input that shows it | evidently intended | confidence | as-written member | corrected member |
|---|---|---|---|---|---|---|
| lib/password-utils.ts:33-36 | label and colour are read at the uncapped score, and `labels[6]` is undefined, so it falls back to "Weak" | a password of 12+ characters with a lowercase letter, an uppercase letter, a digit and a symbol, e.g. "Abcdefg1!xyz" | read both tables at `Math.min(score, 5)`, so a password meeting all criteria is "Strong" | high, not executed | PasswordUtils.AllCriteriaLabelledWeak | PasswordUtils.CorrectedLabelMonotone |
| components/profile/change-password-form.tsx:25-28 | three successive writes to `new_password` let a later rule overwrite "New password is required", which can never be shown | new password "" with current "x" shows "at least 8 characters"; with current "" it shows "must be different" | the first failing rule's message, so an empty field says "required" | high, not executed | ChangePasswordForm.NewRequiredNeverShown | ChangePasswordForm.IntendedOrderSameVerdict |
