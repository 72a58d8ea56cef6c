# Oasis Fit page script — field validation, simulated submission, navigation

A Dafny model of the behavioural core of `assets/js/script.js`, the script
behind the Oasis Fit gym landing page. The model has three parts.

- **Field validation** (`validation.dfy`). `validateField` accepts or rejects
  a form control when it loses focus. A required control fails when its value
  trims to nothing. An email control with a non-empty value fails unless the
  value matches `/^[^\s@]+@[^\s@]+\.[^\s@]+$/`. The outcome is recorded
  in the control's class list as `is-valid` or `is-invalid`.
  - The decision is a pure predicate, `FieldAccepts`. It is proved equal to a
    reference reading: "a required value holds a non-whitespace character"
    and "a non-empty email value matches the regular expression".
  - The regular expression's own meaning is `MatchesEmailPattern`: some
    split into three `[^\s@]+` runs around a literal `@` and a literal `.`.
  - `FormField.Validate` updates the class list in place.
- **Simulated submission** (`submission.dfy`). `handleFormSubmit` disables
  the submit button, relabels it `Sending...` and shows a processing message
  in `#formMsg`, creating that element when the form has none. A timer of
  `CONFIG.formTimeout` (2000 ms) stands in for the network. When it fires, a
  random draw above 0.1 leads to `showFormSuccess`; otherwise it leads to
  `showFormError`.
  - Success schedules a reset of the form and the button after 1000 ms, and
    hides the message after 5000 ms.
  - Failure gives the button back at once and keeps the form's values.
  - The button and the message element are classes whose fields the methods
    overwrite. The timers sit in a queue on a virtual clock.
  - The invariant `BookingForm.Valid` holds across every step:
    - at most one submission holds the button;
    - the button is disabled exactly while one does;
    - while it is disabled it reads `Sending...`;
    - otherwise it shows its original label.
- **Navigation** (`navigation.dfy`).
  - The scroll listener keeps at most one handler pending. On a virtual
    clock the handler runs 10 ms after the event that scheduled it, and two
    runs are at least 10 ms apart.
  - The handler toggles the navbar's `scrolled` class exactly when
    `scrollY > 50`.
  - The mobile toggler flips `aria-expanded`.
  - An anchor click on `#…` (but not on the bare `#`) is intercepted and
    scrolls its target to 80 px below the top of the viewport. The bare `#`
    is let through to the browser, which scrolls to the top of the page.

`wrappers.dfy` holds the `Option` type used for absent attributes and the
missing `#formMsg`.

Behaviour of the code worth knowing:

- **Scroll handler.** The scroll listener runs the handler once, 10 ms after
  the first event of a burst, and ignores the later events of the burst. The
  handler reads the scroll position when it runs, so it judges the last
  position of the burst (`ScrollBurst`).
- **Email pattern.** The regular expression admits several dots, and dots
  inside the parts (`a.b@c.d.e`). The format is checked only when the value
  is non-empty, and the value is not trimmed first.
- **Validation on submit.** The submit handler does not call `validateField`.
  Only the blur listener does.
- **Stale hide timer.** Timers are never cancelled. The hide timer of an
  earlier success also hides the message of a later submission
  (`StaleHideAfterResubmit`).
- **Failed check keeps `is-valid`.** A failed check adds `is-invalid` but does
  not remove an earlier `is-valid` (`RevalidateAfterEdit`).

## Model

| member | source | states |
|---|---|---|
| Validation.IsWhitespace | assets/js/script.js:211-217 | the one whitespace set shared by `trim()` and `\s` (ECMAScript WhiteSpace and LineTerminator); no printable ASCII character is in it |
| Validation.Trim | assets/js/script.js:211 | `value.trim()`: never longer than the value, and a non-empty result neither starts nor ends with whitespace; its full meaning is `TrimSpec` |
| Validation.TrimStart | assets/js/script.js:211 | the result is a suffix of the value, everything dropped is whitespace, and it does not start with whitespace |
| Validation.TrimEnd | assets/js/script.js:211 | the result is a prefix of the value, everything dropped is whitespace, and it does not end with whitespace |
| Validation.TrimSpec | assets/js/script.js:211 | `trim()` returns a contiguous slice with only whitespace cut on either side, and neither end of the slice is whitespace |
| Validation.TrimEmptyIffAllWhitespace | assets/js/script.js:211 | `!value.trim()` holds exactly when every character of the value is whitespace |
| Validation.IsEmailAddress | assets/js/script.js:217-218 | the executable test of the email pattern; an accepted value has at least five characters and does not start with `@`; `EmailStructureMatchesPattern` proves it equal to the pattern |
| Validation.EmailStructureMatchesPattern | assets/js/script.js:217-218 | the structural test (no whitespace, exactly one `@` with text before it, a `.` with text on both sides in the domain) accepts exactly the strings the regular expression matches |
| Validation.EmailExamples | assets/js/script.js:217-218 | `a@b.c` and `user@example.com` are accepted; `a@b` and `plaintext` are rejected |
| Validation.PatternFromParts | assets/js/script.js:217 | three non-empty `[^\s@]` runs joined by `@` and `.` match the pattern |
| Validation.FieldAccepts | assets/js/script.js:211-222 | the decision of `validateField`: a field neither required nor of type email always passes, and an empty value passes exactly when the field is not required; its full meaning is `FieldAcceptsMeaning` |
| Validation.FieldAcceptsMeaning | assets/js/script.js:211-222 | a field passes iff (required ⇒ some non-whitespace character) and (email with a non-empty value ⇒ the value matches the regular expression) |
| Validation.RequiredFieldNeedsNonWhitespace | assets/js/script.js:211-214 | a required plain field passes exactly when its value has a non-whitespace character |
| Validation.EmailFieldExamples | assets/js/script.js:211-221 | an optional empty email field passes; a required whitespace-only one fails; `user@example.com` passes; `a@b` fails |
| Validation.ValidatedClasses | assets/js/script.js:211-226 | a pass adds `is-valid` and removes `is-invalid`; a failure adds `is-invalid` and keeps `is-valid` as it was; no other class changes |
| Validation.FormField.Validate | assets/js/script.js:210-227 | returns the decision and leaves the class list as `ValidatedClasses` of the old one |
| Validation.RevalidateAfterEdit | assets/js/script.js:210-227 | two blurs in a row: a later pass leaves exactly `is-valid`; a pass then a failure leaves both classes; two failures leave only `is-invalid` |
| Submission.RemoveAt | assets/js/script.js:158-166 | removing the timer that fired keeps the others in scheduling order |
| Submission.InFlightAppend | assets/js/script.js:158 | the count of button-holding timers adds up over a concatenated queue |
| Submission.InFlightRemoveAt | assets/js/script.js:177-187 | firing a timer lowers the count of button-holding timers by one exactly when that timer held the button |
| Submission.BookingForm.Valid | assets/js/script.js:142-199 | the invariant of the submission: at most one queued callback holds the button; the button is disabled exactly while one does and then reads `Sending...` with class `disabled`; otherwise it shows its idle label; every such callback carries that label; no timer is overdue. `Submit`, `RunResolve`, `RunRestore`, `RunHide` and `Wait` each preserve it |
| Submission.BookingForm.CreateMessageContainer | assets/js/script.js:201-208 | a fresh `#formMsg` with role `status` and `aria-live="polite"` becomes the form's message element |
| Submission.BookingForm.Submit | assets/js/script.js:142-166 | preserves `Valid`; default prevented; button disabled, `Sending...`, class `disabled` added; message is `alert alert-info` / processing / shown, created if missing; one resolve timer carrying the old label is queued at `now + 2000` |
| Submission.BookingForm.ShowFormSuccess | assets/js/script.js:169-188 | success class and markup; a restore timer at +1000 ms and a hide timer at +5000 ms are queued |
| Submission.BookingForm.ShowFormError | assets/js/script.js:190-199 | error class and markup; the button is enabled again with its original label and without `disabled` |
| Submission.BookingForm.ResetAndRestore | assets/js/script.js:177-182 | the form's values return to their defaults and the button is given back |
| Submission.BookingForm.RunResolve | assets/js/script.js:157-166 | preserves `Valid`; a draw above 0.1 leads to the success state with the button still held and the two follow-up timers queued; otherwise the error state with the button given back and nothing queued |
| Submission.BookingForm.RunRestore | assets/js/script.js:177-182 | preserves `Valid`; values reset and the button given back with the label it had before the submission |
| Submission.BookingForm.RunHide | assets/js/script.js:185-187 | preserves `Valid`; the message is hidden and nothing else about it changes |
| Submission.SuccessfulSubmission | assets/js/script.js:142-188 | a successful submission: `Sending...`, still disabled at success, label restored and form reset at 3000 ms, message hidden at 7000 ms, the created container has role `status` |
| Submission.FailedSubmission | assets/js/script.js:142-199 | a failed submission: at 2000 ms the error shows, the button is enabled with its label, values are kept, no timer is left |
| Submission.StaleHideAfterResubmit | assets/js/script.js:177-187 | after a success, a resubmission that fails at 6000 ms has its error message hidden at 7000 ms by the earlier hide timer |
| Navigation.ToggleClass | assets/js/script.js:98 | after `classList.toggle(name, force)` the class is present exactly when `force` holds, and no other class changes |
| Navigation.FlippedExpanded | assets/js/script.js:76-79 | the new attribute is `"true"` or `"false"`, and it is `"false"` exactly when the old one was the string `"true"` |
| Navigation.InterceptsAnchor | assets/js/script.js:83-89 | a click is intercepted exactly when the href starts with `#` and has at least one more character |
| Navigation.ScrollTarget | assets/js/script.js:374-377 | the offset `rect.top + pageYOffset - 80`, stated as its distance from the element's document position; the promise about the page, that the element ends 80 px below the viewport top, is `ClickAnchor`'s |
| Navigation.Navigation.Valid | assets/js/script.js:63-71 | the invariant of the scroll debounce: a handler is pending exactly when `scrollTimeout` is set, so at most one is; a pending handler is not yet overdue and is due at least 10 ms after the previous run. `OnScroll`, `Tick` and `RunScrollHandler` each preserve it |
| Navigation.Navigation.OnScroll | assets/js/script.js:64-71 | a scroll event schedules the handler 10 ms ahead only when none is pending; otherwise the pending timer and its due time are kept |
| Navigation.Navigation.RunScrollHandler | assets/js/script.js:66-98 | runs only when due; with a navbar, `scrolled` is present exactly when `scrollY > 50` and no other class changes; the pending flag is cleared; this run is at least 10 ms after the previous one |
| Navigation.Navigation.ClickToggler | assets/js/script.js:76-79 | the attribute becomes `FlippedExpanded` of its old value |
| Navigation.Navigation.ClickAnchor | assets/js/script.js:83-91 | for an anchor whose href starts with `#`: the default is prevented exactly when the href is not the bare `#`; a found target ends 80 px below the viewport top; an intercepted click on a missing target leaves the page where it is; the bare `#` goes to the top of the page |
| Navigation.ScrollBurst | assets/js/script.js:63-71 | three scroll events within 10 ms schedule one handler, which runs at 10 ms and judges the last position; afterwards nothing is pending |
| Navigation.ScrollAfterRun | assets/js/script.js:63-71 | a scroll event right after a run schedules the next run a full 10 ms later |
| Navigation.TogglerClickedTwice | assets/js/script.js:76-79 | two clicks give opposite values, the first being the negation of "expanded" |
| Navigation.AnchorExamples | assets/js/script.js:83-89 | `#section2` at 1000 px from a page scrolled by 300 px lands at 920; the bare `#` is not intercepted and the page goes to the top |

## Left out

- The loader, carousels, scroll animations, the pulsing button, fade-in and
  image observers, the skip link, keyboard-focus styling, image
  optimisation, lazy-image checks, and the booking date preset. They are
  outside the modelled core, and the date preset needs the clock and
  `toISOString`.
- The global error logger and the performance log. Both are console output.
- Pixel positions are integers here; the browser reports floating-point
  values. `scrollTo`'s smooth animation and its clamping to the document
  height are not modelled. The model sets the final offset at once.
- An href that is not a valid selector makes `querySelector` throw. The
  model treats it as a selector that finds nothing.
- Class lists are sets: the order of a `DOMTokenList` is not modelled.
- Strings are sequences of code points, not UTF-16 code units. An astral
  character is therefore one element where JavaScript counts two. Neither
  `trim()` nor `[^\s@]` distinguishes the two readings.
- `Math.random()` is a parameter of `RunResolve`. The 90 % probability
  itself is not modelled, only the threshold.
- Submission.BookingForm.Submit: requires the button to be enabled. This
  rests on the browser, which does not submit through a disabled submit
  button; the handler itself does not check.
- Submission.BookingForm.ResetAndRestore: `form.reset()` is modelled as
  restoring each control's default value. Reset events and the default state
  of checkboxes and selects are not modelled.
- Navigation.Navigation.ClickAnchor: the target's position comes from a
  fixed map from selector to document offset. Layout changes are not
  modelled. Anchors whose href does not start with `#` carry no handler and
  are followed by the browser, so they are not modelled. The scroll events
  the jump itself fires are not delivered to `OnScroll` automatically.
- Navigation.Navigation.RunScrollHandler: the lazy-image check that the
  handler also runs is not modelled.
- The submit listener finds the button with
  `querySelector('button[type="submit"]')` and ignores forms without an id
  or without such a button. The model starts from a form that has both.
- The event loop itself is not modelled: the caller picks which timer fires,
  under the precondition that it is the next one due.
- The form and the navigation each keep their own virtual clock. How their
  timers interleave with each other is not modelled.
