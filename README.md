# RSVP page interactivity, modelled in Dafny

A model of the client-side logic of a static event page (`index.js`). The page has:

- **Theme controller.** A dark/light mode shown by two body classes. A toggle button mirrors the mode through `aria-pressed` and its text. The preference is kept under the local-storage key `theme`.
- **RSVP form.** Four fields (name, email, guests, favourite lift). Each has a validator, an inline error display and an error message. Submitting checks every field. If all pass, one line is appended to the RSVP list, the confirmation modal is shown and the inputs are reset.
- **Confirmation modal.** Shows a personalised name and message. It dismisses itself through two chained timers: an auto-hide timer (3500 ms) whose handle is remembered in `modalTimeoutId`, and a finish timer (300 ms) that adds the `hidden` class.

Layout:

- `validation.dfy` (module `Validation`): ECMAScript white space, `trim`, and the four validators. The email validator is written by hand over characters. It is proved equal to what the anchored pattern `^[^\s@]+@[^\s@]+\.[^\s@]+$` matches.
- `decimal.dfy` (module `Decimal`): how a whole number is interpolated into a template string, proved to read back as the same number.
- `theme.dfy` (module `Theme`): class `ThemeController`.
- `modal.dfy` (module `Modal`): the lift display-name table, the message template and class `ModalController`.
  - Timers are explicit pending events: `setTimeout` appends a `Timer(handle, kind)`, and `clearTimeout` removes the timer with that handle.
  - The event loop firing a timer is `Fire(k)`, which may pick any pending timer.
- `rsvp.dfy` (module `Rsvp`): the list-line template and class `RsvpForm`. Its submit handler validates the fields in a loop and drives the modal.
- `wrappers.dfy` (module `Wrappers`): `Option`.

Behaviour recorded as the code has it:

- **The 300 ms timer is not tracked.** `showModal` clears only the auto-hide timer. Say the modal is shown again after an auto-hide ran but before that hide's 300 ms timer fired. The stale timer then adds `hidden` to an overlay that is `active` and has `aria-hidden="false"`. `Modal.StaleFinishHidesReshownModal` exhibits this.
- **Two toggles restore the mode and the button, not always the stored string.** Storage is written only in canonical form (`"dark"`/`"light"`). A page that started from a missing or unrecognised preference holds `"dark"` after two toggles. `Theme.ToggleTwice` states exactly this.

## Model

| member | source | states |
|---|---|---|
| Validation.Trim | index.js:48 | `trim` is a window of the input that starts after the leading white space and contains every non-space character; ends are non-space; empty exactly when the input is all white space |
| Validation.TrimIdempotent | index.js:48 | trimming an already trimmed value changes nothing |
| Validation.ValidName | index.js:48 | the name validator: the trimmed value has at least two characters; `NameValidIff` proves this means two non-space characters |
| Validation.NameValidIff | index.js:48 | the name validator accepts exactly the strings holding two non-space characters (trimmed length at least 2) |
| Validation.ValidEmail | index.js:49 | the email validator: no white space, exactly one `@` with a non-empty part before it, and a `.` strictly inside the domain; `EmailMatchesPattern` proves this is the pattern's language |
| Validation.EmailMatchesPattern | index.js:49 | the hand-written email check (no white space, exactly one `@`, non-empty local part, a `.` strictly inside the domain) accepts exactly the strings the anchored email pattern matches |
| Validation.EmailToPattern | index.js:49 | every accepted address splits as `atom@atom.atom` with atoms free of white space and `@` |
| Validation.PatternToEmail | index.js:49 | every `atom@atom.atom` string is accepted |
| Validation.EmailExamples | index.js:49 | `a@b.com` is accepted; `a@b`, `a @b.com`, `a@b@c.com`, `a@b.` and `a@.com` are refused |
| Validation.ValidGuests | index.js:50 | the coerced value passes exactly when it is a number of at least 1; NaN never passes |
| Validation.GuestsExamples | index.js:50 | 1 and 12 guests pass; 0, -2 and NaN are refused |
| Validation.GuestsUpwardClosed | index.js:50 | any count above an accepted count is accepted |
| Validation.ValidLift | index.js:51 | the lift validator: the trimmed value is not empty; `LiftValidIff` proves this means one non-space character |
| Validation.LiftValidIff | index.js:51 | the lift validator accepts exactly the strings holding a non-space character |
| Validation.Message | index.js:48-51 | the four error messages, one per field in table order |
| Validation.MessagesDistinct | index.js:48-51 | two fields show the same message exactly when they are the same field |
| Validation.AcceptedIff | index.js:47-52 | a form is accepted exactly when each of the four fields, in order, passes its own validator |
| Validation.AcceptedTrims | index.js:119-120 | for an accepted form the trimmed name is non-empty and the email has nothing to trim |
| Decimal.DecimalString | index.js:124 | the interpolated count is a non-empty digit string with no leading zero |
| Decimal.DecimalRoundTrip | index.js:121-124 | reading the interpolated digits back gives the guest count |
| Decimal.DecimalInjective | index.js:124 | different counts give different texts |
| Theme.StartsDark | index.js:7-16 | a page with no stored preference starts dark; one with exactly `"light"` stored starts light |
| Theme.PressedAttr | index.js:33-34 | `aria-pressed` is `"true"` or `"false"`, and `"true"` exactly in dark mode |
| Theme.ButtonLabel | index.js:33-35 | the button text is "Dark Mode: " followed by the state, which is "ON" exactly in dark mode |
| Theme.ThemeValue | index.js:23-28 | what a toggle stores is always `"dark"` or `"light"` |
| Theme.PreferenceRoundTrip | index.js:7-28 | the value a toggle stores makes the next page load start in the mode it stored |
| Theme.ThemeController.constructor | index.js:7-16 | start-up leaves storage as it was and shows dark mode unless the stored value is exactly `"light"`; exactly one body class; the button reads `aria-pressed="true"`/"Dark Mode: ON" or `"false"`/"Dark Mode: OFF" to match |
| Theme.ThemeController.Toggle | index.js:18-36 | a click flips the mode on screen, stores it, relabels the button to match, and keeps the mode on screen equal to what a reload would show |
| Theme.ToggleTwice | index.js:18-36 | two clicks restore the mode and the button; storage then holds the canonical name of the original mode, which equals the original value only when that was canonical |
| Modal.DisplayName | index.js:67 | the greeting name is never empty, and is the given name whenever that is non-empty |
| Modal.LiftLabel | index.js:69-73 | the label is one of "Deadlift", "Bench Press", "Weighted Pull Up" or "lifting" |
| Modal.LiftLabelFallback | index.js:69-73 | the fallback label "lifting" is shown exactly for choices outside `deadlift`/`bench-press`/`weighted-pullup` |
| Modal.ModalMessage | index.js:75 | the message template for a count and a label; `MessageShowsCountAndLabel` and `MessageInjective` state what it shows |
| Modal.MessageShowsCountAndLabel | index.js:75 | the message contains the lift label and starts with the guest count's digits |
| Modal.MessageInjective | index.js:75 | the message determines both the guest count and the lift label |
| Modal.Cleared | index.js:78-80 | the `!== null` guard then `clearTimeout`: a null handle clears nothing; otherwise exactly the timer with that handle is removed, every other pending timer stays and handles stay ascending |
| Modal.Without | index.js:78-80 | `clearTimeout` removes exactly the timer with the given handle, keeps every other pending timer and keeps their handles ascending |
| Modal.SingleAutoHide | index.js:63-89 | when every pending auto-hide timer carries the tracked handle, at most one auto-hide timer is pending |
| Modal.ReshowTimers | index.js:77-89 | clearing the tracked handle and scheduling a new auto-hide leaves exactly one auto-hide pending, the new one |
| Modal.ModalController.constructor | index.js:63 | `modalTimeoutId` starts null with no timer pending; the overlay starts hidden, inactive and `aria-hidden="true"` as the markup has it |
| Modal.ModalController.SetTimeout | index.js:89-95 | `setTimeout` returns the counter as its handle, which lies above every pending handle, advances the counter by one and appends exactly one pending timer of the given kind |
| Modal.ModalController.Show | index.js:65-90 | showModal sets the name (or "Lifter") and the message, clears the tracked auto-hide, leaves the overlay visible, active and `aria-hidden="false"`, and tracks one new auto-hide; every pending finish timer stays pending |
| Modal.ModalController.Hide | index.js:92-98 | hideModal removes `active`, sets `aria-hidden="true"`, leaves `hidden` alone and schedules an untracked finish timer |
| Modal.ModalController.Fire | index.js:89-97 | a fired auto-hide runs hideModal; a fired finish timer adds `hidden` whatever the overlay shows; the fired timer leaves the pending list |
| Modal.ReshowLeavesOneAutoHide | index.js:77-89 | after two shows in a row the only pending timer is the second show's auto-hide, and the modal is visible |
| Modal.StaleFinishHidesReshownModal | index.js:92-97 | a finish timer left from an earlier hide hides a re-shown modal that is still active and announced as visible |
| Rsvp.EntryLine | index.js:124 | the list-line template for a name, email, count and lift; `EntryLineShows` states where each part sits |
| Rsvp.Entry | index.js:119-124 | the line an accepted submission adds starts with the trimmed name, which is never empty, and ends with the lift choice |
| Rsvp.EntryLineShows | index.js:124 | a list line starts with the name, holds the email and the count's digits at their places and ends with the lift choice |
| Rsvp.RsvpForm.constructor | index.js:39-51 | the form starts with no field marked invalid, every error slot empty and an empty RSVP list, as the markup has it |
| Rsvp.RsvpForm.ShowError | index.js:135-140 | showError marks just that field invalid and puts the message in its slot |
| Rsvp.RsvpForm.ClearError | index.js:142-147 | clearError removes just that field's invalid mark and empties its slot |
| Rsvp.RsvpForm.Input | index.js:54-57 | an input or change event on one field, which changes only that field's value, clears that field's error display without re-validating |
| Rsvp.RsvpForm.ValidateAll | index.js:103-112 | every field is checked with no short-circuit; afterwards each field is marked invalid and shows its message exactly when its validator failed, and the result is true exactly when all pass |
| Rsvp.RsvpForm.Submit | index.js:100-133 | a rejected form leaves list, inputs and modal unchanged; an accepted form appends one line (trimmed name, trimmed email, count, lift) after the earlier ones, shows the modal for the trimmed name with a single tracked auto-hide, and resets the inputs with guests 1 |

## Left out

- Scroll reveal (index.js:150-174) is not modelled. It wraps the browser's viewport-intersection callback, and its only logic is "in view iff intersecting", with a fallback that marks every section.
- `Number(v)` coercion is not modelled as parsing. The guests input is the already-coerced value, a whole number or NaN (`Validation.Quantity`). Parsing fractional, exponent and `Infinity` forms is left out. Of those, only fractional values such as `"1.5"` and `Infinity` fall outside what `Quantity` can hold: `Number("1e3")` is the whole number 1000. `Number("Infinity")` passes `>= 1`, so the source would list "Infinity guest(s)"; the model cannot represent that value.
- Decimal.DecimalString: JavaScript writes counts of 10^21 and above in exponent form and loses precision above 2^53. The model renders every whole number in full.
- Validation.ValidName: JavaScript's `length` counts UTF-16 code units, while a Dafny `string` counts code points. A name of one character outside the Basic Multilingual Plane passes in the browser and fails in the model.
- Modal.LiftLabel: the source looks the choice up in an object literal, so inherited keys such as `toString` also find a (non-string) value. The model treats the table as its three own keys.
- Time is not modelled. The 3500 ms and 300 ms delays are left out, and `Fire` may pick any pending timer. The model therefore allows orders that real timing rules out. The forced reflow before adding `active` is a rendering effect and is left out.
- `Modal.ModalController.Show` takes the count as a natural number: its only caller passes a count that has passed the guests validator.
- DOM details are left out:
  - every field is assumed to have its `.error-text` slot, so the missing-slot branch is not modelled;
  - `preventDefault` is left out;
  - `el.value || ''` is the value itself, because input values are never null;
  - the class `invalid` and `aria-invalid` are one flag, because they always change together.
- The markup's default input values are not part of this model. `form.reset()` is taken to empty the name, email and lift inputs; the guests input is then set to 1 as the source does.
- The initial page state comes from the markup, which is not part of this model. The overlay is taken to start with class `hidden`, without `active`, and with `aria-hidden="true"`. The RSVP list is taken to start empty, with no field marked invalid.
- Local storage is one optional string. Storage that is unavailable or throws is not modelled. Writes to the `theme` key by other pages of the same origin are not modelled.
