# Contacts page and toast queue, modelled in Dafny

This project models the client-side logic of a small contacts manager's web
front end:

- the contacts page (`next-web/src/app/page.tsx`): the mobile-number
  validator `isValidMobile` (the pattern `^01[0-9]*$`), the filter that strips
  non-digits from the mobile inputs on every keystroke, the four list
  updates (replace all on load, prepend on create, replace by id on update,
  remove by id on delete), the single-slot edit session and the four
  asynchronous handlers with their error and busy-flag handling;
- the toast queue (`next-web/src/app/_components/toast.tsx`): appending a
  toast with its default duration, the rule that decides whether an
  auto-removal timer is scheduled, removal by id, the styling fallback and
  `useToast`'s missing-provider error.

Files:

- `Wrappers.dfy`: `Option` and `Result`.
- `Mobile.dfy`: the validator, written as the automaton of the regular
  expression and proved equal to the rule "01 then only digits", and the
  digit filter with its properties.
- `ContactList.dfy`: the contact record, `ReplaceById` (the `map`),
  `RemoveById` (the `filter`) and lemmas about order, idempotence, absent
  ids and unique ids.
- `ContactsPage.dfy`: class `Page`, which holds the page's eight state
  slots. Each handler is a method that takes the server's outcome as a
  `Reply` parameter and returns the `Request` it sent, or `None` when
  validation stops it first. Three client methods walk through the
  scenarios "create 017001 succeeds", "create 9001 is refused" and
  "update of id 5 fails".
- `Toast.dfy`: class `ToastProvider` and the pure functions it uses.

How the model reads the code:

- A `fetch` becomes a `Reply<T>` with three cases. `Ok(value)` is a
  successful, parsed response. `NotOk` is a response whose `ok` is false;
  the code throws `new Error("Failed to … .")` for it. `Threw(t)` is a
  rejected `fetch` or `json()` that carries what was thrown. The `catch`
  clause shows an `Error`'s own message, and "Unknown error." for anything
  else. So the fixed per-operation message appears only for `NotOk`. A
  network failure shows the message of the error it raised.
- Each handler is one atomic step. Its busy flag (`loading`, `creating` or
  `busyId`) is raised at the start and lowered at the end, as the `finally`
  clause does, so afterwards it is always lowered.
- A refused mobile sets the error message without clearing it first. It
  touches nothing else, not even the busy flags.
- A successful update sets `editingId` to null whichever record is being
  edited.
- Toast ids are parameters. An id drawn fresh is stated as `!HasToast(…)`
  where a lemma needs it.

## Model

| member | source | states |
|---|---|---|
| Mobile.IsValidMobile | next-web/src/app/page.tsx:18-19 | the validator accepts a string exactly when its first two characters are "0","1" and every later character is an ASCII digit |
| Mobile.MobileExamples | next-web/src/app/page.tsx:212-215 | examples of the pattern: "01", "017001" and the input's placeholder "01700000000" pass; "", "0", "1700", "017a" and "9001" fail |
| Mobile.DigitsOnly | next-web/src/app/page.tsx:205-209 | the filtered mobile input holds only characters 0-9 and is no longer than what was typed |
| Mobile.DigitsOnlyAppend | next-web/src/app/page.tsx:208 | the filter distributes over concatenation, so the digits kept stay in their original order |
| Mobile.DigitsOnlyCounts | next-web/src/app/page.tsx:208 | every digit survives as many times as it was typed, and no other character survives |
| Mobile.DigitsOnlyKeepsDigits | next-web/src/app/page.tsx:208 | a string made only of digits passes the filter unchanged |
| Mobile.DigitsOnlyIdempotent | next-web/src/app/page.tsx:289 | filtering twice gives the same result as filtering once |
| Mobile.ValidMobileSurvivesFilter | next-web/src/app/page.tsx:284-293 | a mobile the validator accepts is never altered by the input filter |
| Mobile.FilteredValidIffPrefix | next-web/src/app/page.tsx:202-213 | once the input has been filtered, it is valid exactly when it starts with "01" |
| ContactList.ReplaceById | next-web/src/app/page.tsx:126 | the updated list has the same length; each entry with the target id becomes the returned contact and every other entry stays in its position |
| ContactList.ReplaceByIdAbsent | next-web/src/app/page.tsx:126 | an update for an id that is not in the list leaves the list unchanged |
| ContactList.ReplaceByIdKeepsUnique | next-web/src/app/page.tsx:125-126 | if ids were unique and the server returns the record under its own id, ids stay unique |
| ContactList.RemoveById | next-web/src/app/page.tsx:146 | a contact survives deletion exactly when it was in the list and has a different id; the length drops by the number of entries that had the id |
| ContactList.RemoveByIdAppend | next-web/src/app/page.tsx:146 | deletion distributes over concatenation, so the survivors keep their relative order |
| ContactList.RemoveByIdAbsent | next-web/src/app/page.tsx:146 | deleting an id that is not in the list leaves the list unchanged |
| ContactList.RemoveByIdIdempotent | next-web/src/app/page.tsx:146 | deleting the same id twice gives the same result as deleting it once |
| ContactList.RemoveByIdShrinksByOne | next-web/src/app/page.tsx:146 | with unique ids, the list shrinks by exactly one when the id was present and by none otherwise |
| ContactList.RemoveByIdKeepsUnique | next-web/src/app/page.tsx:146 | deletion keeps ids unique |
| ContactList.PrependKeepsUnique | next-web/src/app/page.tsx:88-89 | prepending a created contact whose id is new keeps ids unique |
| ContactsPage.CatchMessage | next-web/src/app/page.tsx:58-59 | the error shown for a thrown `Error` is its own message; for any other thrown value it is "Unknown error." |
| ContactsPage.Settle | next-web/src/app/page.tsx:53-56 | the `try` reaches the parsed body exactly when the response is ok; a response that is not ok throws an `Error` carrying the operation's fixed message; a rejection passes on what it threw |
| ContactsPage.WithInput | next-web/src/app/page.tsx:187-232 | a keystroke changes only its own field; the mobile field receives the typed text with its non-digits removed, so a digits-only mobile stays digits-only |
| ContactsPage.Page.constructor | next-web/src/app/page.tsx:25-40 | the page starts with an empty list, no error, no busy flags, no edit session and two empty forms |
| ContactsPage.Page.Total | next-web/src/app/page.tsx:42-43 | the dashboard count is the length of the list |
| ContactsPage.Page.FetchContacts | next-web/src/app/page.tsx:46-63 | sends the list request. On success the list is replaced wholesale and the error is cleared. On failure the list is unchanged and the error is "Failed to load contacts." or the thrown message. `loading` always ends false |
| ContactsPage.Page.HandleCreate | next-web/src/app/page.tsx:71-96 | an invalid mobile sets the mobile message, sends nothing and changes nothing else. Otherwise it posts the form. On success the created contact is put at index 0 before the old list, the form is reset and the error stays null. On failure the list and form are unchanged and the error is set. `creating` ends false. Unique ids are kept when the new id is fresh |
| ContactsPage.Page.StartEditing | next-web/src/app/page.tsx:99-106 | opens the edit session on the contact's id with its name, mobile and contact number, replacing any earlier session |
| ContactsPage.Page.CancelEditing | next-web/src/app/page.tsx:316-322 | closes the edit session; the list and the edit form are untouched |
| ContactsPage.Page.ChangeForm | next-web/src/app/page.tsx:190-231 | a keystroke in the create form applies `WithInput` to the form and changes nothing else |
| ContactsPage.Page.ChangeEditForm | next-web/src/app/page.tsx:274-306 | a keystroke in the edit form applies `WithInput` to the edit form and changes nothing else |
| ContactsPage.Page.HandleUpdate | next-web/src/app/page.tsx:109-133 | an invalid edited mobile sets the mobile message, sends nothing and changes nothing else. Otherwise it sends a PATCH with the edit form. On success the record is replaced by id and the edit session is closed. On failure the list and `editingId` are unchanged and the error is set. `busyId` ends null |
| ContactsPage.Page.HandleDelete | next-web/src/app/page.tsx:136-152 | always sends the DELETE. On success exactly the entries with that id are removed and, with unique ids, the count drops by one when the id was present. On failure the list is unchanged and the error is set. `busyId` ends null and unique ids are kept |
| ContactsPage.ScenarioCreateSucceeds | next-web/src/app/page.tsx:71-96 | creating with mobile "017001" posts the typed form, puts the server's contact first, clears the form and leaves no error |
| ContactsPage.ScenarioCreateRefused | next-web/src/app/page.tsx:73-76 | creating with mobile "9001" sends nothing, keeps the list and shows the mobile message |
| ContactsPage.ScenarioUpdateFails | next-web/src/app/page.tsx:109-133 | an update of id 5 answered with a failed status keeps the edit session on id 5 with the typed draft (name "Riyadh") and the list as it was, shows "Failed to update contact." and clears `busyId` |
| Toast.Stored | next-web/src/app/_components/toast.tsx:49-51 | the stored toast carries the new id and the caller's fields. Its duration is the given one when there is one, including 0, and 3500 otherwise |
| Toast.TimerFor | next-web/src/app/_components/toast.tsx:50-54 | an auto-removal is scheduled exactly when the duration is missing or positive. It schedules `removeToast(id)` for the new id with the stored duration as the delay |
| Toast.WithoutToast | next-web/src/app/_components/toast.tsx:43-45 | a toast survives removal exactly when it was in the list and has a different id |
| Toast.WithoutToastAppend | next-web/src/app/_components/toast.tsx:44 | removal distributes over concatenation, so the remaining toasts keep their relative order |
| Toast.WithoutToastAbsent | next-web/src/app/_components/toast.tsx:44 | removing an id that is not in the list leaves the list unchanged |
| Toast.WithoutToastIdempotent | next-web/src/app/_components/toast.tsx:44 | removing the same id twice gives the same result as removing it once |
| Toast.AddThenExpire | next-web/src/app/_components/toast.tsx:51-53 | when a toast added under a fresh id has its timer fire, the list returns to what it was before |
| Toast.VariantStyle | next-web/src/app/_components/toast.tsx:27-31 | each of the three variants has its own style string, so a style determines its variant |
| Toast.Tone | next-web/src/app/_components/toast.tsx:68-69 | a toast without a variant is styled as "info"; any other toast is styled by its own variant |
| Toast.UseToast | next-web/src/app/_components/toast.tsx:101-107 | without a provider value the hook fails with "useToast must be used within a ToastProvider."; with one it returns that value |
| Toast.ToastProvider.constructor | next-web/src/app/_components/toast.tsx:41 | the provider starts with no toasts |
| Toast.ToastProvider.RemoveToast | next-web/src/app/_components/toast.tsx:43-45 | the list becomes `WithoutToast` of the old list |
| Toast.ToastProvider.AddToast | next-web/src/app/_components/toast.tsx:47-57 | exactly one stored toast is appended at the end, the existing toasts are unchanged, and the timer returned is the one `TimerFor` decides |
| Toast.ScenarioDefaultToastExpires | next-web/src/app/_components/toast.tsx:47-57 | a toast added with a fresh id and no duration schedules a 3500 ms removal, and when it runs the provider is back to its previous list |

## Left out

- HTTP, JSON and the base URL (`apiBaseUrl`, `fetch`, `response.ok`, `response.json()`): each exchange is a `Reply` parameter, and the request is returned as a `Request` value.
- Asynchronous interleaving: handlers are modelled as atomic steps. Overlapping requests that race on the single `busyId` or `loading` flag, and stale responses, are not modelled.
- React machinery: `useState`, `useEffect`, `useMemo`, `useCallback`, the context object and all rendering. The first-render load is the client calling `FetchContacts` after the constructor. The browser's `required` and `pattern` attributes are enforced by the browser, not by this code.
- `event.preventDefault()` in `handleCreate`: a browser side effect with no state.
- Toast side effects: the timer is returned as a value and never fires. `crypto.randomUUID`, `Date.now` and `Math.random` in `createToastId` become an id parameter.
- The conversion `window.setTimeout` applies to its delay is not modelled. A delay of 2^31 ms or more wraps or fires at once in a browser; the model only records the delay passed.
- Toast durations are integers. JavaScript numbers (fractions, NaN) are not modelled.
- Strings are Dafny character sequences. UTF-16 code units and surrogate pairs are not modelled, which does not affect the ASCII digit class `[0-9]`.
- The response body is not checked against the `Contact` shape. The model accepts whatever the server returns, including duplicate ids; uniqueness is proved only under the stated assumptions.
- The NestJS backend (controller, module wiring, the Prisma pass-through service and its lifecycle), the confirm dialog, the layout and the static pages are not part of this model. They are framework wiring, markup or DOM event handling.
