# Portfolio contact relay, contact form and project filter

A Dafny model of the three pieces of logic in a personal portfolio site:

- **The contact relay** (`supabase/functions/send-email/index.ts`). One HTTP request becomes exactly one response and at most one mail handed to the mail transport. The steps run in a fixed order with early exits:
  1. a CORS preflight (`OPTIONS`) gets 200 with its own three CORS headers and the body `OK`;
  2. a body that does not decode as JSON gets 400 `{error: 'Invalid or missing JSON'}`;
  3. a decoded body, read as `data || {}`, with any of `name`, `email`, `subject`, `message` falsy gets 400 `{error: 'Missing fields'}`;
  4. otherwise `mailOptions` is composed and sent once, giving 200 `{success: true}` or 500 `{error: message || 'Unknown error'}`.

  Composing `mailOptions` sits outside the handler's `try`. When `${name}`, `${email}` or `${message}` throws, nothing is sent and the error escapes to `serve`, whose default handler answers a bare 500 `Internal Server Error` without CORS headers. That happens for an object with its own `toString` member, or an array holding one.

  `Relay.Handle` is the whole handler as a total function of the request, the operator's mailbox and the transport's outcome. `Relay.RelayFunction.Serve` is the same handler as a method that appends to a log of attempted sends. The decoded body is a full JSON value. JavaScript truthiness (`null`, `false`, `0`, `""`) and the `data || {}` fallback are modelled as the code has them. So is template-literal stringification of decoded values: arrays join with `,`, objects print as `[object Object]`, and an own `toString` member makes the conversion throw.
- **The contact form** (`src/sections/Contact.tsx`). `Contact.ContactForm` is a class holding:
  - the four fields;
  - the error map;
  - the status (idle / submitting / success / error);
  - a count of fetches in flight and a count of 5-second timers not yet fired;
  - the log of bodies posted.

  Validation uses:
  - JavaScript's whitespace class and `trim` (`Js.Trim`, `Js.IsBlank`);
  - the email regex `^\S+@\S+\.\S+$`, written as a test on positions (`Js.IsEmailShaped`) and proved equal to the regex read literally as three `\S+` runs (`Js.MatchesEmailPattern`).

  `Contact.AcceptedFormIsRelayed` links the two components: whatever the form accepts and posts, the relay never answers with 400.
- **The project filter** (`src/sections/Projects.tsx`):
  - `Projects.Visible` is `filteredProjects`, with the `'all'` shortcut;
  - `Projects.WithTag` is `Array.filter` with `includes`;
  - the `activeFilter` / `selectedProject` state is a value updated by clicks (`Projects.Step`, `Projects.Run`).

The timer callback in the form sets the status to idle without looking at it. So a timer left over from an earlier submission can make the status idle while a later request is still in flight, which re-enables the button. The model keeps this: `ResetTimerFires` sets `Idle` unconditionally, and `Valid()` only promises that `Submitting` implies a request in flight.

The sender header `"<name>" <operator>` does not escape quotes in the name. `Relay.SenderHeaderRoundTrip` shows that, read from the last `<`, the mailbox is still the operator's and the display name is the submitted name verbatim, for any name. How a mail library parses a header whose name holds `"` or `<` is outside this model.

Two details of the code:
- The preflight response's body is the text `OK`.
- The relay never checks the email's shape; only the form does.

## Model

| member | source | states |
|---|---|---|
| Relay.Handle | supabase/functions/send-email/index.ts:4-80 | OPTIONS always gets 200 with the preflight headers and body `OK`, and nothing is sent. An unparsable body gets 400 "Invalid or missing JSON". A parsed body lacking a truthy field gets 400 "Missing fields". Composing the mail throws exactly when the answer is `serve`'s bare 500, and then nothing is sent. Every other non-OPTIONS response carries `Allow-Origin: *` and `Allow-Headers: *`. A mail is attempted iff the method is not OPTIONS, the body parsed, all four fields are present and composing does not throw; the response is then `Acknowledge`'s. The status is always 200, 400 or 500. |
| Relay.Interpolate | supabase/functions/send-email/index.ts:50-54 | `${v}` throws exactly when `v` is an object with its own `toString` member, or an array with such an element at any depth. A string converts to itself. |
| Relay.JoinItems | supabase/functions/send-email/index.ts:50-54 | Joining an array's elements throws exactly when one of the elements' conversions throws. |
| Relay.Compose | supabase/functions/send-email/index.ts:49-55 | `mailOptions` is built exactly when none of `${name}`, `${email}`, `${message}` throws. |
| Relay.OwnToStringNameFails | supabase/functions/send-email/index.ts:49-57 | A name decoded as `{"toString": 1}` sends nothing and gets the bare 500 without CORS headers. |
| Relay.Acknowledge | supabase/functions/send-email/index.ts:57-79 | Status 200 iff the send resolved, with `{success: true}`. A rejected send gives 500 with the error's message when it is non-empty, else "Unknown error", and the CORS headers. |
| Relay.FalsyBodyLacksFields | supabase/functions/send-email/index.ts:30-31 | A falsy decoded body (`null`, `false`, `0`, `""`) is read as `{}` and lacks all four fields. |
| Relay.NonEmptyStringsAreRelayed | supabase/functions/send-email/index.ts:30-55 | The relay checks presence only: any four non-empty strings, blank or malformed, are relayed. The mail replies to the email, keeps the subject, is sent as the name and quotes name, email and message. |
| Relay.BlankNameAndBareEmailAreRelayed | supabase/functions/send-email/index.ts:31 | A whitespace-only name and an email without `@` pass the check. |
| Relay.ComposedMail | supabase/functions/send-email/index.ts:49-55 | The attempted mail goes to the operator. Its `from` reads back as the operator's mailbox with the submitted name as display name. `replyTo` is the email field and `subject` the subject field. `text` is `From: name <email>` + blank line + message. |
| Relay.SenderHeaderRoundTrip | supabase/functions/send-email/index.ts:50 | Whatever the name holds, the `from` header's mailbox reads back as the operator's and its display name as the name. |
| Relay.RelayFunction.constructor | supabase/functions/send-email/index.ts:44 | The relay starts with the configured operator mailbox and no send attempts. |
| Relay.RelayFunction.Serve | supabase/functions/send-email/index.ts:4-80 | The response is `Handle`'s. The attempt log grows by exactly the composed mail when a send is made, and is unchanged otherwise: one attempt at most, never retried. |
| Relay.ResubmissionIsSentTwice | supabase/functions/send-email/index.ts:57-58 | No deduplication: the same valid request served twice reaches the transport twice. |
| Js.TrimStart | src/sections/Contact.tsx:19 | The result is a suffix of the input, and everything cut off in front of it is whitespace. It is empty iff the input is all whitespace, and otherwise starts with non-whitespace. |
| Js.TrimEnd | src/sections/Contact.tsx:19 | The result is a prefix of the input, and everything cut off behind it is whitespace. It is empty iff the input is all whitespace, and otherwise ends with non-whitespace. |
| Js.Trim | src/sections/Contact.tsx:19 | `trim()` returns a slice of the input with only whitespace before and after it. The result is empty exactly for all-whitespace strings, and a non-empty result starts and ends with non-whitespace. It is the identity on trimmed strings. |
| Js.BlankIffTrimEmpty | src/sections/Contact.tsx:19 | The "is required" test `!s.trim()` holds exactly of the all-whitespace strings. |
| Js.EmailShapedIffPositions | src/sections/Contact.tsx:25 | The email test holds iff there is no whitespace, some `@` sits at index 1 or later, and some `.` sits 2 or more places after it and before the last character. |
| Js.EmailShapedIffPattern | src/sections/Contact.tsx:25 | The email test holds iff the string is three non-empty whitespace-free runs joined by `@` and `.`, which is the regex read literally. |
| Js.PaddedEmailIsNotShaped | src/sections/Contact.tsx:25 | A string starting or ending with whitespace fails the email test. |
| Contact.FormState.With | src/sections/Contact.tsx:43 | The named field takes the new value; the other three keep theirs. |
| Contact.FormErrorsMeaning | src/sections/Contact.tsx:16-36 | Keys are among name/email/subject/message and messages among the five texts. Name, subject and message are flagged iff blank, with "… is required". Email is flagged iff blank ("Email is required") or, when not blank, iff the untrimmed string fails the pattern ("Email is invalid"). |
| Contact.CollectErrors | src/sections/Contact.tsx:16-36 | The map built field by field, checking the email's blankness before its shape, is exactly `FormErrors` of the fields, whose meaning `FormErrorsMeaning` states. |
| Contact.FormAcceptedIff | src/sections/Contact.tsx:16-39 | Validation passes, with an empty error map, iff no field is blank and the email has the pattern's shape. |
| Contact.PaddedEmailIsInvalid | src/sections/Contact.tsx:23-27 | A non-blank email with whitespace at either end is always "Email is invalid". |
| Contact.ContactForm.constructor | src/sections/Contact.tsx:7-14 | The form starts with empty fields, idle status, no errors, and nothing pending or posted. |
| Contact.ContactForm.Change | src/sections/Contact.tsx:41-52 | Only the named field changes. Its error entry is removed if present, and every other entry is kept. |
| Contact.ContactForm.Validate | src/sections/Contact.tsx:16-39 | The error map is replaced by `FormErrors` of the fields, keeping the invariant that keys and messages are the known ones. The result is true iff that map is empty. |
| Contact.ContactForm.SubmitDisabled | src/sections/Contact.tsx:252 | The button is disabled while submitting, and then a request is in flight. |
| Contact.ContactForm.Submit | src/sections/Contact.tsx:54-71 | Submitting runs validation. Only when it passes does the status become submitting and are the fields posted exactly as they stand. Otherwise status, requests and log are unchanged. |
| Contact.ContactForm.Settle | src/sections/Contact.tsx:73-93 | An ok response gives success and resets all four fields to "". A non-ok response or a thrown error gives error with the fields kept. Either way one reset timer is pending. |
| Contact.ContactForm.ResetTimerFires | src/sections/Contact.tsx:85-92 | A pending timer sets the status to idle, whatever it was. |
| Contact.AcceptedFormIsRelayed | src/sections/Contact.tsx:57-71 | A form that passes validation is relayed when posted: never a 400. The transport is given a mail replying to the submitted email, with the submitted subject, sent as the submitted name, quoting name, email and message. |
| Projects.WithTag | src/sections/Projects.tsx:70 | The result holds exactly the projects carrying the tag, matched exactly, and is no longer than the input. |
| Projects.Visible | src/sections/Projects.tsx:68-70 | With `'all'` the list is unchanged. With any other filter, a project is shown iff it is in the list and carries that tag. Never more projects than the input. |
| Projects.WithTagCounts | src/sections/Projects.tsx:70 | Each project occurs in the result as often as in the input if it carries the tag, and not at all otherwise. |
| Projects.WithTagKeepsOrder | src/sections/Projects.tsx:70 | The result is a subsequence of the input: an increasing index map embeds it, so relative order is preserved. |
| Projects.UnmatchedFilterShowsNothing | src/sections/Projects.tsx:68-70 | A filter that no project carries shows an empty list. |
| Projects.CatalogNode | src/sections/Projects.tsx:31-70 | On the page's list, `node` shows the first and third projects. |
| Projects.CatalogTypescript | src/sections/Projects.tsx:31-70 | On the page's list, `typescript` shows the first two projects. |
| Projects.CatalogCaseSensitive | src/sections/Projects.tsx:29-70 | `react` shows every project but `React` shows none: matching is case-sensitive. |
| Projects.RunMeaning | src/sections/Projects.tsx:108-213 | After any run of clicks, the modal shows the project opened last and not dismissed since (Details opens; backdrop and close button both dismiss). The filter is the one chosen last. |
| Projects.FiltersKeepSelection | src/sections/Projects.tsx:108 | Clicking filter buttons, however often, never changes the selected project. |

## Left out

- HTTP serving and `req.json()` are not modelled: the request is a method plus an already decoded body, or `Unparsable`. A JSON number carries, as data, the text `String(n)` would print; number formatting is not computed. Inputs are taken to be consistent: a `JNumber` whose text is not what `String` prints for its value (say value 0 with text `5`) is not a decodable body, and nothing proved depends on the two agreeing.
- Property reads are modelled only for the four field names. No string, array or `Object.prototype` member has those names.
- `serve`'s default error handler lives in the Deno standard library, which is not part of this model. Relay.HandlerFailure stands for its answer: 500, body `Internal Server Error`, no headers.
- The mail transport (`createTransport`, `sendMail`, Gmail login) is not modelled. Its outcome is an input: resolved, or an error with an optional message. An error whose `message` is not a string is not modelled.
- The operator mailbox comes from `Deno.env.get('GMAIL_USER')` and is a string parameter here. An unset variable, which would print as `undefined`, is not modelled.
- Relay.ComposedMail: assumes the operator mailbox contains no `<`, as a mailbox address does not.
- `fetch`, `import.meta.env` and all `console` logging are I/O. The fetch result is an event (`Ok`, `NotOk`, `Threw`), and the model keeps the body that would be posted.
- The form encodes the posted body with `JSON.stringify` (src/sections/Contact.tsx:70) and the relay decodes it with `req.json()` (supabase/functions/send-email/index.ts:19). `Contact.RequestBody` takes that round trip to return the same four strings.
- `setTimeout` wall-clock delays are replaced by an explicit timer-fires event; how timers interleave with other events is up to the caller.
- Contact.ContactForm.Submit: requires the status not to be submitting. That stands for the button's `disabled` attribute, which is the only way the form is submitted while a request is pending.
- React's asynchronous state batching and stale closures are not modelled: every handler sees the state left by the previous one.
- Animation variants, layout, class names, icons and the `dangerouslySetInnerHTML` rendering of details are presentation. A project keeps only its id, title and tags; description, image, GitHub link and details text are left out.
- The header, theme, loader, animated text and the static content of the other sections have no logic to model.
- Concurrent invocations of the relay share no state, so the model serves one request at a time.
