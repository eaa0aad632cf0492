# Note app: authentication flow, session guard and notes client

A Dafny model of the logic of a small note-taking web client. The client has
three pages:

- **Sign-up and login.** A user asks for a one-time passcode (OTP) by email and
  then verifies it, or exchanges a Google credential. Either way the service
  returns a bearer token. The page stores the token and moves to the dashboard.
- **Dashboard.** On mount, a guard reads the stored token and decodes its
  payload without checking the signature. If the token is missing or its claims
  are falsy, the guard sends the user back to the entry page. Otherwise the page
  lists the user's notes.
- **Notes.** Creating or deleting a note is always followed by a full refetch,
  never by a local patch. Logout empties the token slot.

Every handler is a pure function from a page state and the outcome of its
service call to a new page state plus a list of effects (`Effects.Step`). A
service outcome is `Ok(payload)` or `Err(message?)`. The effects are a request
sent, a token written, the token cleared, a navigation, or a refetch of the
notes.

- `localStorage` is the token slot, an `Option<string>`. `Effects.ApplyToSlot`
  interprets the token effects on it.
- `window.location.href = …` becomes a `Navigate` effect.
- Each HTTP call becomes an `Outcome` parameter of its handler. The request the
  handler would send is recorded as a `Send` effect.
- Running a page over a sequence of events (`AuthFlow.Run`, `Dashboard.Run`)
  gives the invariants that span several handlers.

Modules:

- `Effects` (effects.dfy): outcomes, requests, effects, the token slot, the
  `message || fallback` rule, and the strings `localStorage` and the
  `Authorization` header produce.
- `JsText` (jstext.dfy): JavaScript's `trim` and `split('.')`.
- `Session` (session.dfy): token decoding, truthiness of the claims, and the
  greeting name.
- `AuthFlow` (authflow.dfy): the sign-up and login pages. This is one flow,
  parameterised by `Page`.
- `Dashboard` (dashboard.dfy): the guard, list/create/delete, and logout.
- `Scenarios` (scenarios.dfy): end-to-end runs, some against a fake notes
  service.

Behaviour of the code that the model keeps as written:

- The pages send a blank email or OTP as typed.
- A notes request with no stored token carries `Authorization: Bearer null`
  (`Dashboard.FetchNotes`).
- The dashboard reads the token slot and decodes it on every render. Each
  handler uses the value read at the latest render, and the mount effect uses
  the first render's value. Nothing on the dashboard writes the slot before
  logout, so all these reads agree. The model reads the slot once, in
  `Dashboard.Render`.
- The auth pages have only two stages, `'form'` and `'otp'`. There is no
  separate "authenticating" state.

## Model

| member | source | states |
|---|---|---|
| Effects.ApplyToSlot | src/pages/Dashboard.tsx:89 | When the final effect writes, the slot holds that token; when it clears, the slot is empty. The slot is unchanged when no effect touches it, and stays non-empty when nothing clears it. |
| Effects.LastTouchDecides | src/pages/Signup.tsx:25-26 | The slot is decided by the last effect that touches it: the token it wrote, or empty after a clear, whatever follows (such as the navigation after `setItem`). |
| Effects.ServerMessageOr | src/pages/Dashboard.tsx:44 | A present, non-empty server message is shown as is. Otherwise the per-operation fallback is shown. With a non-empty fallback the shown text is never empty. |
| Effects.Stored | src/pages/Signup.tsx:25 | The stored string is the reply's token. A reply without a token stores the string "undefined". |
| Effects.Bearer | src/pages/Dashboard.tsx:37-41 | The header is "Bearer " followed by the token, or "Bearer null" when no token is stored. |
| JsText.Trim | src/pages/Dashboard.tsx:49 | The trimmed text is empty exactly when every character is ECMAScript whitespace (`IsWhitespace`). It is a prefix of the left-trimmed text, everything it drops after that prefix is whitespace, and it has non-whitespace at both ends. |
| JsText.Split | src/pages/Dashboard.tsx:6 | `split('.')` returns at least one segment. No segment contains a dot, joining the segments with dots gives back the input, and there is a single segment exactly when the input has no dot. |
| JsText.SplitJoin | src/pages/Dashboard.tsx:6 | Splitting a join of dot-free segments gives the same segments back, so `Split` and `Join` are inverse. |
| Session.PayloadSegment | src/pages/Dashboard.tsx:6 | `split('.')[1]` is undefined exactly when the token has no dot. When it is defined, it is the dot-free text that starts right after the first dot and ends at the next dot or at the end of the token. |
| Session.DecodeToken | src/pages/Dashboard.tsx:4-11 | Decoding is total. A token without a dot gives null. When the payload segment parses, the claims are its parsed value; when it does not, they are null. |
| Session.UnsignedPayloadDecodes | src/pages/Dashboard.tsx:4-11 | For any dotted token `header.payload…`, the claims are the payload's parsed value, or null when it does not parse. The header and whatever follows the payload, such as a signature, are never looked at. |
| Session.FalsyValues | src/pages/Dashboard.tsx:28 | The claims are falsy (`!user`) exactly when they are null, false, 0 or the empty string. |
| Session.UserOf | src/pages/Dashboard.tsx:20-21 | A missing or empty stored token gives null claims. Any other stored token gives its decoded claims. |
| Session.NameClaim | src/pages/Dashboard.tsx:85 | `user?.name` is defined only for an object with a `name` field, and then it is that field. |
| Session.Greeting | src/pages/Dashboard.tsx:85 | The greeting is always truthy. It is the name claim when that claim is truthy. Otherwise it is "User". |
| AuthFlow.HandleSendOtp | src/pages/Signup.tsx:12-20 | Exactly one request is sent, carrying the page's name and the entered email, with no token write or navigation. Success moves to 'otp' and clears the error. Failure keeps the stage and sets the server message or "Failed to send OTP". |
| AuthFlow.HandleVerifyOtp | src/pages/Signup.tsx:22-30 | Exactly one request is sent, carrying the email and code. Success writes the returned token whatever the slot held, then navigates to /dashboard, and the page state is unchanged. Failure only sets the message or "OTP verification failed" and touches neither the slot nor the location. |
| AuthFlow.HandleGoogleLogin | src/pages/Login.tsx:34-51 | A missing or empty credential sends nothing and only sets "Google credential missing". Otherwise one exchange request is sent. Success writes the token and navigates. Failure always sets the fixed "Google login failed". |
| AuthFlow.Apply | src/pages/Signup.tsx:5-97 | For every page event: the stage is 'otp' afterwards exactly when it was before or the OTP request succeeded. A token is written exactly when the event signs in. A write is always followed by the navigation to /dashboard. The error is never blanked except by a successful OTP request. A failure of the Google widget itself sets "Google login failed" and nothing else. Typing into the name, email or OTP input sets only that field and has no effect. |
| AuthFlow.OtpStageIffOtpIssued | src/pages/Signup.tsx:9-16 | Over any run, the page is at 'otp' exactly when it started there or some OTP request succeeded. So 'otp' never returns to 'form'. |
| AuthFlow.InitialFormUntilOtpIssued | src/pages/Signup.tsx:9-10 | A page starts at 'form' with no error. It stays at 'form' exactly as long as no OTP request has succeeded. |
| AuthFlow.RunSignInShape | src/pages/Login.tsx:24-51 | Over any run of an auth page, the slot is never cleared, nothing is refetched, and every navigation goes to /dashboard right after a token write. |
| AuthFlow.FailedAttemptsKeepSlot | src/pages/Login.tsx:27-31 | A run in which no verification or exchange succeeds leaves the token slot as it was. |
| AuthFlow.LoginIsSignupWithFixedName | src/pages/Login.tsx:11-22 | Each login-page handler behaves like the sign-up one with the name fixed to "User" (`OtpName`): same page state, same effects. |
| Dashboard.Render | src/pages/Dashboard.tsx:20-25 | The first render holds the stored token and its decoded claims, no notes, an empty input and no error. |
| Dashboard.Mount | src/pages/Dashboard.tsx:27-33 | A missing or empty token, or falsy claims (`Admitted` fails), give exactly one navigation to / and no fetch. Otherwise exactly one fetch is issued. The page state is unchanged. |
| Dashboard.GuardAdmitsIff | src/pages/Dashboard.tsx:20-33 | The guard fetches exactly when the slot holds a non-empty token whose payload decodes to a truthy value. Otherwise it redirects to /. |
| Dashboard.GuardAcceptsUnsignedToken | src/pages/Dashboard.tsx:4-11 | Any three-segment token with a truthy payload is admitted, whatever its signature. |
| Dashboard.MissingReplyTokenIsRejected | src/pages/Dashboard.tsx:20-29 | A slot holding "undefined", which a sign-in reply without a token leaves behind, is redirected to /. |
| Dashboard.FetchNotes | src/pages/Dashboard.tsx:35-46 | Exactly one list request is sent, with the token read from the slot, even when no token is stored. Success replaces the notes with the returned sequence, unchanged and in order. Failure keeps the notes and sets a non-empty message or "Failed to fetch notes". |
| Dashboard.AddNote | src/pages/Dashboard.tsx:48-65 | Whitespace-only input sends nothing and changes nothing, whatever the outcome. Other input is posted untrimmed. Success empties the input and then refetches. Failure keeps the input and the notes, sets the message or "Failed to add note", and does not refetch. |
| Dashboard.DeleteNote | src/pages/Dashboard.tsx:67-78 | One delete request is sent for the id. Success only triggers a refetch, with no local removal. Failure keeps the notes and sets the message or "Failed to delete note". |
| Dashboard.Logout | src/pages/Dashboard.tsx:88-91 | Whatever the slot held, it ends up empty. No request is sent, the page ends by navigating to /, and the page state is unchanged. |
| Dashboard.Apply | src/pages/Dashboard.tsx:23-25 | No dashboard event changes the token or claims read from the slot or blanks a shown error. The notes change only on a successful listing. Typing into the note input sets only the input and has no effect. |
| Dashboard.ApplyEffects | src/pages/Dashboard.tsx:48-91 | A refetch follows exactly the creates and deletes the service accepted. The slot is cleared exactly on logout and never written. |
| Dashboard.ErrorNeverCleared | src/pages/Dashboard.tsx:25 | Over any run, once the error line is non-empty it stays non-empty. |
| Dashboard.NotesAreLatestListing | src/pages/Dashboard.tsx:42 | Over any run, the notes shown are those of the latest successful listing, or the starting notes when there was none. |
| Dashboard.SlotKeptWithoutLogout | src/pages/Dashboard.tsx:88-91 | A run without logout touches neither the token slot nor its contents. |
| Scenarios.SignupWalkthrough | src/pages/Signup.tsx:12-26 | Type a name and email, get the OTP, type the code and verify it. The requests are send-otp then verify-otp, the slot holds the returned token, and the run ends by navigating to /dashboard. |
| Scenarios.ExpiredSessionIsOnlyReported | src/pages/Dashboard.tsx:43-44 | A "jwt expired" listing failure shows that message, keeps the notes, and leaves the session in place. |
| Scenarios.CreatedNoteAppearsAfterRefetch | src/pages/Dashboard.tsx:48-61 | After a successful create and the refetch it triggers, answered by a service that stored the note, the new note is on screen and the input is empty. |
| Scenarios.DeletedNoteGoneAfterRefetch | src/pages/Dashboard.tsx:67-74 | After a successful delete and its refetch, no note with that id is on screen, and the input is kept. |

## Left out

- JSX rendering and the `styles` objects of the three pages. They are presentation only.
- Which inputs and buttons are shown in each stage. Send-OTP is shown only at 'form' and Verify only at 'otp'. The handlers do not check the stage themselves, and the model follows the handlers.
- The route table and Google OAuth provider wiring in src/App.tsx. They are routing chrome with no logic.
- The HTTP client. Each call is an `Outcome` parameter, and a non-string `message` in an error body is not modelled.
- Base64 and JSON parsing inside token decoding. `Session.PayloadDecoder` is a parameter that returns the parsed value or `None` when either step throws.
- Date formatting of a note's `createdAt` (src/pages/Dashboard.tsx:119). It is locale-dependent display.
- `console.error` in the Google login failure path. It is diagnostic output only.
- Asynchronous interleaving. Each handler runs to completion. The un-awaited refetch after a mutation is emitted as a `Refetch` effect, and its answer is a later `NotesListed` event.
- Writes to the token slot from outside the dashboard, such as a logout in another tab while the dashboard is open. The model assumes the slot does not change under the open page. Otherwise, after the next re-render, the real handlers would send the new value, or `Bearer null`, and the model would still send the old token.
- What happens after navigation. `Run` keeps applying events after a `Navigate`, although the real page unloads. Every invariant proved about `Run` therefore also holds for the shorter real runs.
