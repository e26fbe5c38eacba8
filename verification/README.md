# Farewell-event client: flow controller, form validators and backend client

This project models the logic core of a single-page "farewell event" web client.
The page takes an email address, asks the backend to send a one-time code,
verifies that code to obtain a token, and then applies for a first-come,
first-served gift. Three parts of the client hold that logic, and there is one
Dafny module per part, plus one for the form's event wiring:

- `FarewellEventPage` (`farewell_event.dfy`) is the page's flow controller. The
  class `FarewellEvent` holds `verificationState`, `email` and `authToken`, and
  has one method per handler. Each handler takes the backend's reply as a
  parameter and returns the request it sends. A ghost log `stateWrites`
  records every value written to the state, so the apply handler's two writes
  (`'applying'`, then the outcome) are both visible.
- `EmailVerificationComponent` (`email_verification.dfy`) holds the pure parts
  of the form. These are the ten `VerificationState` values and their string
  names, the email validator, the code-length check, the one-screen-per-state
  dispatch and the outcome screen's message table.
- `EmailVerificationEvents` (`email_verification_events.dfy`) models the
  form's buttons and inputs. Each exists only on its own screen, and the two
  form buttons are disabled unless their input validates. They forward to the
  page's handlers.
- `Api` (`api.dfy`) models the backend client. It covers how each call's
  request is built (the header merge and bearer tokens) and how a reply
  becomes a value or an error once `fetch` has settled (`apiFetch`). It also
  covers the token extraction of `verifyCode` and the `test*` wrappers.
- `JsValues` (`js_values.dfy`) gives the JavaScript semantics the client
  relies on. It covers JSON values, truthiness, property reads that throw on
  `null`/`undefined`, `String(v)`, `String.prototype.includes` and the
  UTF-16 `length` of a string. `Optional` holds an `Option` type.

The network is a parameter. A `FetchReply` is either a rejected `fetch`, or
a status together with a body that did or did not parse as JSON.

Behaviour follows the code throughout:
- There is no resend cooldown or code-expiry timer.
- A failed send or verify leaves the state as it was instead of entering
  `'error'`.
- Every failed application becomes `'already-applied'` or `'sold-out'`, never
  `'error'`. Network and protocol errors, and non-409 statuses, included.
- Statuses are not told apart: only the error message decides between the two
  outcomes.
- The envelope unwrapped on success is `data` only, and the token is read from
  `result.temporaryToken` only.
- The stock endpoint sends the same bearer header as the others.

## Model

| member | source | states |
|---|---|---|
| `JsValues.Prop` | src/services/api.ts:32 | a property read throws exactly when the object is null or undefined; an object yields its own key or undefined; any other value yields undefined |
| `JsValues.IntToStringRoundTrip` | src/services/api.ts:32 | `String(n)` is non-empty, made of digits after an optional minus sign, and gives `n` back |
| `JsValues.IncludesIff` | src/pages/FarewellEvent.tsx:85 | `s.includes(t)` holds exactly when `t` occurs at some index of `s` |
| `JsValues.Utf16LengthBounds` | src/components/EmailVerification.tsx:44 | a string's JavaScript length lies between its number of code points and twice that, and equals the number of code points exactly when none lies above U+FFFF |
| `Api.BuildRequest` | src/services/api.ts:15-23 | the URL is base plus endpoint and the mode is `cors`; every caller header survives with its value; a default header survives unless the caller names it |
| `Api.BearerRequestHeaders` | src/services/api.ts:72-74 | a call that adds only `Authorization` sends exactly Content-Type, Accept and `Authorization: Bearer <token>`, with both JSON headers intact |
| `Api.SendVerificationCodeRequest` | src/services/api.ts:44-49 | POST to the send-code endpoint with the default JSON headers and body `{email}` |
| `Api.VerifyCodeRequest` | src/services/api.ts:55-58 | POST to the verify-code endpoint with the default JSON headers and body `{email, code}` |
| `Api.ApplyForGiftRequest` | src/services/api.ts:69-76 | POST to the apply endpoint, no body, JSON headers plus the bearer token |
| `Api.CheckApplicationStatusRequest` | src/services/api.ts:82-89 | GET of the status endpoint, no body, JSON headers plus the bearer token |
| `Api.CheckEventStockRequest` | src/services/api.ts:144-151 | GET of the stock endpoint, no body, JSON headers plus the bearer token |
| `Api.ApiFetch` | src/services/api.ts:27-36 | succeeds exactly on a 2xx reply whose body parsed to something other than null; a success is never nullish; a status error carries the reply's status and happens only for non-2xx |
| `Api.UnparseableAlwaysFails` | src/services/api.ts:27-30 | a body that does not parse fails with the parser's message whatever the status |
| `Api.NonOkMessage` | src/services/api.ts:30-33 | any non-2xx non-null body fails with a status error carrying that status: with `String(body.message)` when that is truthy, otherwise with "HTTP error! status: N", which an array, string, number or boolean body always gets |
| `Api.HttpErrorMessageNamesStatus` | src/services/api.ts:32 | the generic message ends in the status's decimal digits, from which the status reads back |
| `Api.OkUnwrap` | src/services/api.ts:36 | any 2xx non-null body yields `body.data` when truthy, otherwise the whole body; an array, string, number or boolean body comes back whole |
| `Api.ResultToken` | src/services/api.ts:61-62 | the token `response.result && response.result.temporaryToken` reads: undefined unless `result` is an object holding the key |
| `Api.VerifyCode` | src/services/api.ts:59-65 | `apiFetch` errors pass through unchanged; after an `apiFetch` success, verification succeeds exactly when `result.temporaryToken` of the unwrapped value is truthy and then yields `{temporaryToken: t}` with that very token; every other unwrapped value (no `result`, a primitive `result`, no token) fails with the missing-token error, never a property-read error |
| `Api.VerifyCodeExtractsToken` | src/services/api.ts:59-64 | for any 2xx object body, the token is read from `data.result.temporaryToken` when `data` is truthy and from `result.temporaryToken` otherwise; success exactly when it is truthy, otherwise the missing-token error |
| `Api.TokenUnderDataFails` | src/services/api.ts:61-64 | a 2xx reply `{"data": {"token": T}}` fails with the missing-token error |
| `Api.TestCall` | src/services/api.ts:92-102 | `true` exactly on a 2xx reply with a non-null JSON body, `false` on every failure (also `testApplyGift`, lines 116-126) |
| `Api.TestVerifyCode` | src/services/api.ts:104-114 | `null` exactly when verification fails, otherwise verification's own `{temporaryToken}` result, whose token is truthy |
| `Api.TestCheckStatus` | src/services/api.ts:128-138 | `null` exactly when the call fails, otherwise the very value `apiFetch` unwrapped, which is non-nullish |
| `EmailVerificationComponent.Parse` | src/components/EmailVerification.tsx:7-17 | the ten state names and the states are in one-to-one correspondence |
| `EmailVerificationComponent.EmailPatternIff` | src/components/EmailVerification.tsx:39-41 | the check accepts a string exactly when the pattern `^[^\s@]+@[^\s@]+\.[^\s@]+$` matches it. The check is: no whitespace; one `@` with something before it; a `.` with a character on each side after it |
| `EmailVerificationComponent.EmailRejections` | src/components/EmailVerification.tsx:40 | whitespace anywhere, no `@`, or two `@` each make the address invalid |
| `EmailVerificationComponent.CodeCheckIsLengthOnly` | src/components/EmailVerification.tsx:44 | the code check ignores content: an accepted code has 3 to 6 code points, and a code inside the Basic Multilingual Plane is accepted exactly when it has 6 |
| `EmailVerificationComponent.OutcomeNoticesComplete` | src/components/EmailVerification.tsx:238-243 | the message table has exactly the three outcome states as keys, each with a different message |
| `EmailVerificationComponent.Rendered` | src/components/EmailVerification.tsx:266-273 | every state renders exactly one screen; the outcome screen is rendered exactly for sold-out, already-applied and error, with that state's message |
| `EmailVerificationComponent.ScreensDistinguishStates` | src/components/EmailVerification.tsx:266-273 | different states never show the same screen |
| `FarewellEventPage.ApplyFailureState` | src/pages/FarewellEvent.tsx:85-89 | a failed application ends in already-applied exactly when the message contains "already applied", otherwise in sold-out; never in error |
| `FarewellEventPage.AlreadyAppliedConflict` | src/pages/FarewellEvent.tsx:85-86 | a 409 whose body says "already applied" ends in already-applied |
| `FarewellEventPage.BareRejectionIsSoldOut` | src/pages/FarewellEvent.tsx:87-89 | any non-2xx reply whose non-null JSON body (object, array, string, number or boolean) has no truthy `message`, 409 included, ends in sold-out |
| `FarewellEventPage.NullRejectionIsSoldOut` | src/pages/FarewellEvent.tsx:87-89 | a non-2xx reply whose body is `null` fails with a property-read TypeError and ends in sold-out |
| `FarewellEventPage.FarewellEvent.constructor` | src/pages/FarewellEvent.tsx:12-14 | the page starts in `'initial'` with an empty email and a null token |
| `FarewellEventPage.FarewellEvent.SetVerificationState` | src/pages/FarewellEvent.tsx:12 | sets the state and appends it to the write log; nothing else changes |
| `FarewellEventPage.FarewellEvent.SetEmail` | src/pages/FarewellEvent.tsx:13 | only the email changes |
| `FarewellEventPage.FarewellEvent.HandleSendCode` | src/pages/FarewellEvent.tsx:19-35 | sends the send-code request; success moves to code-verification; failure changes nothing; email and token are never written |
| `FarewellEventPage.FarewellEvent.HandleVerifyCode` | src/pages/FarewellEvent.tsx:38-55 | sends the verify request; success stores `response.token`, which is always undefined, and moves to verified; failure changes nothing; email is never written |
| `FarewellEventPage.FarewellEvent.HandleVerifyCodeIntended` | src/pages/FarewellEvent.tsx:41 | the same handler reading `temporaryToken`: success stores the backend's truthy token |
| `FarewellEventPage.FarewellEvent.HandleStartApplication` | src/pages/FarewellEvent.tsx:58-60 | always moves to email-verification |
| `FarewellEventPage.FarewellEvent.HandleApplyForGift` | src/pages/FarewellEvent.tsx:63-91 | with a falsy token it sends nothing and changes nothing. Otherwise it writes applying, sends the bearer request, and writes application-received on success or the classified failure state. Email and token are never written |
| `FarewellEventPage.VerifiedSessionNeverApplies` | src/pages/FarewellEvent.tsx:38-71 | on a fresh page (start, type, send, verify, apply) the apply request is never sent, and a successful verification leaves the page in verified |
| `FarewellEventPage.VerifiedSessionApplies` | src/pages/FarewellEvent.tsx:63-91 | with the intended token read, a successful verification leads to the apply request carrying the verified token. The page ends in application-received exactly when the apply call succeeds, and otherwise in already-applied or sold-out |
| `EmailVerificationEvents.PressStartButton` | src/components/EmailVerification.tsx:85-91 | on the initial screen the button only sets the hash to `email-verification`; elsewhere it does nothing |
| `EmailVerificationEvents.PressStartButtonIntended` | src/components/EmailVerification.tsx:19-26 | the button wired to the page's start handler moves the initial page to email-verification |
| `EmailVerificationEvents.TypeEmailInput` | src/components/EmailVerification.tsx:103-109 | the email changes only while the email screen shows |
| `EmailVerificationEvents.PressSendCodeButton` | src/components/EmailVerification.tsx:110-117 | a send-code request goes out exactly when the email screen shows and the address is valid |
| `EmailVerificationEvents.PressVerifyButton` | src/components/EmailVerification.tsx:140-147 | a verify request goes out exactly when the code screen shows and the code is valid |
| `EmailVerificationEvents.PressApplyButton` | src/components/EmailVerification.tsx:166-172 | an apply request goes out exactly when the verified screen shows and the page holds a truthy token; after it the page has written `applying` and then application-received on success or the classified failure state, never error; without it nothing changes |
| `EmailVerificationEvents.Dispatch` | src/components/EmailVerification.tsx:263-276 | from the initial screen no action changes the page; the only effect is the hash change |
| `EmailVerificationEvents.SessionStaysInitial` | src/components/EmailVerification.tsx:85-91 | any sequence of actions on a fresh page leaves it in initial and sends no request |
| `EmailVerificationEvents.SessionWithIntendedStart` | src/components/EmailVerification.tsx:19-26 | with the start button wired, no request goes out for an invalid address. A failed send stays on email-verification, and an invalid code sends no verify request. A valid address and code that the backend accepts reach verified |

## Left out

- `fetch`, CORS, the real server, JSON serialisation of request bodies, and the `async`/`Promise` machinery are not modelled. The backend's answer is a parameter, and a request body is kept as the value `JSON.stringify` would serialise.
- Interleaving between an `await` and later user actions is not modelled: each handler runs as one step. While the apply call is in flight the applying screen shows no button, so the form offers no action to interleave.
- Toasts, console logging, images, styling, the copy shown on screens, and the toast text chosen by `error.message || ...` are not modelled. The outcome screen's three messages are kept only as three distinct values.
- JSON numbers are integers in this model: no fractions, exponents or `NaN`.
- A JSON object with its own `toString` key would change what `String(body.message)` gives; property names that built-in prototypes define are not modelled either. The client reads neither.
- The responses of the status and stock endpoints are not interpreted beyond `apiFetch`; their shapes exist only as TypeScript types.
- The texts of the TypeErrors that a property read on `null` or `undefined` raises are V8's wording; other engines word them differently. No engine's text contains "already applied", so `NullRejectionIsSoldOut` holds for each of them, but its proof relies on V8's text.
- The code input's `maxLength={6}` is an input-widget limit, not logic, and is not modelled.
- The application shell, and anything that might react to `window.location.hash`, are not part of this model.
- src/components/ApiTester.tsx, src/components/EventStatus.tsx, src/components/MemoryGallery.tsx and src/components/TerningLogo.tsx are not part of this model. They are a debug panel, an unused status view and static content.
- There is no resend cooldown, code-expiry timer, duplicate-submission guard or status polling in the client's code, so none is modelled.
- EmailVerificationEvents.Dispatch: states only what happens from the initial screen. What each action does elsewhere is stated by the per-button methods it calls.

## Findings

| source | as written | input that shows it | evidently intended | confidence | as-written member | corrected member |
|---|---|---|---|---|---|---|
| src/pages/FarewellEvent.tsx:41 | after verification the page stores `response.token`, but `verifyCode` resolves to `{temporaryToken}` only (src/services/api.ts:62), so the stored token is `undefined` and every later apply is rejected locally at line 64 | verify reply 200 with body `{"result": {"temporaryToken": "T"}}`, then press apply: no request is sent and the page stays in `'verified'` | store `response.temporaryToken`, so that apply sends `Authorization: Bearer T` | high; not executed | `FarewellEventPage.VerifiedSessionNeverApplies` | `FarewellEventPage.VerifiedSessionApplies` |
| src/components/EmailVerification.tsx:86 | the initial screen's button sets `window.location.hash` and calls nothing on the page. `onStartApplication`, passed at src/pages/FarewellEvent.tsx:183, is not among the form's props (lines 19-26), so the page never leaves `'initial'` | load the page and press the start button, in any sequence of actions: the state stays `'initial'` and no request is sent | call the page's start handler, moving to `'email-verification'` | medium (code outside this model could react to the hash); not executed | `EmailVerificationEvents.SessionStaysInitial` | `EmailVerificationEvents.SessionWithIntendedStart` |
