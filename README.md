# Cypress test-session helpers, modelled in Dafny

This project models the custom-command core of a Cypress end-to-end suite for a
sign-up/sign-in application:

- **Soft assertions** (`cy.softAssert`, `cy.resolveSoftAsserts`): a module-level list of
  failure messages. `softAssert` runs an assertion callback; a throw is caught, its message
  (or the caller's custom message) is appended and logged, and the test goes on.
  `resolveSoftAsserts` does nothing on an empty list; otherwise it clears the list and throws
  one error, `"Soft assertions failed:\n"` followed by the messages joined with `"\n"`.
  Modelled by the class `SoftAsserts.Aggregator` (fields `failures` and `log`), whose methods
  are tied to the pure functions `Record` and `Resolve`; lemmas about those functions cover runs
  of several calls.
- **Session dispatch** (`cy.useSession(name)`): a `switch` on the session name whose cases have
  no `break`. `Sessions.UseSession` returns the ordered list of effects: `Session(name, signup,
  login)` for a `cy.session` call, `SetEnv(key, credentials)` for `Cypress.env`, and
  `Log(message)` for `cy.log`. It is built from the three case bodies and switch fallthrough
  semantics (`FallThrough`), so `'free'` also runs the `'premium'` and `default` cases.
- **Register-page form filling** (`RegisterPage.fillValidRegisterForm`,
  `fillInvalidRegisterForm`): functions that return the trace of `Type(selector, value)` and
  `Focus(selector)` actions over the page's selector constants.

Files: `wrappers.dfy` (option type, JavaScript string truthiness), `soft_asserts.dfy`,
`sessions.dfy`, `register_page.dfy`.

Modelling choices:

- An assertion callback is a value, `Passes` or `Throws(message)`; the model reads the
  `try`/`catch` synchronously.
- An optional `errorMessage` or a `string | null` argument is an `Option<string>`. JavaScript
  truthiness makes both `None` and `Some("")` falsy, which is what `||` at
  cypress/support/commands.ts:27 and the `if`s of `fillInvalidRegisterForm` test.
- A thrown error from `resolveSoftAsserts` is the result `Error(text)`; a normal return is `Ok`.
- `faker`'s random identity is the parameter `Generated`.
- The line-count property splits the report with `Lines` (JavaScript's `split('\n')`). It
  holds when no recorded message itself contains a newline.

The dispatch in `useSession` is modelled as written, including the fallthrough; the
intended per-name dispatch is modelled beside it (see Findings). Its intent is visible in the
command's own documentation, "Activates or Creates a session by its name"
(cypress/support/e2e.ts:43-48), and in the `before` hook, which calls `useSession("free")` and
`useSession("premium")` separately (cypress/support/e2e.ts:58-59). In `resolveSoftAsserts`,
`softAssertFailures = []` (cypress/support/commands.ts:36) runs just before the throw and only
when the list is non-empty.

## Model

| member | source | states |
|---|---|---|
| `SoftAsserts.FailureMessage` | cypress/support/commands.ts:27 | the recorded message is the custom message when it is non-empty, otherwise the thrown error's own message |
| `SoftAsserts.Record` | cypress/support/commands.ts:23-31 | a passing check leaves the list unchanged; a throwing one adds exactly one entry at the end, keeps every earlier entry, and the entry is the chosen message |
| `SoftAsserts.Resolve` | cypress/support/commands.ts:33-39 | the list is empty afterwards; the outcome is a normal return exactly when the list was empty, otherwise the error carrying the header and the joined messages |
| `SoftAsserts.Messages` | cypress/support/commands.ts:28 | the messages a run of calls records number exactly the calls whose check throws |
| `SoftAsserts.Aggregator.constructor` | cypress/support/commands.ts:21 | the failure list starts empty and nothing has been logged |
| `SoftAsserts.Aggregator.SoftAssert` | cypress/support/commands.ts:23-31 | for a check that returns or throws an Error with a string message: never throws itself; a passing check changes nothing; a throwing one appends its message to the list and logs "Soft assertion failed: " with that message |
| `SoftAsserts.Aggregator.ResolveSoftAsserts` | cypress/support/commands.ts:33-39 | an empty list returns normally and nothing changes; a non-empty list throws the report of its entries in order and is left empty; the log is untouched |
| `SoftAsserts.RecordAllAppends` | cypress/support/commands.ts:23-31 | a run of calls appends to the list exactly the messages of the throwing calls, in call order, and nothing else |
| `SoftAsserts.Lines` | cypress/support/commands.ts:35 | the observer that makes the report's lines statable: the inverse of `join('\n')` (JavaScript's `split('\n')`, which the source itself never calls); it gives at least one piece, and a single piece exactly when the text has no newline |
| `SoftAsserts.LinesOfJoin` | cypress/support/commands.ts:35 | joining newline-free messages with "\n" and splitting again gives back the messages |
| `SoftAsserts.ReportLines` | cypress/support/commands.ts:35-37 | the thrown text's first line is the header and each further line is one recorded message, so it has one line per failure plus the header |
| `SoftAsserts.KFailuresThenResolve` | cypress/support/commands.ts:23-39 | after calls of which k > 0 throw, the list holds k entries, one resolve throws the report of exactly the throwing calls' messages in call order and empties the list, and a second resolve returns normally |
| `SoftAsserts.KFailuresReportLines` | cypress/support/commands.ts:28-37 | after k > 0 failures with newline-free messages, the thrown report has exactly k + 1 lines: the header, then the messages in call order |
| `SoftAsserts.NoFailuresNoError` | cypress/support/commands.ts:34 | when no check throws, resolve returns normally and the list stays empty |
| `Sessions.Signup` | cypress/support/commands.ts:52-58 | `createUser` receives the generated names, username and password, with the password repeated as the confirmation |
| `Sessions.Entry` | cypress/support/commands.ts:49-107 | the switch enters the `'free'` case exactly for "free", the `'premium'` case exactly for "premium", and `default` otherwise |
| `Sessions.FallThrough` | cypress/support/commands.ts:49-110 | without `break` the entered case's body runs first, and every effect issued belongs to the entered case or a later one |
| `Sessions.UseSession` | cypress/support/commands.ts:43-111 | "free" yields the free session, the `freeUser` write, the premium session and the invalid-session log; "premium" yields its session and the log; any other name only the log |
| `Sessions.EnvWriteOnlyForFree` | cypress/support/commands.ts:75-78 | an environment write happens exactly when the name is "free"; an unrecognised name opens no session and writes nothing |
| `Sessions.SessionsOpened` | cypress/support/commands.ts:51-105 | "free" opens two sessions, "premium" one, any other name none |
| `Sessions.FreeUserMatchesSignup` | cypress/support/commands.ts:51-78 | the `freeUser` entry holds the credentials that the free session's setup passes to `createUser` and signs in with |
| `Sessions.UseSessionIntended` | cypress/support/commands.ts:49-110 | with a `break` per case, each recognised name yields only its own case's effects and any other name only the log |
| `Sessions.IntendedRunsOnlyOwnCase` | cypress/support/commands.ts:49-110 | in the intended dispatch every session opened has the requested name, a recognised name opens exactly one and never logs the invalid-name message |
| `Sessions.AsWrittenExtendsIntended` | cypress/support/commands.ts:49-110 | the code as written issues the intended effects followed by every later case's effects |
| `Sessions.FreeFallsThrough` | cypress/support/commands.ts:49-110 | as written, "free" also opens the premium session and logs "Invalid session specified", so it differs from the intended dispatch |
| `RegisterPage.FieldAction` | cypress/pages/register.ts:79-83 | a field is typed exactly when its value is a non-empty string, with that exact value, and otherwise focused, always on its own selector |
| `RegisterPage.FillValidRegisterForm` | cypress/pages/register.ts:64-70 | exactly five actions, each typing its value into its own field, in the order first name, last name, username, password, confirm password |
| `RegisterPage.FillInvalidRegisterForm` | cypress/pages/register.ts:72-110 | exactly six actions: per field in the fixed order a typing of a non-empty value or a focus for null or empty, then the sign-up button focus; no empty value is ever typed |
| `RegisterPage.InvalidExtendsValid` | cypress/pages/register.ts:64-110 | with all five values non-empty, the invalid-form trace is the valid-form trace followed by the sign-up button focus |
| `RegisterPage.EmptyFieldNeverTyped` | cypress/pages/register.ts:79-107 | a field given as null or the empty string is focused and nothing is typed into its selector |

## Left out

- What `cy.session` does with its setup: caching across specs, replay, and the `validate()` visit to `/user/settings`. `Session(name, signup, login)` is an opaque effect that records only the arguments its setup uses.
- `AuthAPI.createUser` (an HTTP POST) and the login page steps inside the session setup: they are I/O and appear only as the `signup` and `login` arguments of the `Session` effect.
- `faker`'s random generation: the generated identity is a parameter.
- The Cypress command queue: `cy.contains(...).should(...)` inside a soft-assertion callback is queued rather than thrown synchronously; the model reads the `try`/`catch` as synchronous. Every callback in this suite only queues such commands (cypress/pages/register.ts:112-146, cypress/pages/login.ts:29-33), so under Cypress the `catch` never fires and the aggregator as written never records anything: a failed check fails the test at once instead of being deferred.
- The command queue in `useSession` too: `Cypress.env` runs at once while `cy.session` and `cy.log` are queued, so `UseSession`'s effect list is the order of the calls in the text, not the order in which they execute.
- `SoftAsserts.ReportLines`: the line count is proved only when no recorded message contains a newline, because a multi-line message adds lines to the report.
- `SoftAsserts.KFailuresReportLines`: the exact line count likewise needs newline-free messages; the emptying of the list, the exact report text and the no-op second resolve are proved without that condition by `SoftAsserts.KFailuresThenResolve`.
- `SoftAsserts.Aggregator.SoftAssert`: the thrown value is taken to be an Error with a string message, and the callback has no effect on the aggregator. In the source a thrown `null` or `undefined` with no truthy custom message makes `error.message` raise inside the `catch`, so `softAssert` does throw; a thrown non-Error value records `undefined` (an empty report line, logged as "undefined"); and a callback that itself calls `softAssert` or `resolveSoftAsserts` is not expressible.
- `Sessions.FreeUserMatchesSignup`: it speaks of the setup's arguments only. With `cacheAcrossSpecs: true` (cypress/support/commands.ts:67), `cy.session` restores a cached session without running its setup, yet `faker` generates fresh credentials on every call and `Cypress.env("freeUser", …)` still writes them, so after a restore `freeUser` holds credentials that were never registered.
- The single-field helpers of `RegisterPage` (`fillFirstNameInput`, `focusSignUpButton`, …) and `visit`, `clickSignUpButton` and the soft-assertion helpers of the page: they appear only as the `Type`/`Focus` actions inside the two traces, or are single driver calls.
- What the driver does with `type('')`: `FillValidRegisterForm` records `Type(selector, "")` for an empty value; whether Cypress accepts it is driver behaviour.
- The `before` hook and storage clearing in cypress/support/e2e.ts, the environment loading in cypress.config.ts, the login and home page objects, and the test scenarios: browser and configuration I/O or branch-free wrappers.

## Findings

| source | as written | input that shows it | evidently intended | confidence | as-written member | corrected member |
|---|---|---|---|---|---|---|
| cypress/support/commands.ts:49-110 | no `break` ends the `'free'` and `'premium'` cases, so control falls through into the next case | `useSession('free')` also opens the `"premium"` session and logs "Invalid session specified"; `useSession('premium')` also logs it | each name runs only its own case; only an unrecognised name logs the invalid-session message | high, not executed | `Sessions.FreeFallsThrough` | `Sessions.IntendedRunsOnlyOwnCase` |
