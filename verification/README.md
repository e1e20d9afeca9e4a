# Hasanah rotation and lookups, modelled in Dafny

Hasanah is a VS Code extension. It shows a short religious text on a timer. The texts alternate between a random ayah (a Quran verse) and a random hadith. It also offers a command that looks up one ayah by surah and verse number, and a command that shows today's Hijri date. All of this lives in `hasanah/extension.js`. This project models that logic. The remote lookups and the editor's API are modelled only by their outcomes.

- `TextComposer` (`text_composer.dfy`) holds `DEFAULT_DUAA` and `getText`. `getText` is a total function from the tick's mode and the lookups' outcomes to the text shown. The outcomes are: the lookup threw, it returned no record, or it returned a record. Record fields that may be absent are options. Truthiness is spelt out: a string field counts only when it is non-empty, and a number only when it is non-zero.
- `Decimal` (`decimal.dfy`) shows how a template literal renders the integer `numberInSurah`.
- `Scheduler` (`scheduler.dfy`) holds `Replay`, a function giving the notifications a run of ticks posts. It also holds the class `Extension`, which has:
  - the module-level `timerId`;
  - the variables that `activate`'s closures capture: `showHadith`, `delay`, and the local `timerId`;
  - the host's table of live intervals, as a map from handle to period;
  - the notifications posted so far.

  `Extension` has the constructor `Load` and the methods `Activate`, `Tick`, `OnConfigChange` and `Deactivate`. Its methods `SetInterval` and `ClearInterval` stand in for the host's `setInterval` and `clearInterval` (lines 52, 58, 63 and 117). `Session` is a client that walks through one activation.
- `Commands` (`commands.dfy`) holds the `hasanah.getAyah` and `hasanah.getHijriDate` commands. Both are functions from the input-box results and the lookup's outcome to the message shown and to the lookup issued, if any.

Points of hasanah/extension.js the model keeps as they are:
- A hadith's text is its `arab` field (line 16).
- `deactivate` clears nothing. `activate` declares its own `let timerId` (line 52), which shadows the module-level `timerId` (line 6), so the variable that `deactivate` tests (line 116) is never assigned. In the model, only `Deactivate` assigns `moduleTimerId`, and every other method leaves it as it was. `Session` shows that the interval is still live after `Deactivate` and that a later tick still posts a notification. The class invariant therefore promises at most one live interval, not that the interval is cleared at shutdown.
- `hasanah.getAyah` shows both input boxes (lines 71-76) before it tests either one (line 78). The model takes both results as inputs.
- The configuration listener runs on every configuration change and tests `affectsConfiguration('hasanah.delay')` itself (line 57). The model's `affectsDelay` parameter is the result of that test.
- In the lookup command, a truthy record is rendered without any field test (line 89). A missing `text`, `surah.name` or `numberInSurah` therefore renders as `undefined`. A missing `surah` makes `data.surah.name` throw, and that error is caught like a failed lookup.

## Model

| member | source | states |
|---|---|---|
| `TextComposer.GetText` | hasanah/extension.js:10-38 | Never empty and never throws. The result is exactly `DEFAULT_DUAA` if and only if the record for the tick's mode is incomplete. Incomplete means the lookup threw, returned nothing, or lacks a truthy required field: `arab` and `book` for a hadith; `text`, `surah`, `surah.name` and a non-zero `numberInSurah` for an ayah. A complete record never yields the fallback. |
| `TextComposer.HadithMessage` | hasanah/extension.js:13-17 | A complete hadith is shown as `arab`, then ` 💚 book (`, then `book`, then `)`. |
| `TextComposer.AyahMessage` | hasanah/extension.js:18-28 | A complete ayah is shown as `text`, then ` ❤️ `, then the surah name, then the verse number in decimal inside parentheses. |
| `Decimal.IntToString` | hasanah/extension.js:27 | Interpolating the verse number gives a non-empty string. It ends in a digit, and it starts with `-` exactly when the number is negative. |
| `Decimal.NatRoundTrip` | hasanah/extension.js:27 | The decimal rendering of a natural number parses back to that number. |
| `Decimal.IntRoundTrip` | hasanah/extension.js:27 | The rendering of any integer, sign included, parses back to the integer. |
| `Scheduler.Replay` | hasanah/extension.js:44-50 | A run of ticks posts exactly one notification per tick. |
| `Scheduler.ReplayAt` | hasanah/extension.js:44-50 | Tick `k` runs in the starting mode when `k` is even and in the other mode when `k` is odd, whatever the earlier lookups produced. |
| `Scheduler.Alternation` | hasanah/extension.js:44-50 | From activation, even ticks show the ayah text, odd ticks show the hadith text, and each shows the fallback exactly when its own record is incomplete. |
| `Scheduler.ReplayExtend` | hasanah/extension.js:46-50 | One more tick appends the text of the mode reached after the earlier ticks and changes nothing before it. |
| `Scheduler.Extension.Load` | hasanah/extension.js:6-8 | After loading, the module-level `timerId` is unset, no interval is live and nothing has been shown. |
| `Scheduler.Extension.Activate` | hasanah/extension.js:40-52 | The first tick shows an ayah. The period is the configured minutes × 60000 ms. Exactly one fresh interval is live. The module-level `timerId` is not touched. |
| `Scheduler.Extension.Tick` | hasanah/extension.js:46-50 | Appends `getText` of the current mode to the shown notifications, records the tick's lookups after the earlier ones, and always flips the mode. The invariant is kept: the flag is odd/even in the tick count, and the notifications equal `Replay` of all ticks from ayah mode. |
| `Scheduler.Extension.OnConfigChange` | hasanah/extension.js:55-66 | If `hasanah.delay` was affected, the old interval is cleared and one fresh interval runs at the new minutes × 60000 ms. The mode and the notifications are unchanged. Any other change leaves the intervals, handle and delay as they were. |
| `Scheduler.Extension.Deactivate` | hasanah/extension.js:115-120 | Clears only the interval named by the module-level `timerId`, then unsets it. When it was never assigned, which is always, the live intervals are unchanged. |
| `Commands.GetAyah` | hasanah/extension.js:68-103 | If either input is empty or cancelled, the message is `Invalid input. Please enter a number.` and no lookup is issued. Otherwise a lookup is issued with the two inputs unchanged. No record gives `No data returned from the Quraan API.` A thrown error gives the fallback with a leading space and the reason appended. A record gives its blue-heart rendering. Each fixed message appears exactly in its own case. |
| `Commands.SuccessMessage` | hasanah/extension.js:86-90 | With both inputs entered, a record with a `surah` is shown as `text`, then ` 💙 ` (U+1F499, not the ❤️ of the rotation), then the surah name, then the verse number in decimal inside parentheses. An unset `text` shows as `undefined` at the start, and an unset `numberInSurah` as `(undefined)` at the end. |
| `Commands.RenderAyah` | hasanah/extension.js:87-90 | A truthy record is rendered unless it has no `surah`, in which case reading `surah.name` throws. |
| `Commands.RenderOrFail` | hasanah/extension.js:85-101 | A truthy record shows its rendering, or the annotated fallback exactly when rendering throws. It is never the invalid-input or no-data message. |
| `Commands.RenderedIsNoLiteral` | hasanah/extension.js:78-100 | A rendered ayah is never equal to any of the three fixed messages. |
| `Commands.GetHijriDate` | hasanah/extension.js:104-111 | Nothing is shown exactly when the date lookup throws. Otherwise the date is shown after `Today in Hijri is: `. |

## Left out

- The remote lookups `printRandomHadith`, `getAyahText`, `getSpecificAyah` and `get_hijri_Date` live in hasanah/hadith.js, hasanah/quraan.js and hasanah/islamicDate.js, which are not part of this model. Each call is replaced by the outcome it would produce, passed in as a parameter.
- The VS Code API is modelled only through values:
  - A notification the rotation shows is appended to `shown`.
  - A command's message is returned.
  - Input-box results are parameters.
  - Command registration, `context.subscriptions` and `getConfiguration` are plumbing and are not modelled.
- Real timing is not modelled. A tick is a call to `Tick`, and an interval is an abstract handle with its period.
- Asynchronous interleaving is not modelled. A tick reads the mode, awaits the lookup, shows the text and then flips the mode as one step, so two ticks whose awaits overlap (and so read the same mode) are not modelled.
- `console.log` diagnostics are not modelled, including the error message that `hasanah.getAyah` logs.
- Configuration values other than a natural number of minutes (missing, fractional, non-numeric) are not modelled.
- Record fields of any other JavaScript type are not modelled. String fields are strings and the verse number is an integer: no `NaN`, no fractions, and no `null` (which would render as `null` rather than `undefined`).
- Scheduler.Extension.Activate: requires that the extension is not yet activated. A second activation of the same loaded module, with a second closure and its own interval, is not modelled.
- Scheduler.Extension.Activate: records `minutes × 60000` ms as the period. Node sets a period of 0, or one above 2147483647 ms (a delay of 35792 minutes or more), to 1 ms, so such an interval fires every millisecond. That clamping is not modelled.
- Scheduler.Extension.OnConfigChange: records the new period as `minutes × 60000` ms, without the Node clamping described for `Activate`.
- Decimal.IntToString: covers every Dafny integer, but a JavaScript number renders this way only when it is a safe integer (below 2^53 in magnitude). Larger numbers are not exact, and from 10^21 on a template literal gives exponent notation (`1e+21`). The verse number is assumed to be a safe integer.
- Commands.GetAyah: assumes that what `getSpecificAyah` throws is an object. If it rejects with `null` or `undefined`, reading `error.message` in the catch (line 97) throws in turn, nothing is shown, and the command's promise rejects. The model always shows the annotated fallback for `Threw`.
