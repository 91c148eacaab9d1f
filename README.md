# Holyrics Companion module: polling core in Dafny

This project models the core of the Companion module for Holyrics (`main.js`). The module polls a Holyrics presentation server over HTTP and copies what it reads into a state dictionary. The host application shows that dictionary as variables and feedbacks.

The model covers:

- **The countdown heuristic** (`extractCountdownTimeFromPresentation`), in `countdown.dfy`. It gates on the presentation's `type`, `slide_number`, `total_slides` and `slides`. It splits the first slide's text on `"\n"` and takes row 0 of two rows or row 1 of three. It returns that row only if it matches `^[\d:.]*$`. In every other case it returns `null`. One case throws in the source: a gated descriptor whose `slides` array is empty, where `p.slides[0].text` raises a TypeError. The model returns `Err(MissingFirstSlide)` for it.
- **JavaScript `split` with one separator character**, in `js_string.dfy`. Joining the pieces is proved to give back the text, splitting the join of separator-free pieces to give back the pieces, and a split to give one piece more than there are separators. These facts let the countdown lemmas be stated in terms of the slide text itself.
- **One polling tick**, in `state_merge.dfy` as the function `NextState` and in `module_instance.dfy` as the method `ModuleInstance.Tick`. `Tick` writes the state dictionary key by key:
  - Eleven keys are copied from the `data` of five decoded responses. A key becomes `undefined` when that `data` is absent.
  - Then `countdown` is set. It is `''` when the presentation data is absent or the heuristic gives `null`, and the heuristic's string otherwise.
- **Timer restart** (`initPolling`), in `timers.dfy` and `module_instance.dfy`. The instance clears its previous interval before it schedules a new one. A ghost set records every interval the instance has scheduled. The object invariant says at most one of them is still live.
- **Configuration update** (`configUpdated`, `init`). It records the config, builds the Bible version choices (`{id: key, label: title}`, same length and order) and restarts polling.
- **The request URL** of `do_command`: `http://{host}:{port}/api/{cmd}?token={token}`, built from the config current at the call. A parser for that shape is proved to be its inverse in both directions, as long as the host has no `:` and the command no `?`.

Some behaviours of `main.js` are easy to misread; the model follows the code:

- A missing `data` leaves the key holding `undefined` (`Value.Undefined`), not `''`. Only `countdown` falls back to `''`.
- A single-line slide text such as `"12:34"` gives one row, so the heuristic gives `null`. It does not give `"12:34"`.
- A gated presentation with an empty `slides` array makes the tick throw. The source does not treat it as an empty countdown. The eleven direct writes have already happened, so they stay, `countdown` keeps its old value, and the host is not notified (`NextState` gives `Aborted`). The state is therefore not published atomically.
- The five commands of a tick are awaited one after another, not concurrently. A response body that is not valid JSON makes `JSON.parse` throw and ends the tick. No single response is degraded on its own. The model receives the responses already decoded.
- `configUpdated` reads `bible_versions.data` without a guard. If that data is missing, `.map` throws. The config is then already replaced, but neither the version choices nor the polling interval change (`ConfigUpdated` returns `false`). `init` does not await `configUpdated`, so `init` still empties the state.

## Model

| member | source | states |
|---|---|---|
| Countdown.ExtractCountdown | main.js:78-93 | throws exactly when the descriptor passes the gate and its `slides` array is empty; any string result comes from a descriptor that passes the gate, and every character of it is a digit, `:` or `.` |
| Countdown.CountdownOfRejected | main.js:79-84 | a null descriptor gives `null`, and so does, each on its own, a `type` that is neither `unknown` nor `countdown`, a `slide_number` or `total_slides` other than 1, or a missing `slides` array |
| JsString.Split | main.js:86 | `split("\n")` always yields at least one piece, so the row count is never zero |
| Countdown.CountdownOfTwoLines | main.js:86-92 | for a gated descriptor whose first slide text is `a + "\n" + b` with no other newline, the result is `a` if `a` matches the clock pattern and `null` otherwise |
| Countdown.CountdownOfThreeLines | main.js:86-92 | for the text `a + "\n" + m + "\n" + b` with no other newline, the result is the middle line `m` if it matches the clock pattern and `null` otherwise |
| Countdown.CountdownOfOtherLayouts | main.js:86-89 | a first-slide text with neither one nor two newlines (one line in particular) gives `null` |
| Countdown.CountdownIsALine | main.js:86-92 | conversely, a result `t` is a whole line of the text: the text is `head + t + "\n" + tail`, where `head` is empty or one newline-terminated line, and `t` matches the clock pattern |
| Countdown.CountdownExampleThreeLines | main.js:86-92 | `"A\n12:34.5\nB"` gives `"12:34.5"` |
| Countdown.CountdownExampleTitleFirst | main.js:86-92 | `"Title\n12:34"` gives `null`, because row 0 `"Title"` is not clock-like |
| Countdown.CountdownExampleSingleLine | main.js:86-89 | `"12:34"` (one row) gives `null` |
| Countdown.CountdownExampleEmptyRow | main.js:90-92 | `"\nEnd"` gives the empty string: an empty candidate row matches the pattern |
| JsString.SplitLength | main.js:86 | `split("\n")` yields one piece more than the number of newlines |
| JsString.SplitPiecesFree | main.js:86 | no piece of a split contains the separator |
| JsString.JoinSplit | main.js:86 | joining the pieces with the separator gives back the text |
| JsString.SplitJoin | main.js:86 | splitting the join of separator-free pieces gives back exactly those pieces |
| JsString.SplitFree | main.js:86 | a text without the separator splits into itself alone |
| JsString.SplitAfterFree | main.js:86 | a separator-free prefix followed by the separator becomes the first piece |
| JsString.SplitTwo | main.js:86 | `a + "\n" + b` with newline-free parts splits into exactly `[a, b]` |
| JsString.SplitThree | main.js:86 | `a + "\n" + b + "\n" + c` with newline-free parts splits into exactly `[a, b, c]` |
| JsString.Decimal | main.js:137 | the port as a template literal writes it: at least one character, all decimal digits, no leading zero |
| JsString.DecimalRoundTrip | main.js:137 | reading the rendered digits gives back the port number |
| StateMerge.CountdownText | main.js:118-127 | the value stored under `countdown` is a string that matches the clock pattern (possibly empty), unless the heuristic throws |
| StateMerge.WriteDirect | main.js:106-116 | the eleven direct writes only add or overwrite keys: no key is removed, and `countdown` is neither added nor changed |
| StateMerge.NextState | main.js:106-127 | a tick completes exactly when the countdown value can be computed without the heuristic throwing, and a completed tick leaves a string under `countdown` |
| StateMerge.TickWritesExactlyItsKeys | main.js:106-127 | a completed tick adds exactly the twelve keys to the dictionary's keys; a tick that throws adds the eleven direct keys |
| StateMerge.TickKeepsOtherKeys | main.js:106-127 | every other key keeps its value, and a tick that throws also leaves `countdown` as it was |
| StateMerge.TickCopiesOrigins | main.js:106-116 | each direct key holds its origin, named by JSON key: `show_alert` is `GetAlert` data `show`; `slide_id`, `slide_type`, `slide_name`, `song_id`, `reference_id` and `slide_number` are the same-named presentation fields; `slide_count` is `total_slides`; `f8_active`, `f9_active` and `f10_active` are the whole `data` of F8, F9 and F10; each is `undefined` when its data is absent |
| StateMerge.TickCountdown | main.js:118-127 | after a completed tick `countdown` is a string: `''` when the presentation data is absent or the heuristic gives `null`, otherwise the heuristic's result |
| StateMerge.TickAbortsOnlyOnEmptySlides | main.js:79-86 | a tick throws exactly when the presentation passes the gate with an empty `slides` array |
| StateMerge.TickWithoutData | main.js:106-127 | with every response's data absent the tick completes: all eleven direct keys are `undefined` and `countdown` is `''` |
| StateMerge.TickIdempotent | main.js:106-127 | running a tick again over the same responses leaves the state and the outcome unchanged |
| Instance.ModuleInstance.Tick | main.js:100-131 | the interval body turns the dictionary into `NextState(old state, responses)`; it publishes exactly when the tick completes |
| Instance.ModuleInstance.InitPolling | main.js:97-100 | clears the previous interval if there is one, then schedules a fresh one; afterwards the only live interval of this instance is the new `pollTimer`, and no other host interval changes |
| Instance.ModuleInstance.ConfigUpdated | main.js:21-33 | records the config; with version data present it replaces the choices and restarts polling with exactly one live interval; without it, choices, `pollTimer` and the host's intervals stay unchanged |
| Instance.ModuleInstance.Init | main.js:12-15 | applies the configuration update, then empties the state dictionary whatever the update's outcome; with version data it replaces the choices, clears the previous interval and schedules exactly one fresh one; without it, choices, `pollTimer` and the host's intervals stay unchanged |
| CommandClient.RequestUrl | main.js:137 | the URL starts with `http://` followed by the host, ends with the token verbatim, and is exactly 20 characters longer than host, port digits, command and token together |
| Instance.ModuleInstance.CommandUrl | main.js:135-137 | the request target is `RequestUrl` of the config current at the call |
| Instance.ModuleInstance.constructor | main.js:8-10 | a new instance has no config, an empty state, no choices and no timer |
| Instance.VersionChoices | main.js:27 | the choice list has the same length and order as the version list, with `id = key` and `label = title` |
| Instance.AtMostOneActiveTimer | main.js:97-100 | at any point, at most one interval scheduled by the instance is live |
| Instance.UpdateTwice | main.js:21-33 | two configuration updates in a row leave exactly one interval of the instance live, and every interval it had before is cleared |
| Timers.TimerHost.SetInterval | main.js:100 | schedules an interval under a handle never issued before |
| Timers.TimerHost.ClearInterval | main.js:98 | unschedules the interval; clearing an interval that is already cleared changes nothing |
| CommandClient.ParseRequestUrlRoundTrip | main.js:137 | parsing the built URL gives back host, port, command and token, for a host without `:` and a command without `?`; the token may contain anything |
| CommandClient.ParseRequestUrlSound | main.js:137 | every URL the parser accepts is exactly the URL built from the parts it returns |

## Left out

- HTTP: `fetch`, the POST method, headers and JSON body, and `response.text()` (main.js:138-145) are network I/O. `do_command` is modelled only by the URL it targets. The decoded responses are parameters of `Tick` and `ConfigUpdated`.
- `JSON.parse` (main.js:26, 101-105) is not modelled. A body that is not JSON aborts the tick in the source. A response that decodes to `null` itself (so that `slide.data` throws) is outside the model: each response is taken to be an object.
- `setInterval` timing: when ticks fire, the one-second period, and overlapping or re-entrant ticks. A tick still in flight while the config changes is also left out. Each fired tick is one call of `Tick`.
- Host calls: `updateStatus`, `log`, `console.log`, `setVariableValues`, `checkFeedbacks`, `updateActions`, `updateFeedbacks`, `updateVariableDefinitions` and `runEntrypoint`. Their publication after a completed tick is only the `published` result of `Tick`. The `actions`, `feedbacks`, `variables` and `upgrades` modules are not part of this model.
- `getConfigFields` (main.js:36-62) is a UI schema. Its port range is taken as given: the port is a non-negative integer. `destroy` (main.js:17-19) only logs.
- Countdown.ExtractCountdown: models JavaScript's loose `!= 1` only for numbers and `true`. A string such as `"1"` also equals 1 loosely in JavaScript, but the model treats it as different. Numbers are integers, so a fractional slide number is represented only as "not 1".
- Countdown.ExtractCountdown: the first slide's `text` is taken to be a string. A missing `text` would throw in the source.
- Instance.ModuleInstance.ConfigUpdated: the version entries are taken to be objects. A version list that is missing or not an array is the `None` case. An entry that is `null` would throw in the source, and the model does not cover it.
