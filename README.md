# go-fortune: the interaction state machine, in Dafny

go-fortune is a terminal program that asks for a date, looks up that day's
fortune and shows it. Its screen is a Bubble Tea model (`cmd/fortune.go`): a
record with a text input, a spinner, two phase flags (`typing`, `loading`), the
last error and the last date; `Update` turns one message into a new record and a
command, and `View` turns the record into the screen. This project models that
controller, the Go string helpers it depends on, and the string part of the URL
assembly, and proves what the controller promises.

Modules:

- `Wrappers` (wrappers.dfy): `Option`, used for Go's nil-or-error values and for
  the panic of an out-of-range index.
- `Text` (text.dfy): `strings.TrimSpace` over Go's `unicode.IsSpace`, and
  `strings.Split` with a one-character separator, with `Join` as its inverse.
- `Url` (url.dfy): `strings.Split(postfix, "_")[1]` and the concatenation
  base ++ prefix ++ date ++ field.
- `Fortune` (fortune.dfy): the `model` record, the messages, the commands,
  `Update`, `View`, runs over message sequences.
- `Runtime` (runtime.dfy): the controller inside the Bubble Tea runtime, with a
  count of fetches started and not yet delivered. Each fetch delivers exactly
  one `gotFortune` message (cmd/fortune.go:96-104). Events interleave freely.

The text input and the spinner are foreign widgets. The model keeps the text
input's value and cursor (`TextInput`) and an opaque spinner state. `Update`
takes the widgets' update functions as a parameter (`Widgets`), so every lemma
holds whatever those functions do to that state.
Key messages are identified by their `String()` name, as the source's
`switch msg.String()` does.

Read as four exclusive phases (editing, fetching, done, failed), the controller
would be expected to clear stale data on each phase change. The code, and so the
model, does not:

- Entering the loading phase does not clear `err` or `date`.
- A successful completion does not clear `err`.
- A completion sets `loading` to false whatever the phase.

`Runtime.SysInv` then shows that `err` is always empty while typing or loading.
So a success completion in a reachable state still shows the success screen
(`Runtime.CompletionShowsResult`).

## Model

| member | source | states |
|---|---|---|
| `Text.TrimLeft` | cmd/fortune.go:120 | the result is a suffix of the input, everything dropped is space, and it does not start with a space |
| `Text.TrimRight` | cmd/fortune.go:120 | the result is a prefix of the input, everything dropped is space, and it does not end with a space |
| `Text.TrimSpace` | cmd/fortune.go:120 | the trimmed query is empty exactly when the buffer is all space, and otherwise starts and ends with a non-space |
| `Text.TrimSpaceExact` | cmd/fortune.go:120 | any string made of leading spaces, a trimmed core and trailing spaces trims to exactly that core |
| `Text.TrimSpaceIdempotent` | cmd/fortune.go:120 | trimming twice is trimming once |
| `Text.Split` | cmd/fortune.go:231 | at least one field, no field holds the separator, one field exactly when the separator is absent, and joining the fields gives back the input |
| `Text.SplitSecondField` | cmd/fortune.go:231 | for a string written as text before the first separator, the separator, a separator-free field and a rest that is empty or starts with the separator, field 0 is the leading text and field 1 is that field |
| `Url.PostfixField` | cmd/fortune.go:229-231 | `Split(postfix, "_")[1]` exists exactly when the postfix contains `_` (otherwise the index panics), and it never holds `_` |
| `Url.BuildUrl` | cmd/fortune.go:231-233 | a URL is produced exactly when the postfix contains `_` |
| `Url.BuildUrlFormat` | cmd/fortune.go:231-233 | the URL is base ++ prefix ++ date ++ the text after the first `_` of the postfix up to the next `_` or the end |
| `Url.BuildUrlGuardedPostfix` | cmd/fortune.go:229-233 | a postfix of the form `_` + digits yields its digits, leading zeros kept |
| `Fortune.Init` | cmd/fortune.go:82-86 | the program starts typing, not loading, with no error and the given text input |
| `Fortune.Update` | cmd/fortune.go:111-168 | keeps "never both typing and loading"; changes the buffer only while typing; issues a fetch exactly for enter while typing with a non-blank buffer, keyed by the trimmed buffer |
| `Fortune.CtrlCQuits` | cmd/fortune.go:116-117 | ctrl+c in any state returns `Quit` and leaves every field unchanged |
| `Fortune.EnterSubmits` | cmd/fortune.go:118-129 | enter while typing with a non-blank buffer sets typing=false, loading=true, emits one fetch of the trimmed buffer and leaves err, date and buffer unchanged |
| `Fortune.EnterBlankIsForwarded` | cmd/fortune.go:118-157 | enter while typing with a whitespace-only buffer keeps the flags, issues no fetch and only forwards the key to the text input |
| `Fortune.EscResets` | cmd/fortune.go:131-137 | esc when neither typing nor loading sets typing=true and err=None, returns no command, and keeps date and the entered text |
| `Fortune.EscKeepsPhase` | cmd/fortune.go:131-165 | esc while typing or loading changes neither flag and is delegated to the active widget |
| `Fortune.GotFortuneStores` | cmd/fortune.go:140-150 | a completion always clears loading and keeps typing; an error is stored with the date unchanged; a success stores the date with the error unchanged |
| `Fortune.Delegate` | cmd/fortune.go:153-167 | the fall-through: only the active widget's part changes (the input only while typing, the spinner only while loading and not typing), flags, err and date never do, nothing changes when neither flag is set, and the command is the active widget's or none |
| `Fortune.UnhandledIsDelegated` | cmd/fortune.go:153-167 | every message not consumed by lines 116-150, including enter and esc whose guards fail, goes only to the text input while typing, only to the spinner while loading, and otherwise changes nothing and returns no command |
| `Fortune.RunConcat` | cmd/fortune.go:111-168 | messages are processed one at a time in order: running a then b is running b from the state a left |
| `Fortune.RunKeepsInv` | cmd/fortune.go:111-168 | any sequence of messages from a state that is not both typing and loading keeps that invariant |
| `Fortune.NeverTypingAndLoading` | cmd/fortune.go:82-141 | from the initial state, no message sequence reaches typing && loading |
| `Fortune.InputFrozenUntilEsc` | cmd/fortune.go:131-165 | once typing is off, no message sequence without esc turns it back on or changes the entered text |
| `Fortune.ResubmitKeepsBuffer` | cmd/fortune.go:118-137 | submit, any esc-free messages, then esc: the entered text is the submitted one, the prompt returns exactly when loading is off when esc arrives, and then with no error |
| `Fortune.View` | cmd/fortune.go:170-185 | exactly one screen, by priority typing, then loading, then error, then success, embedding the input, the spinner, the error or the date |
| `Fortune.ViewWaitingIffLoading` | cmd/fortune.go:170-176 | in a state satisfying the invariant, the spinner screen shows exactly while loading |
| `Runtime.SysStep` | cmd/fortune.go:96-104 | a delivered message goes through `Update` and adds one fetch in flight exactly when it returns `StartFetch`; a completion, possible only with a fetch in flight, consumes exactly one and is the fetch's single `gotFortune`; a `gotFortune` from the terminal and a completion with none in flight change nothing |
| `Runtime.SysStepKeepsInv` | cmd/fortune.go:96-150 | every event keeps: a fetch is in flight exactly while loading, typing and loading exclude each other, no error while typing or loading |
| `Runtime.SysRunKeepsInv` | cmd/fortune.go:96-168 | the runtime invariant holds after any sequence of events |
| `Runtime.AtMostOneFetch` | cmd/fortune.go:118-150 | from program start at most one fetch is ever in flight, and one is in flight exactly while the spinner is shown |
| `Runtime.NoSecondFetch` | cmd/fortune.go:118-129 | no message starts a fetch while one is in flight |
| `Runtime.CompletionShowsResult` | cmd/fortune.go:140-185 | completing the fetch in flight shows the failure screen with the error, or the success screen with the payload and no error |
| `Runtime.TicksKeepWaiting` | cmd/fortune.go:160-165 | any number of spinner ticks while a fetch is in flight keep the spinner and leave error, date and buffer unchanged |
| `Runtime.SubmitThenSuccess` | cmd/fortune.go:118-185 | submitting a non-blank buffer shows the spinner; a success completion then shows the payload |
| `Runtime.ScenarioSuccess` | cmd/fortune.go:118-185 | buffer "20240101", enter, success "good fortune": the spinner is shown, then "good fortune" |
| `Runtime.ScenarioBlank` | cmd/fortune.go:118-121 | buffer "   ", enter: no fetch, the prompt stays |
| `Runtime.ScenarioFailureThenReset` | cmd/fortune.go:131-180 | a failure "network unreachable" shows that error; esc then shows the prompt with the old buffer and no error |

## Left out

- `scrape` (cmd/fortune.go:188-215): an HTTP GET, HTML parsing and printing. The fetcher is the `Complete` event of `Runtime`, carrying any error or any date.
- Configuration loading and `os.Exit` in `getUrl` (cmd/fortune.go:218-227): file-system I/O. Base, prefix and postfix are parameters of `Url.BuildUrl`.
- Command registration, `init` and the program start-up in `main` (cmd/fortune.go:42-94), except the initial field values kept in `Fortune.Init`.
- The internals of the text input and the spinner, including the 8-character limit (cmd/fortune.go:75), the width and `textinput.Blink` in `Init` (cmd/fortune.go:108): foreign library code. The text input is modelled by its value and cursor; its remaining state (scroll offset, blink, focus) is not, so the widget functions are taken to depend only on value, cursor and message. The 8-character bound is not claimed.
- The rendered strings of `View`: the Korean literals and the widgets' own `View()` output. `Fortune.View` returns which screen is shown and what it embeds.
- The initial buffer, today's date from `time.Now()` (cmd/fortune.go:77): a clock read, taken as a parameter.
- Program exit on `Quit` (cmd/fortune.go:117): `Runtime.SysRun` keeps delivering events after it, so for widget update functions as above every property is proved over a superset of the real traces, and holds for them.
- The asynchronous execution of commands and `tea.Batch`: commands are returned data; `Runtime` models their effect as interleaved events.
- Invalid UTF-8 in Go strings: strings are sequences of code points.
