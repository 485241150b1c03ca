# cloudamqp CLI: table printer, readiness wait and config coercion

A Dafny model of three pieces of the CloudAMQP command-line client, with
proofs of what each promises.

- **Table printer** (`internal/table/table.go`), in `table.dfy` (module
  `Table`). `Printer` is a class whose fields are the columns, the rows and
  the writer. The writer is modelled as the sequence of `Fprintf` calls it
  has received. `New`, `AddRow` and `Print` are methods that update these
  fields in place, as the Go code does.
  - Column widths are byte lengths (`ByteLen`, Go's `len`).
  - fmt's `%-Ns` pads to N runes. A Dafny string has one element per rune,
    so this is `PadRight`.
  - `Text` gives the characters one `Fprintf` call writes.
  - `table_examples.dfy` states the two scenarios of
    `internal/table/table_test.go` as verified methods.
- **Readiness wait** (`waitForInstanceReady` in `cmd/wait.go`), in
  `wait.dfy` (module `Wait`). The ticker and the context deadline become a
  sequence of events, each either a tick or the deadline. A tick carries
  what that tick's `GetInstance` call returned.
  - `WaitForInstanceReady` is the loop, a method proved equal to the
    specification function `Await`.
  - The lemmas characterise `Await` event by event.
- **Config commands** (`cmd/instance_config.go`), in `instance_config.dfy`
  (module `InstanceConfig`) and `strconv.dfy` (module `Strconv`). These
  cover the type coercion of `set`, the single-key lookup of `get`, and the
  required `--id` check of `list`, `get` and `set`. Each command is a pure
  function:
  - its external outcomes are parameters: the API key lookup, the client's
    answers, and whether `ParseFloat` accepts the value;
  - its result records the external calls it made.
  - `Atoi` is modelled exactly: optional sign, decimal digits, 64-bit range.

`wrappers.dfy` holds the shared `Option` and `Result` types.

## Behaviour worth noting

- **Rendering is not idempotent.** `Print` adds 2 to every stored width
  each time it runs (`internal/table/table.go:58-60`), so a second call
  writes each line `2 * columns` runes wider. `RepaddingWidensEveryLine`
  proves the difference.
- **The wait fails fast.** A failed status fetch, whether the first or on
  any tick, ends the wait with that error (`cmd/wait.go:22-25,38-41`).

## Model

| member | source | states |
|---|---|---|
| Table.ByteLen | internal/table/table.go:28 | Go's `len` of a string, its UTF-8 byte count, lies between the rune count and four times it |
| Table.ByteLenAscii | internal/table/table.go:46 | on ASCII text, byte length and rune count agree |
| Table.Repeat | internal/table/table.go:74 | `strings.Repeat` of one character `n` times has exactly `n` characters |
| Table.RepeatAt | internal/table/table.go:74 | every character of a separator is a dash |
| Table.PadRight | internal/table/table.go:65 | a `%-Ns` field is as long as the wider of the text and `N` |
| Table.PadRightShape | internal/table/table.go:65 | a padded field begins with the whole cell (never truncated), followed by spaces only |
| Table.Printer.New | internal/table/table.go:23-36 | `New` creates one column per header, in order, each with width equal to the header's byte length; there are no rows and the writer is untouched; the invariant holds |
| Table.Text | internal/table/table.go:63-67 | definition: the characters one `Fprintf` writes with the format of lines 63-67; its properties are `TextEndsLine` and `TextField` |
| Table.TextEndsLine | internal/table/table.go:67 | every write, with or without columns, is non-empty and ends with the format's newline |
| Table.Render | internal/table/table.go:76-86 | definition: everything one `Print` writes; `RenderLines`, `RenderLayout` and `RepaddingWidensEveryLine` state what it is |
| Table.Printer.AddRow | internal/table/table.go:39-53 | a row of the wrong arity returns the mismatch error with expected and actual counts, and columns and rows are unchanged; otherwise each width becomes the max of the old width and the cell's byte length, headers are kept, and the row is appended at the end; the writer is untouched and the invariant holds |
| Table.Printer.Print | internal/table/table.go:56-87 | every stored width grows by exactly 2, rows are unchanged, the invariant still holds, and the writer is extended by exactly `Render` of the padded columns |
| Table.Printer.Emit | internal/table/table.go:63-86 | the writes of `Print` are: the header line, the separator line, then one line per row, all with the padded widths as format |
| Table.WidenedFits | internal/table/table.go:45-51 | accepting a row keeps the invariant: every width is at least its header's and each stored cell's byte length |
| Table.PaddedFits | internal/table/table.go:58-60 | padding keeps the invariant |
| Table.BuiltWidthIsLongest | internal/table/table.go:23-49 | with no `Print` in between, each column keeps its header, and its width is the longest byte length among the header and that column's cells |
| Table.RenderLines | internal/table/table.go:76-86 | `Print` writes exactly `len(rows) + 2` lines: header, separator, then the rows in insertion order, all with one format |
| Table.ColumnStartStep | internal/table/table.go:67 | each column starts one space after the end of the previous column's field |
| Table.TextField | internal/table/table.go:63-67 | when every argument fits, a written line is `ColumnStart(widths, n)` runes long, and from `ColumnStart(widths, i)` it holds cell `i` padded to its width, followed by a space, or by the newline after the last column |
| Table.RenderLayout | internal/table/table.go:63-86 | each line `Print` writes (headers, separators, rows) has the same length; column `i` starts at the same rune on every line and holds the whole cell, left-justified, then a space or the final newline |
| Table.LineCellsFit | internal/table/table.go:45-74 | under the invariant, every header, separator and cell is at most as many runes long as its column is wide |
| Table.RepaddingWidensEveryLine | internal/table/table.go:58-60 | a rendering after another `Print` has the same number of lines, each `2 * columns` runes longer, and differs from the first as soon as there is a column |
| TableExamples.FiveColumnTable | internal/table/table_test.go:9-37 | five headers and two rows print as four lines |
| TableExamples.ColumnMismatch | internal/table/table_test.go:39-47 | a three-cell row for a two-column printer is refused with the mismatch error and is not stored |
| Wait.Verdict | cmd/wait.go:34-47 | a deciding event returns nil exactly on a ready snapshot and the timeout exactly on the deadline |
| Wait.Watch | cmd/wait.go:32-52 | definition: the loop on a sequence of events; `WatchStep` and `WatchStopsAt` state what it does |
| Wait.Await | cmd/wait.go:21-52 | definition: the whole wait; `AwaitStopsAt` and `AwaitOutcome` state what it does |
| Wait.WaitForInstanceReady | cmd/wait.go:12-53 | the loop's error, fetch count, consumed events and notices are those of the specification `Await` |
| Wait.WatchStep | cmd/wait.go:32-51 | one loop iteration: the deadline times out, a failed fetch fails, a ready snapshot succeeds, and a not-ready snapshot continues on the remaining events |
| Wait.WatchStopsAt | cmd/wait.go:32-52 | the loop ends at the first deciding event `j` and at no other; it consumes `j + 1` events, fetches once per tick among them, returns that event's verdict, and writes one "still waiting" line per pending tick, then "ready" if the instance became ready |
| Wait.FirstDecisive | cmd/wait.go:32-36 | every event sequence with a deadline has a first deciding event, so the loop always ends |
| Wait.AwaitStopsAt | cmd/wait.go:21-52 | a failed first fetch returns its error, and a ready first fetch returns nil; both happen with one fetch, no event consumed and no notice; otherwise the wait writes "waiting" and stops at the first deciding event with `1 + ticks` fetches |
| Wait.AwaitOutcome | cmd/wait.go:22-50 | fetches never exceed one plus the consumed events; the wait succeeds only after a ready snapshot, times out only on the deadline, and fails with a cause only when a fetch failed with that cause |
| Strconv.Atoi | cmd/instance_config.go:131 | an accepted string is an optional sign and at least one digit, and its value lies in 64-bit range; a negative value needs a leading minus |
| Strconv.AtoiSignDigits | cmd/instance_config.go:131 | every optional sign (`+` or `-`) followed by one or more digits is accepted exactly when its value fits in 64 bits, with that value; leading zeros, `+120` and `-0` included. With `Atoi`'s own contract this characterises the accepted strings both ways |
| Strconv.AtoiItoa | cmd/instance_config.go:131 | `Atoi` reads back the decimal form of every 64-bit integer |
| InstanceConfig.ToLower | cmd/instance_config.go:125-129 | lowering keeps the length, turns every upper-case ASCII letter into its lower-case letter, and keeps every other character |
| InstanceConfig.Message | cmd/instance_config.go:32-92 | the returned error texts: an API-key failure ends with its cause, kept whole; a client error is returned unchanged; a missing setting's name is quoted whole |
| InstanceConfig.Coerce | cmd/instance_config.go:124-137 | the chain gives `true`/`false`/`null` (any case) exactly on those keywords, and an integer exactly when `Atoi` accepts (with that value); a float exactly when it is no keyword, `Atoi` rejects it and `ParseFloat` accepts it; the raw string, unchanged, exactly when nothing accepts it |
| InstanceConfig.KeywordsAreNotIntegers | cmd/instance_config.go:125-131 | no spelling of `true`, `false` or `null` is accepted by `Atoi` |
| InstanceConfig.CoerceIntegers | cmd/instance_config.go:131-132 | the decimal form of a 64-bit integer (such as `120`) is sent as that integer, never as a float |
| InstanceConfig.ConfigList | cmd/instance_config.go:29-55 | an empty `--id` fails with "instance ID is required" and makes no call; a non-empty id first reads the API key; if that fails, the command returns "failed to get API key" with that cause and makes no other call; otherwise it fetches that instance's config with the key, and returns the client's error unchanged if the fetch fails; it succeeds exactly when both succeed, returning the fetched config |
| InstanceConfig.ConfigGet | cmd/instance_config.go:64-96 | the same id check, key failure (one call, its cause) and fetch (the client's error returned unchanged); it succeeds exactly when the setting exists, with a map holding only that key and its value; a missing setting fails with "setting not found" |
| InstanceConfig.GetIsRestriction | cmd/instance_config.go:85-90 | what `get` prints is the fetched config restricted to the requested key |
| InstanceConfig.ConfigSet | cmd/instance_config.go:106-144 | the same id and key checks; once past them, the one update call carries the key, the id and a payload whose only key is the setting, bound to `Coerce` of the value; it succeeds exactly when the update does, and a failed update returns the client's error unchanged |

## Left out

- I/O: the writer of the printer, standard error of the wait, standard
  output of `list`/`get`. The model records what is written: the
  `Fprintf` calls, the progress notices and the returned values.
- The wait's elapsed-time texts (`time.Since`, `Round(time.Second)`) and
  the real ticker and deadline are left out. Time is the order of the
  events, and an event sequence without a deadline is excluded because the
  context deadline always fires.
- `GetInstance`, `GetRabbitMQConfig`, `UpdateRabbitMQConfig` and
  `getAPIKey` are remote or foreign calls. Their outcomes are parameters.
- `strconv.ParseFloat` is floating-point parsing. It is the parameter
  `parsesAsFloat`, and a float is kept as the accepted literal.
- `json.MarshalIndent` formatting, and its error branch
  (`cmd/instance_config.go:48-51,86-89`), are left out. It cannot fail on
  these maps.
- Cobra wiring and flag registration, the `config` parent command, and the
  other commands (`cmd/instance.go`, `cmd/instance_account.go`,
  `cmd/instance_get.go`, `cmd/rotate_key.go`, `cmd/team_list.go`) are left
  out. They are glue around the API.
- The recorded-API integration test `client/instances_lifecycle_vcr_test.go`
  is left out.
- Table.Printer.AddRow: the stored row is a value. Go's variadic slice may
  alias a caller's slice, and that sharing is not modelled.
- Table.Text does not model how fmt writes a cell containing a newline, or
  invalid UTF-8 (Dafny strings hold only valid code points). A mismatched
  argument count cannot occur, because `AddRow` enforces arity.
- InstanceConfig.ToLower lowers ASCII letters only. Go's `strings.ToLower`
  also lowers other letters, but none of them becomes a letter of `true`,
  `false` or `null`, so the coercion is the same.
- The Go error texts wrap their causes with `%w`. `InstanceConfig.Message`
  gives the text, but the wrapping chain is not modelled.
- TableExamples.FiveColumnTable states the line count that the test
  checks, not the test's `strings.Contains` checks on the output text.
