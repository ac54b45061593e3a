# multiquery (mq): a Dafny model of its selection, rendering and configuration logic

`mq` runs one SQL statement against every matching database on a MySQL
server, optionally through an SSH tunnel. Most of the program is I/O. This
project models the four pieces of `cmd/root.go` that compute something, and
proves properties of them:

- **Target selection** (`Targets`): the loop in `runMysql` that walks the rows
  of `SHOW DATABASES` and appends each name that passes the prefix/ignore
  test. The test of cmd/root.go:64-69 is `Targets.Keep`, and the row-to-name
  step of lines 62-63 is `Targets.Listed`. `Targets.SelectTargets` is that
  loop. It is proved equal to the filter `Targets.Selected`, and the lemmas
  say what the filter keeps.
- **Row rendering** (`Rows`): the row loop in `executeQuery`. It converts each
  scanned row of nullable byte strings into a reused string buffer (an
  `array<string>` here). `Rows.ConvertRow` is the inner conversion loop. A
  single column value is rendered by `Rows.Render`: NULL becomes the two
  characters `\N`. A failed scan ends the output for that database.
  `Rows.ExecuteQuery` is proved to print exactly `Rows.Printed(scans)`,
  the specification function for the output: the converted rows before the
  first failed scan.
- **Option-file merge** (`MyCnf`, `Cmd.Globals.LoadMyCnf`): `loadMyCnf` folds
  over the ini sections in order. Each non-empty value for `host`, `port`,
  `dbname`, `user` or `password` that differs from the current setting
  overwrites it. A section is a `map<string, string>`, and a missing key
  reads as `""`, as go-ini's `Key(k).String()` does. Each of the five
  `if v != "" && v != current { current = v }` statements is an assignment
  through `MyCnf.Override`, which is that statement as a function.
  `MyCnf.ApplySection` is one pass of the loop (`Cmd.Globals.LoadSection`)
  and `MyCnf.Merge` the whole fold, the specification function that
  `Cmd.Globals.LoadMyCnf` is proved against.
- **Key-path expansion** (`KeyPath`, `Cmd.Globals.ExpandKeyPath`): a private
  key path containing `~/` loses its first `~` and is joined under the home
  directory. `KeyPath.Expanded` is the block at cmd/root.go:168-175 as a
  function of the old path and the home directory. `GoStrings.DeleteFirst`
  is the `Replace` call, and `KeyPath.Join` the `path.Join` call.

`GoStrings` gives the Go `strings` functions these rely on: `HasPrefix`,
`Contains` (true for the empty substring) and `Replace(s, "~", "", 1)`.
`Cmd.Globals` is a class holding the process-wide variables that the core
updates in place (`dbHost`, `dbPort`, `dbName`, `dbUser`, `dbPass`,
`privkeyPath`).

Modelling choices:
- Go strings are byte strings. Here they are Dafny strings, one character per
  byte, with the byte's code. Column values are `seq<byte>`. `string(raw)` is
  `Rows.AsString`, and `Rows.AsStringRoundTrip` shows it loses nothing.
- `path.Join(home, rest)` is modelled as plain concatenation with a single
  `/` at the junction (`KeyPath.Join`): trailing slashes of `home` and leading
  slashes of `rest` are merged into one.
- The home directory from `user.Current()` is a parameter (`Option<string>`,
  `None` when the lookup fails). The `log.Fatal` that follows such a failure
  is the `fatal` result of `ExpandKeyPath`.
- The filter follows the code, which does not match the flag descriptions in
  cmd/main.go:46-47. There, `--dbignore` "ignores any database containing this
  string" regardless of the prefix. In the code the ignore string is consulted
  only when a prefix is set, and an empty ignore string then excludes every
  name (`Contains(name, "")` is true). Both differences are listed under
  "## Findings".

## Model

| member | source | states |
|---|---|---|
| `GoStrings.ContainsIffOccurs` | cmd/root.go:65 | `Contains(s, sub)` holds exactly when some index of `s` starts a copy of `sub` |
| `GoStrings.ContainsEmpty` | cmd/root.go:65 | the empty string is contained in every string |
| `GoStrings.MissingCharNotContained` | cmd/root.go:65 | a string lacking one of `sub`'s characters does not contain `sub` |
| `GoStrings.FirstIndex` | cmd/root.go:174 | the index at which `Replace` with count 1 cuts is a `~`, and no `~` comes before it |
| `GoStrings.DeleteFirst` | cmd/root.go:174 | replacing the first `~` by nothing leaves a string without `~` unchanged; otherwise it removes exactly one `~`, namely one with no `~` before it, and keeps the characters before and after it in order |
| `Targets.Listed` | cmd/root.go:61-63 | one name per row in server order; a row whose scan failed contributes `""` because the scan error is discarded |
| `Targets.SelectTargets` | cmd/root.go:61-72 | the appending loop returns exactly the filter `Selected` of the listed names |
| `Targets.SelectedIsSubsequence` | cmd/root.go:61-70 | the targets are a subsequence of the server's list: server order is kept and nothing is added |
| `Targets.SelectedCount` | cmd/root.go:61-70 | every kept name occurs in the targets exactly as often as on the server's list, and a rejected name not at all (nothing duplicated or dropped) |
| `Targets.SelectedWithPrefix` | cmd/root.go:64-67 | with a non-empty prefix, a name is a target iff it is listed, starts with the prefix and does not contain the ignore string |
| `Targets.EmptyPrefixSelectsAll` | cmd/root.go:64-69 | with an empty prefix the targets are the whole list, whatever the ignore string |
| `Targets.EmptyIgnoreSelectsNothing` | cmd/root.go:65 | a non-empty prefix with an empty ignore string yields no targets at all |
| `Targets.PrefixAndIgnoreScenario` | cmd/root.go:64-67 | names `app_1`, `app_temp`, `app_2` with prefix `app_` and ignore `temp` select `app_1`, `app_2` |
| `Targets.PrefixOnlyScenarioAsWritten` | cmd/root.go:65 | names `app_1`, `app_2`, `other` with prefix `app_` and no ignore string select nothing |
| `Targets.IgnoreWithoutPrefixAsWritten` | cmd/root.go:68-69 | with no prefix, a name containing the ignore string is still selected |
| `Targets.IntendedSelectedIsDifference` | cmd/root.go:64-69 | the corrected filter keeps server order and selects exactly the listed names matching the prefix (if set) minus those containing the ignore string (if set) |
| `Targets.IntendedPrefixOnlyScenario` | cmd/root.go:64-67 | the corrected filter selects `app_1`, `app_2` from `app_1`, `app_2`, `other` under prefix `app_` with no ignore string |
| `Targets.IntendedIgnoreOnlyScenario` | cmd/root.go:64-69 | the corrected filter drops `app_temp` under ignore `temp` without a prefix |
| `Rows.AsStringRoundTrip` | cmd/root.go:134 | `string(raw)` keeps every byte: the bytes can be read back from the string |
| `Rows.RenderRow` | cmd/root.go:130-136 | a converted row has one entry per column, entry `i` being the rendering of column `i` alone |
| `Rows.RenderInjective` | cmd/root.go:131-135 | two column values render alike only if equal, or if one is NULL and the other the two bytes `\N`; so NULL never renders like a non-NULL empty value |
| `Rows.NullCollidesWithBackslashN` | cmd/root.go:131-134 | NULL and a non-NULL value `\N` do render alike, while NULL and a non-NULL empty value do not |
| `Rows.PrintedIsPrefixBeforeFailure` | cmd/root.go:123-139 | the printed rows are the renderings, in order, of the scans before the first failed scan, and printing stops only at the end or at a failed scan |
| `Rows.NothingAfterFailure` | cmd/root.go:124-128 | whatever follows a failed scan never reaches the output |
| `Rows.ConvertRow` | cmd/root.go:130-136 | after the conversion loop every slot of the reused buffer holds the rendering of the matching column of the row just scanned, so nothing of an earlier row survives |
| `Rows.ExecuteQuery` | cmd/root.go:108-139 | with columns, the printed rows are exactly `Printed(scans)`, each as wide as the column list, although one buffer is reused for all rows; without columns nothing is printed |
| `MyCnf.Override` | cmd/root.go:261-263 | a setting becomes the section's value whenever that value is non-empty (the "differs" test never changes the outcome) and stays otherwise |
| `MyCnf.ApplySectionFields` | cmd/root.go:261-275 | one section updates each of the five settings from its own key only |
| `MyCnf.MergeStep` | cmd/root.go:260-276 | merging one more section is applying it to the settings merged so far |
| `MyCnf.LastNonEmptyIs` | cmd/root.go:260-276 | the folded value is a non-empty value followed only by empty ones, or the start value when all are empty |
| `MyCnf.MergeIsLastNonEmpty` | cmd/root.go:259-276 | after the merge each setting is the last non-empty value its key has across the sections in order, or its start value |
| `MyCnf.MergeKeepsUnset` | cmd/root.go:259-276 | a setting no section gives a non-empty value for is unchanged |
| `MyCnf.MergeTakesLastSupplied` | cmd/root.go:259-276 | a setting equals the value of the last section that supplies a non-empty one |
| `MyCnf.MergeFieldsIndependent` | cmd/root.go:259-276 | a setting's result depends only on its own start value, not on the other four |
| `MyCnf.MergeIdempotent` | cmd/root.go:259-276 | applying the same option file twice equals applying it once |
| `Cmd.Globals.LoadSection` | cmd/root.go:261-275 | one pass of the section loop leaves the five globals equal to `ApplySection` of their old values and the section, and the key path untouched |
| `Cmd.Globals.LoadMyCnf` | cmd/root.go:259-277 | the section loop leaves the five globals equal to `Merge` of their old values and the sections, and the key path untouched |
| `KeyPath.LeadingSlashes` | cmd/root.go:174 | counts the slashes the joined part starts with: all of them, and the character after them is not a slash |
| `KeyPath.TrailingSlashes` | cmd/root.go:174 | counts the slashes the home directory ends with: all of them, and the character before them is not a slash |
| `KeyPath.JoinShape` | cmd/root.go:174 | the joined path is the home directory without its trailing slashes, exactly one `/`, then the rest without its leading slashes; no slash touches the junction slash on either side |
| `KeyPath.JoinSlashRest` | cmd/root.go:174 | the `/` left at the front after the `~` is removed is absorbed by the junction |
| `KeyPath.ExpandedWithoutTildeSlash` | cmd/root.go:168 | a path without `~/` is left unchanged, and the home directory is not needed |
| `KeyPath.ExpandedWithTildeSlash` | cmd/root.go:168-175 | a path with `~/` loses exactly its first `~`, which may precede the `~/`, and is joined under the home directory; with no home directory the run stops |
| `KeyPath.ExpandedHomeRelative` | cmd/root.go:168-175 | `~/rest` becomes `rest` joined under the home directory |
| `Cmd.Globals.ExpandKeyPath` | cmd/root.go:168-175 | the key path becomes the expanded path; the fatal case is exactly a `~/` path with no home directory, and then the path is unchanged |

## Findings

| source | as written | input that shows it | evidently intended | confidence | as-written member | corrected member |
|---|---|---|---|---|---|---|
| cmd/root.go:65 | with a prefix set, a name is kept only if it does not contain the ignore string, and the empty default ignore string is contained in every name | prefix `app_`, no ignore string, names `app_1`, `app_2`, `other`: no targets, so the query runs nowhere | the ignore test applies only when an ignore string is given, selecting `app_1`, `app_2` | high; not executed | `Targets.PrefixOnlyScenarioAsWritten` | `Targets.IntendedSelectedIsDifference` |
| cmd/root.go:64-69 | the ignore string is consulted only inside the prefix branch | no prefix, ignore `temp`, names `app_temp`: `app_temp` is selected | the `--dbignore` flag ("ignores any database containing this string") applies with or without a prefix | medium; not executed | `Targets.IgnoreWithoutPrefixAsWritten` | `Targets.IntendedIgnoreOnlyScenario` |

`Targets.SelectTargets` models the loop as the program runs it. The
corrected filter is `Targets.IntendedSelected` (keep-test
`Targets.IntendedKeep`). `Targets.IntendedSelectedIsDifference` is proved
about it for all inputs, and `Targets.IntendedPrefixOnlyScenario` and
`Targets.IntendedIgnoreOnlyScenario` show it on the two inputs above.

## Left out

- The fan-out and completion loop of `runMysql` (cmd/root.go:78-101) is concurrency, so it is not modelled. It is not a barrier that returns. When `threaded` is false nothing ever sends on the channel, so control never gets past the receive at line 90 after the last query, and `log.Println("done")` at cmd/root.go:53 is never reached (the Go runtime may also abort the program as deadlocked instead of waiting). With no targets it receives before comparing the count, with the same outcome.
- Opening connections and running queries (`sql.Open`, `db.Query`, `rows.Columns`, cmd/root.go:58-60, 74, 105-107, 141) are database I/O, so they are inputs here. `SHOW DATABASES` becomes a sequence of scan results, a query's rows a sequence of `Rows.Scan`, and `rows.Columns()` an `Option<nat>`. A failed `sql.Open` at line 58 silently yields no targets; the model starts from the listed rows.
- `Rows.ExecuteQuery` requires every scanned row to have as many cells as there are columns. The driver guarantees this, and `executeQuery` does not check it.
- The output line format (`%s: %#v`, cmd/root.go:138) and the error messages at lines 110 and 126 are Go `fmt` formatting, so they are not modelled. The model returns the converted rows; the database-name tag and Go's quoting are not modelled.
- SSH setup in `runOverSSH` is network, terminal and crypto-library code whose behaviour cannot be seen. This covers the `ssh_config` lookups (cmd/root.go:150-166), key reading and parsing, `CheckPassword`, `decrypt`, the agent socket, `ssh.Dial`, the remote `cat` of the option file and `mysql.RegisterDialContext` (cmd/root.go:177-256, 279-300). `ViaSSHDialer` (cmd/root.go:34-41) is a one-line wrapper over the SSH client.
- Flag registration and defaults (cmd/main.go:40-54) are CLI plumbing. `Cmd.Globals` is constructed from whatever values the flags produced.
- Parsing of the option file by go-ini (`ini.Load`) is a foreign library, so the model takes the sections in the order `cfg.Sections()` returns them. Key inheritance from parent sections is not modelled.
- KeyPath.Join: models `path.Join` as concatenation with a single `/` at the junction. It does not model `path.Clean`'s other rewrites: removing `.` and `..` elements, collapsing inner double slashes, dropping a trailing slash of the result. Nor does it model that `path.Join` skips empty elements: with an empty home directory Go adds no slash (`path.Join("", "a/b")` is `a/b`), while `Join("", "a/b")` here is `/a/b`, so `Expanded("a~/b", Some(""))` is `Some("/a/b")` rather than `Some("a/b")`.
