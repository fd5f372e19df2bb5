# in-order: a Dafny model of the action sequencer

`in-order` runs a sequence of numbered "actions" forwards (do) or backwards
(undo) and records how far it got. Each action is a directory under a root
whose name begins with a digit. It holds a `do…` script and an `undo…` script
that are run through a configurable command. The configuration file (TOML)
names the root, the default command, per-action command overrides (the
`special` table) and the cursor `current_action`. The cursor counts the actions
considered applied.

This project models the core of that program:

- `text.dfy` (`Text`) holds the pieces of Rust's string library the core relies
  on. These are ASCII decimal digits, the decimal rendering of an unsigned
  integer, `starts_with`, `str::lines` and `str::words`.
- `actions.dfy` (`Actions`) models `src/config/action.rs`. It covers:
  - which root entries are action directories (`valid_action_dir`);
  - the first `do…`/`undo…` file of each (`select_files`);
  - the sort key `number`, which is the sum of the digits of the leading digit
    run, not the number they spell;
  - the override lookup under the decimal form of that key;
  - the stable sort by key;
  - the first-error-wins loop of `find_actions`;
  - `parse_command`;
  - `execute_command`, including the absent-script branch, which spawns nothing;
  - `do_command` and `undo_command`.
- `configuration.dfy` (`Configuration`) models `src/config/mod.rs`. It covers:
  - `Direction`;
  - `is_current_action`;
  - the buffer `set_current_action` builds and writes;
  - the `Config` object with its `actions` and `current_action` fields;
  - `perform`.

  `perform` checks the cursor, reverses the prefix in place for an undo pass,
  runs the pending scripts until the first failure, and persists the cursor it
  reached.

Collaborators outside the core are parameters:

- **Process execution** is a function `spawn` from an invocation (program,
  arguments, working directory) to the captured output or the error text.
- **The filesystem** is a snapshot of the root listing. For each entry it
  records the name, whether it is a directory, and the listing of that
  directory or the read error.
- **The `special` table** is a map from decimal key to `Some(command)`. It
  holds `None` when the entry has no string `command`.
- **The configuration file**, as `set_current_action` meets it, is a
  `ConfigFile`. This is the text or the open error, plus an optional seek error
  and an optional write error.

`perform` passes the reached cursor to `set_current_action`,
which assigns `self.current_action` only after the write succeeds
(`src/config/mod.rs:95`). So a failed persistence leaves the in-memory cursor
where it was. `Configuration.Config.Perform` states exactly that.

Two behaviours are kept as written:

- The sort key sums the digits, so `12-x` and `3-y` share key 3 and the
  override stored under `"3"`.
- After an undo pass the stored action list stays reordered, with the prefix
  before the old cursor reversed. `PerformDoUndo` shows the list left reversed
  after the do/undo test.

## Model

| member | source | states |
|---|---|---|
| `Text.NatToString` | src/config/action.rs:37 | the decimal rendering of a key is non-empty, all digits, with no leading zero |
| `Text.ParseNatToString` | src/config/action.rs:37 | reading the decimal rendering of `n` back gives `n` |
| `Text.NatToStringInjective` | src/config/action.rs:37 | two keys share an override entry exactly when they are equal |
| `Text.LinesAreLines` | src/config/mod.rs:80 | no line `lines()` yields contains a '\n' |
| `Text.LinesOfJoinLines` | src/config/mod.rs:80-89 | splitting '\n'-terminated lines back with `lines()` gives the lines that were joined |
| `Text.JoinLinesOfLines` | src/config/mod.rs:80-89 | re-joining the lines of a text, each followed by '\n', gives the text back, with a '\n' added when it had no final one |
| `Text.WordsAreWords` | src/config/action.rs:106 | every word `words()` yields is non-empty and free of whitespace |
| `Text.WordsOfWord` | src/config/action.rs:106 | a whitespace-free non-empty string is a single word |
| `Text.WordsSplitAtWhitespace` | src/config/action.rs:106 | a whitespace character separates: the words of `a`, whitespace, `b` are the words of `a` followed by those of `b`, so runs of whitespace and leading or trailing whitespace yield no empty words |
| `Text.WordsOfUnwords` | src/config/action.rs:106 | splitting words joined by spaces gives back the words |
| `Actions.LeadingDigitSumIsRunSum` | src/config/action.rs:59-71 | the key is the digit sum of exactly the maximal leading run of digits, and at most 9 per digit |
| `Actions.Number` | src/config/action.rs:59-71 | the loop's accumulator, stopping at the first non-digit, equals the leading digit sum |
| `Actions.NumberExamples` | src/config/action.rs:59-71 | `12-setup` has key 3, `9-x` has 9, and a name or empty string with no leading digit has 0 |
| `Actions.ValidActionDir` | src/config/action.rs:112-118 | an entry is an action directory exactly when it is a directory whose name has a non-empty leading run of digits |
| `Actions.ActionDirs` | src/config/action.rs:27 | the kept entries are exactly the directories whose name begins with a digit, from the listing |
| `Actions.ActionDirsAppend` | src/config/action.rs:27 | the filter works entry by entry, so the kept entries keep the listing's order and multiplicity |
| `Actions.ActionDirsSingle` | src/config/action.rs:27 | a single entry is kept exactly when it is an action directory |
| `Actions.SelectFile` | src/config/action.rs:120-137 | no file exactly when no entry has the prefix; otherwise the first such entry in listing order, joined onto the directory |
| `Actions.UndoIsNeverDo` | src/config/action.rs:31-33 | a name starting with `undo` never starts with `do`, so the undo script is never taken for the do script |
| `Actions.ResolveCommand` | src/config/action.rs:37-43 | the default command when the decimal key has no override; the override's command when it has one; "'special' is invalid" when the override has no string command |
| `Actions.Resolve` | src/config/action.rs:30-50 | a directory resolves exactly when it can be read and its override is valid, into an action named after it with the resolved command and the first `do`/`undo` entry of its own directory as scripts; a failure carries the directory's read error, else "'special' is invalid" |
| `Actions.CollectOk` | src/config/action.rs:30-51 | the loop succeeds exactly when every directory resolves, and then yields each directory's action in order |
| `Actions.FirstFailureWins` | src/config/action.rs:30-51 | when all directories before `i` resolve and directory `i` fails, discovery fails with directory `i`'s error |
| `Actions.InsertKeepsOrder` | src/config/action.rs:53 | placing one action into a key-sorted list keeps it sorted |
| `Actions.InsertIsStable` | src/config/action.rs:53 | an inserted action goes in front of the actions with its key |
| `Actions.SortByKey` | src/config/action.rs:53 | the sorted list is ordered by key |
| `Actions.SortByKeyCorrect` | src/config/action.rs:53 | the sort orders by key, keeps every action (a permutation), and keeps listing order among equal keys |
| `Actions.ResolveDirectory` | src/config/action.rs:31-43 | the loop body builds the action `Resolve` specifies, or fails with its error |
| `Actions.Discovered` | src/config/action.rs:26-56 | the root's read error; otherwise the outcome of resolving the action directories, and when that succeeds a list sorted by key |
| `Actions.FindActions` | src/config/action.rs:26-56 | the result is the root's read error, or the first directory failure, or every resolved action stably sorted by key |
| `Actions.DiscoveredOkIff` | src/config/action.rs:26-56 | discovery succeeds iff the root and every action directory can be read and no override is invalid |
| `Actions.DiscoveredShape` | src/config/action.rs:26-56 | a successful discovery has one action per action directory, named after it, sorted, equal keys in listing order |
| `Actions.OverrideExamples` | tests/lib.rs:63-69 | the override under "3" applies to `3-third` and `12-twelfth`, the default to `1-first`; an override without a string command is invalid |
| `Actions.ParseCommand` | src/config/action.rs:105-110 | the argument vector is the command's words followed by the script's file name |
| `Actions.ExecuteCommand` | src/config/action.rs:87-103 | an absent script succeeds with the fixed message; an error only comes from a script that is present |
| `Actions.DoCommand` | src/config/action.rs:18-20 | without a do script, "No 'do' file"; otherwise what the collaborator returns for the command's first word run with the remaining words and the script's name, in the script's directory |
| `Actions.UndoCommand` | src/config/action.rs:22-24 | without an undo script, "No 'undo' file"; otherwise what the collaborator returns for the command run on the undo script in its directory |
| `Actions.ScriptInvocation` | src/config/action.rs:93-97 | the program is the first word (the file name when the command has none); the arguments are the remaining words and the file name |
| `Actions.AbsentScriptSpawnsNothing` | src/config/action.rs:18-24 | an action without a do (undo) script reports "No 'do' file" ("No 'undo' file") whatever the process collaborator does |
| `Configuration.RemoveSpaces` | src/config/mod.rs:217 | the filtered line holds no space and is no longer than the line |
| `Configuration.IsCurrentAction` | src/config/mod.rs:216-219 | a cursor line has at least 14 characters, and a line whose first character is neither a space nor `c` is never one |
| `Configuration.StartsWithCurrentAction` | src/config/mod.rs:216-219 | every line beginning with `current_action` is a cursor line |
| `Configuration.SpacesAreIgnored` | src/config/mod.rs:216-219 | inserting a space anywhere never changes whether a line is a cursor line |
| `Configuration.TabIndentedIsNotCurrentAction` | src/config/mod.rs:216-219 | a tab is not dropped: a tab-indented line is never a cursor line |
| `Configuration.DepartingLineIsNotCurrentAction` | src/config/mod.rs:216-219 | a line that differs from `current_action` before any space is not a cursor line |
| `Configuration.RewriteConfig` | src/config/mod.rs:70-89 | the buffer is the text's lines, each cursor line replaced by the line for `n`, each followed by '\n', with the cursor line appended when there was none |
| `Configuration.RewrittenLinesShape` | src/config/mod.rs:80-89 | each old line stays in place, replaced exactly when it is a cursor line; one line is added exactly when none was |
| `Configuration.CurrentActionLineIsCurrentAction` | src/config/mod.rs:72 | the line written for `n` is itself recognised as a cursor line and holds no '\n' |
| `Configuration.CurrentActionLineValue` | src/config/mod.rs:72 | the line written for `n` is `current_action = ` followed by digits that read back as `n` |
| `Configuration.RewriteRecordsCursor` | src/config/mod.rs:80-89 | after the rewrite there is a cursor line, and every cursor line records `n` |
| `Configuration.RewriteTwice` | src/config/mod.rs:69-98 | persisting `n` and then `m` gives the same lines as persisting `m` alone |
| `Configuration.RewriteKeepsOtherLines` | src/config/mod.rs:80-89 | every line that is not a cursor line survives verbatim and in order |
| `Configuration.RewriteReadsBack` | src/config/mod.rs:80-89 | the written buffer, read back with `lines()`, gives exactly the rewritten lines |
| `Configuration.RewriteRecordedCursorIsIdentity` | src/config/mod.rs:80-89 | persisting the cursor the text already records writes the text back unchanged, up to a final '\n' |
| `Configuration.RewriteLastCursorLine` | src/config/mod.rs:80-89 | when only the last line is a cursor line, the rewrite replaces it and keeps the others |
| `Configuration.RewriteTestConfiguration` | tests/lib.rs:8-24 | persisting 3 over the test text with cursor 0 gives the text with cursor 3, and persisting 0 gives it back |
| `Configuration.TestConfigLines` | tests/lib.rs:8-24 | the test text splits into its five settings lines and its cursor line |
| `Configuration.Reverse` | src/config/mod.rs:121 | the reversal has the same length and puts element `i` at position `len - 1 - i` |
| `Configuration.ReverseKeepsElements` | src/config/mod.rs:121 | the reversal is a permutation |
| `Configuration.LeadingSuccesses` | src/config/mod.rs:126-148 | the count of actions that succeed before the first failure: all before it succeed, the one at it fails |
| `Configuration.LeadingSuccessesIs` | src/config/mod.rs:126-148 | the index of the first failure, or the length when none fails, is that count |
| `Configuration.PendingOrder` | src/config/mod.rs:116-124 | a do pass visits the actions from the cursor upwards; an undo pass visits them from the cursor minus one down to 0 |
| `Configuration.ReorderedIsPermutation` | src/config/mod.rs:116-124 | after an undo pass's reversal the stored list is a permutation whose prefix before the cursor is reversed and whose rest is untouched |
| `Configuration.ReachedInRange` | src/config/mod.rs:104-148 | the reached cursor stays in `[0, len]`, never below the start for do, never above it for undo |
| `Configuration.ResumeVisitsTheRest` | src/config/mod.rs:126-151 | a later pass in the same direction from the reached cursor visits exactly the actions this pass left, starting with the one that failed |
| `Configuration.FullRoundTrip` | src/config/mod.rs:126-148 | when every script succeeds, a do pass reaches the end and an undo pass from the end returns to 0 |
| `Configuration.RunPass` | src/config/mod.rs:126-148 | the loop attempts the leading successes and the first failure, and moves the cursor one step per success, up for do and down for undo |
| `Configuration.WriteOutcome` | src/config/mod.rs:75-97 | persisting succeeds exactly when the file opens, seeks and writes |
| `Configuration.Config.constructor` | src/config/mod.rs:19-23 | the object holds the given actions and cursor |
| `Configuration.Config.Read` | src/config/mod.rs:57-67 | the configuration fails with discovery's error, or holds the discovered actions and the configured cursor |
| `Configuration.Config.SetCurrentAction` | src/config/mod.rs:69-98 | reports the file's first error; the written buffer is the rewritten text; the cursor is adopted only after a successful write |
| `Configuration.Config.Perform` | src/config/mod.rs:100-156 | an invalid cursor and a cursor at the boundary change nothing; otherwise the list is reordered, the pass runs to the first failure, and the reached cursor is persisted and adopted only if the write succeeds |
| `Configuration.TestDoPass` | tests/lib.rs:84-90 | from cursor 0 with all scripts succeeding, all three actions succeed and the file is rewritten to the cursor-3 text |
| `Configuration.TestUndoPass` | tests/lib.rs:92-96 | from cursor 3 the undo pass visits the three actions in reverse, all succeed, and the file is rewritten to the cursor-0 text |
| `Configuration.TestWrite` | tests/lib.rs:8-24 | persisting cursor `n` over the test text with cursor `m` writes the test text with cursor `n` |
| `Configuration.PerformDoUndo` | tests/lib.rs:78-97 | do then undo on one configuration writes the cursor-3 text, then the cursor-0 text, ends at cursor 0, and leaves the stored list reversed |

## Left out

- Process spawning and `handle_output` (`src/config/action.rs:74-85`) are the `spawn` parameter. The model does not cover exit status, output decoding or the spawn error.
- The filesystem is a snapshot. `fs::readdir` of an action directory is read once and feeds both `select_files` calls, so a directory that changes between the two reads is not modelled. `is_dir` is a recorded flag.
- TOML parsing is not modelled. This covers `lookup_root`, `lookup_current_action`, `lookup_command` and `lookup_special` with their defaults and error messages, and `decide_config_path` (`src/config/mod.rs:159-214`). `Config::read` is modelled from the `find_actions` call onward. The path field is replaced by the `ConfigFile` passed to each persistence.
- The panics of `from_str(...).unwrap()`, of `read_to_string().unwrap()` in `set_current_action`, and of `to_uint().unwrap()` are not modelled. A read failure is folded into the `ConfigFile`'s error.
- The file is opened for reading and writing and is not truncated. A buffer shorter than the old text (for instance after `current_action   =   1` is normalised) leaves the old text's tail after it in the file. The model covers the buffer written at offset 0, not the file's resulting contents.
- `PerformDoUndo` gives the second pass the first write's buffer as the file's contents. This matches the file only because both test texts have the same length (see the line above).
- Digits are ASCII only. Rust's `is_digit` is wider, and `to_digit(10).unwrap()` in `number` would panic on a non-ASCII digit. `valid_action_dir` tests the first character of the first grapheme, which is the first character of the name.
- `uint` is unbounded here. The wrap-around of `current_action += 1` and `-= 1` cannot occur, because the guards keep the cursor within `[0, len]`. The digit sum in `number` cannot overflow for real names.
- `Action`'s `Clone` derive is not modelled.
- The `println!` messages of `perform` are not modelled. The `Report` value records what happened instead. The command-line front end in `src/main.rs` is not part of this model.
- The `read_config` test (`tests/lib.rs:51-60`) needs the `tests/sequence` fixture directory, which is not part of this model. Its override half is covered by `OverrideExamples`.
