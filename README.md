# Pull request labeler: code-owner labels and slash-command registry

This project models the two pieces of logic in the pull request labeler, in Dafny.

- **Code-owner label resolution** (`hacking/pr_labeler/label.py`, module `CodeownerLabels`).
  The configured table `LABELS` maps CODEOWNERS owners to label lists. A run copies the table, walks the
  pull request's changed files in order, and asks the ownership matcher for the owners of each file.
  It pops each matched owner from the copy. A popped label list that is non-empty is reported as an
  "Adding labels" event. After all owners of a file are handled, the run stops if the copy is empty.
  The entry point refuses a pull request whose state is not `"open"`.
  The copy is a `LabelDict` object that the method `HandleCodeownerLabels` changes in place: a `while`
  loop over the files, with the loop over one file's owners in the method `PopOwners`. The method is
  proved equal to the specification function `Resolve`. The lemmas about
  `Resolve` relate it to an independent reference, `FirstHits`: each owner matched by an examined file
  that the table gives a non-empty label list is reported once, at its first match, in file order and
  then match order.
- **Slash-command registry** (`hacking/pr_labeler/pr_labeler/slash_commands.py`, module `SlashCommands`).
  The two module-level dicts `ISSUE_COMMANDS` and `PR_COMMANDS` are the fields of a `CommandTables`
  object. `RegisterCallback` resolves the command names, creates one fresh wrapper (`Inner`), and binds
  it under every name in the selected tables with a `while` loop. The wrapper's closure variable
  `final_name` is the field `Inner.finalName`. The registration loop rebinds it on every iteration, so
  after registration it holds the last name; it stays unbound when there are no names.
  The argument check is modelled as written: `_no_args` raises only when the argument list is empty.
  The wrapper calls it only with a non-empty list, so a call never raises `CommandError`
  (`InvokeNeverRaises`). With an empty name collection and `allow_args` false, calling the returned
  wrapper with arguments reads the unbound `final_name`, which Python reports as a `NameError`.

The ownership matcher (`CodeOwners.of`) is the uninterpreted parameter `ownersOf: string -> seq<Owner>`.
The changed files are an input sequence and the pull request state is an input string. Callbacks are
opaque `Func` values (an identity and a `__name__`), and the labeler context is an opaque number.

The model follows the code in these points:
- The code reports a sequence of per-owner additions, not a set union of labels.
- A matched owner whose configured list is empty is removed from the copy, but nothing is reported for it.
- The emptiness check runs after every file, even when the table was empty from the start. So with an
  empty table and a non-empty file list, one file is still examined.

## Model

| member | source | states |
|---|---|---|
| `CodeownerLabels.LabelDict.Copy` | hacking/pr_labeler/label.py:21 | the copy is a new object with the same entries, so popping from it cannot touch `LABELS` |
| `CodeownerLabels.LabelDict.Pop` | hacking/pr_labeler/label.py:27 | `pop(owner, None)` removes the key and returns its value, or None when the key is absent |
| `CodeownerLabels.ConsumeOwners` | hacking/pr_labeler/label.py:25-28 | the owner loop of one file leaves exactly the working copy minus the owners it met |
| `CodeownerLabels.Resolve` | hacking/pr_labeler/label.py:23-31 | a run never examines more files than the pull request has |
| `CodeownerLabels.FirstHits` | hacking/pr_labeler/label.py:24-28 | reference: every reported owner was matched, is in the table and has its configured non-empty labels; no owner is reported twice; every matched owner with labels is reported |
| `CodeownerLabels.PopOwners` | hacking/pr_labeler/label.py:25-28 | the owner loop of one file leaves the copy as `ConsumeOwners` does and reports its additions, in match order |
| `CodeownerLabels.HandleCodeownerLabels` | hacking/pr_labeler/label.py:20-31 | the copy-and-pop loops with the early return report exactly `Resolve`'s additions, leave its remaining entries, and examine its number of files |
| `CodeownerLabels.LabelPullRequest` | hacking/pr_labeler/label.py:41-45 | a pull request is processed iff its state is "open"; otherwise nothing is reported and no file is examined |
| `CodeownerLabels.RepeatedRunsAgree` | hacking/pr_labeler/label.py:20-21 | two runs on the same configuration object report the same additions, because a run does not change the configured table |
| `CodeownerLabels.ConsumeMatchesFirstHits` | hacking/pr_labeler/label.py:25-28 | the owner loop leaves the table minus the owners met, and reports their first hits in order |
| `CodeownerLabels.ConsumeAppend` | hacking/pr_labeler/label.py:24-27 | popping the owners of several files in a row is popping them file by file from the shrinking copy |
| `CodeownerLabels.ResolveIsConsumeOfExamined` | hacking/pr_labeler/label.py:23-31 | a run with its early exit does what the owner loop does over the owners of exactly the files it examined |
| `CodeownerLabels.ResolveReportsFirstHits` | hacking/pr_labeler/label.py:23-31 | a run's additions are the first hits of the owners of the examined files, in file and match order; the copy keeps exactly the unmatched entries |
| `CodeownerLabels.ResolveReportsEachOwnerOnce` | hacking/pr_labeler/label.py:25-28 | every addition is the owner's configured non-empty labels, and no owner is reported twice however many files it owns |
| `CodeownerLabels.ResolvePartitionsKeys` | hacking/pr_labeler/label.py:21-31 | consumed keys and remaining keys are disjoint and together are the original keys; remaining entries are unchanged; every consumed owner with labels is reported |
| `CodeownerLabels.ResolveIgnoresAbsentOwner` | hacking/pr_labeler/label.py:27 | a matched owner missing from the table is neither reported nor left in the copy |
| `CodeownerLabels.ResolveConsumesUnlabelledOwnerSilently` | hacking/pr_labeler/label.py:27-28 | an owner with an empty label list leaves the copy iff an examined file matched it, and is never reported |
| `CodeownerLabels.ResolveStopsWhenExhausted` | hacking/pr_labeler/label.py:23-31 | no file is examined once the copy is empty; every earlier file left it non-empty; a non-empty list has its first file examined; an empty list reports nothing and leaves the table |
| `CodeownerLabels.ResolveIgnoresUnexaminedFiles` | hacking/pr_labeler/label.py:30-31 | after an early exit, replacing the files not yet examined does not change the run |
| `CodeownerLabels.SteeringCommitteeScenario` | hacking/pr_labeler/label.py:12-14 | with the configured table, a first file owned by the steering committee reports `sc_approval` once and the second file is not examined |
| `CodeownerLabels.ConfiguredTableReportsAtMostOnce` | hacking/pr_labeler/label.py:12-14 | with the configured `LABELS` (one team with `sc_approval`), a run either reports nothing and keeps the table, or reports `sc_approval` once and empties the copy |
| `SlashCommands.CommandError.Message` | hacking/pr_labeler/pr_labeler/slash_commands.py:37-40 | the message is the command name, then ": ", then the error text, each recoverable from its position |
| `SlashCommands.NoArgs` | hacking/pr_labeler/pr_labeler/slash_commands.py:27-31 | `_no_args` raises exactly when the argument list is empty, and the `CommandError` carries that command's name |
| `SlashCommands.FinalNames` | hacking/pr_labeler/pr_labeler/slash_commands.py:57-62 | one name (the function's name, or the single string), or every element of the collection in order |
| `SlashCommands.Bind` | hacking/pr_labeler/pr_labeler/slash_commands.py:70-74 | after the assignments every name maps to the wrapper, including names that already had an entry; other keys keep theirs; no key is dropped |
| `SlashCommands.BoundIffSelected` | hacking/pr_labeler/pr_labeler/slash_commands.py:70-74 | a wrapper not yet in a table is found under a registered name iff that table was selected |
| `SlashCommands.Inner.constructor` | hacking/pr_labeler/pr_labeler/slash_commands.py:64-70 | a new wrapper closes over `func` and `allow_args`; its `final_name` cell is unbound until the registration loop assigns it |
| `SlashCommands.Invoke` | hacking/pr_labeler/pr_labeler/slash_commands.py:64-68 | whenever the wrapper reaches the callback it calls the wrapped `func` with the given context; an unbound name is read only on a call with arguments where none are allowed |
| `SlashCommands.InvokeNeverRaises` | hacking/pr_labeler/pr_labeler/slash_commands.py:64-68 | calling the wrapper never raises `CommandError`; it reaches `func(ctx)` unless the closure's name is unbound |
| `SlashCommands.CommandTables.constructor` | hacking/pr_labeler/pr_labeler/slash_commands.py:23-24 | both command tables start empty |
| `SlashCommands.CommandTables.RegisterCallback` | hacking/pr_labeler/pr_labeler/slash_commands.py:50-77 | one fresh wrapper around `func` is bound under every resolved name in the issue table iff `issue` and in the pull request table iff `pull`; other entries are unchanged; with both flags false nothing changes; the same wrapper is returned; its closure name is the last resolved name |

## Left out

- The ownership matcher `CodeOwners` and its CODEOWNERS parsing and glob matching come from an external library. They are the uninterpreted parameter `ownersOf`, and reading `.github/CODEOWNERS` from disk is not modelled.
- The GitHub client (`Github`, `get_repo`, `get_pull`, `get_files`) makes network calls. The file list is an input sequence, the state an input string, and the pull request's id is not modelled. Applying labels (`add_to_labels`) is commented out in the source and is not modelled.
- The `print` output is not modelled. The "Adding labels" lines become the returned additions. The "file" line printed once per matched owner, and the refusal message, are left out.
- The `typer` command-line wiring and the decorator's two stages (`register_callback(...)` returning `wrapper`) are merged into one `RegisterCallback` call.
- `functools.wraps` metadata copying is not modelled, and neither are `IssueOrPrCtx` and the callback's own behaviour. Calling the wrapped function is the outcome `CallsFunc`.
- `CommandError` is modelled as a value; nothing about Python's exception machinery is modelled.
- `NoArgs`: the argument list's `repr` in the error text is written as the literal `[]`, since only an empty list reaches it. An empty tuple (`()`) or another empty sequence type passed as the arguments is not distinguished.
- `FinalNames`: a collection is modelled as a sequence in its iteration order. The order of an unordered collection such as a set is not modelled.
- The nox lint and formatting sessions are tool invocations with no logic to model.
