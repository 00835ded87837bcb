# Rimokon, modelled in Dafny

Rimokon is a Telegram bot that lets its admins control the machine it runs on. The bot reads
a configuration of *actions* (callables) and *aliases* (strings such as `"/hello there"`, or
callables). From them it builds a registry of runnable units, keyed by canonical names, and a
`/help` text. It then dispatches every incoming text message:

- `/start` is answered for everyone;
- `/help` is answered for admins;
- the emergency shutdown phrase stops the bot;
- any other text is looked up in the registry, and the unit found runs on a thread of its own.

The bundled plugin runs commands (`shell`, `run`, `rawrun`). It replies with the
MarkdownV2-escaped output and exit status, and shows an "Executing..." notice while the
command runs. An older single-file version of the bot (`main.py`) has fixed handlers and the
same reply format.

The project models that core as pure functions over values and traces.

**Messages and calls to the bot**

- A message is its chat, its id and its text (`None` for non-text messages).
- Every call made to the bot or the logger is an `Event` in a trace.
- A trace ends in `Ok` or in the Python exception that escaped (`Fault`).
- Whether the messaging API refuses a reply or a deletion is a parameter (`Transport`).

**Parameters standing in for code outside the core**

- Running a process is a function from the command to the finished process or the exception (`System`).
- `shlex.split` is a function from a string to tokens or a parse error.
- Grabbing the screen is a parameter.
- What a configured callable does is a parameter (`Behaviour`).

**Loops**

The loops of the source are `while` loops in methods, each proved equal to a recursive
specification function:

- the escape loop;
- the action and alias registration loops;
- the help-text loop;
- the reply builder.

Properties are stated about those functions.

| file | module | models |
|---|---|---|
| core.dfy | `Core`, `Effects` | Option/Try, Python exceptions, `str(int)`; messages, the event trace, the API and process boundaries |
| text_normalizer.dfy | `TextNormalizer` | `cmd_get_action_name`, `cmd_get_rest` of Rimokon/util.py |
| escaping.dfy | `Escaping` | `escape` of util.py |
| import_config.dfy | `ImportConfig` | canonical keys, the action and alias loops, `make_action_noexcept`, string aliases, the help text |
| plugin_helpers.dfy | `PluginHelpers` | the "Executing..." notification decorators |
| run_rawrun_shell.dfy | `RunRawrunShell` | `_escape`, the reply text, `shell`/`run`/`rawrun` |
| dispatcher.dfy | `Dispatcher` | handler routing, the admin gate, the shutdown filter, `start`, `run_command` |
| legacy.dfy | `Legacy` | the handlers and `run_command_and_notify` of main.py |

**Readings of the source the model commits to**

- **`cmd_get_rest` on text with leading whitespace.** The cut is counted from the start of
  the text, not from the first word: `" run a"` gives `s[len("run")+1:]`, which is `" a"`
  (not `"n a"`), so one leading space happens to cancel the cut separator
  (`TextNormalizer.RestExampleLeadingSpace`).
- **The `cut` flag of `cmd_get_rest`.** `cmd_get_rest` takes one argument, but
  `Rimokon/import_config.py:91` passes two. The model gives `Rest` a `cut` flag:
  - `cut` is line 16 as written;
  - `!cut` keeps the separator (`s[len(first word):]`), as the docstring and the comment at
    line 89 intend.

  The call as written raises `TypeError`; see Findings.
- **Missing imports in Rimokon/util.py and main.py.**
  - Rimokon/util.py uses `Optional` without importing it. The model assumes the import.
  - main.py imports `cmd_get_action` and `cmd_get_rest` from util.py, which defines neither.
    The model uses the functions of Rimokon/util.py in their place.

## Model

| member | source | states |
|---|---|---|
| Core.Decimal | Rimokon/plugins/run_rawrun_shell.py:50 | `str(n)` of a natural number is a non-empty string of digits, with no leading zero unless it is 0 |
| Core.DecimalRoundTrip | Rimokon/plugins/run_rawrun_shell.py:50 | reading the printed digits back gives the number, so the exit code in the reply loses nothing |
| Core.IntText | main.py:55 | `f"{n}"` starts with `-` exactly for negative numbers and is the decimal digits otherwise |
| Effects.SpawnedConcat | Rimokon/plugins/run_rawrun_shell.py:40 | the processes started by two consecutive pieces of code are those of the first, then those of the second |
| TextNormalizer.SkipSpaceSuffix | Rimokon/util.py:9 | what `split()` skips before the first word is whitespace, and the rest is a suffix of the text |
| TextNormalizer.TakeWordIs | Rimokon/util.py:9 | a whitespace-free prefix that ends at whitespace or at the end of the text is the first word |
| TextNormalizer.FirstWord | Rimokon/util.py:9 | `s.split()[0]` is non-empty, contains no whitespace, and starts right after the leading whitespace, ending at whitespace or at the end |
| TextNormalizer.Words | main.py:136 | `split()` returns some word exactly when the text has a non-whitespace character, and its first word is `FirstWord` |
| TextNormalizer.WordsAreWords | Rimokon/plugins/run_rawrun_shell.py:78 | every piece `split()` returns is non-empty and free of whitespace |
| TextNormalizer.LStripSlashSuffix | Rimokon/util.py:9 | `lstrip('/')` removes only slashes and keeps a suffix that does not start with `/` |
| TextNormalizer.LowerAt | Rimokon/util.py:9 | `lower()` maps each character on its own and keeps whitespace as whitespace |
| TextNormalizer.RStripPrefix | Rimokon/__main__.py:76 | `rstrip()` removes only trailing whitespace and keeps a prefix of the text |
| TextNormalizer.ActionName | Rimokon/util.py:4-9 | `None` exactly for `None` and for the empty text; otherwise the name has no whitespace, is lower case, and does not start with `/` |
| TextNormalizer.Rest | Rimokon/util.py:11-16 | the rest is always a suffix of the text |
| TextNormalizer.TryActionName | Rimokon/util.py:8-9 | `cmd_get_action_name` raises `IndexError` exactly when the text is non-empty and `split()` gives no words, and otherwise returns `ActionName` |
| TextNormalizer.TryRest | Rimokon/util.py:16 | `cmd_get_rest` raises `AttributeError` on `None` and `IndexError` when `split()` gives no words; it returns `Rest` exactly when the text has a word |
| TextNormalizer.FirstWordOf | Rimokon/util.py:9 | a word followed by a separator is the first word of the text, whatever follows |
| TextNormalizer.RestAfterWord | Rimokon/util.py:13-16 | after a leading word and a separator, the rest is what follows the separator (with the separator when it is kept) |
| TextNormalizer.RestOfWord | Rimokon/util.py:16 | a text that is a single word has an empty rest |
| TextNormalizer.RestCutDropsOne | Rimokon/util.py:13-16 | cutting removes exactly the one separator character that the non-cutting variant keeps |
| TextNormalizer.ActionNameStable | Rimokon/util.py:9 | re-normalising is stable: the name of `"/" + name + " x"` is the name again |
| TextNormalizer.SlashThenName | Rimokon/util.py:9 | one slash in front of a slash-free name is stripped back to the name |
| TextNormalizer.LowerIdempotent | Rimokon/util.py:9 | lower-casing lower-case text changes nothing |
| TextNormalizer.OrphanSlashIsEmptyName | Rimokon/util.py:9 | `"/ x"` and `"/  x"` give the empty name, while `"/x"` gives `"x"` |
| TextNormalizer.RestExampleWords | Rimokon/util.py:13-16 | `"/run a b"` gives `"a b"`, and `" a b"` with the separator kept |
| TextNormalizer.RestExampleAlone | Rimokon/util.py:16 | `"/run"` gives the empty rest |
| TextNormalizer.RestExampleTwoSpaces | Rimokon/util.py:16 | exactly one separator is cut: `"/run  a"` gives `" a"` |
| TextNormalizer.RestExampleLeadingSpace | Rimokon/util.py:16 | leading whitespace is not skipped when cutting: `" run a"` gives `" a"` |
| TextNormalizer.RaisingInputs | Rimokon/util.py:8-16 | whitespace-only text makes both functions raise `IndexError`; `None` makes the rest raise `AttributeError`; `None` and `""` have no name |
| Escaping.EscapeAll | util.py:4-8 | the escape loop succeeds exactly when every entry is one character; otherwise it fails on `AssertionError` |
| Escaping.Escape | util.py:4-8 | the loop reassigning `where` computes `EscapeAll` |
| Escaping.UnescapeEscapeEach | util.py:7 | when the backslash is among the escaped characters, dropping each inserted backslash gives the input back |
| Escaping.EscapeEachLength | util.py:7 | escaping adds exactly one character per occurrence of an escaped character |
| Escaping.ReplaceIsEscapeOne | util.py:7 | one `replace(c, '\\' + c)` escapes the one character `c` |
| Escaping.ReplaceConcat | util.py:7 | that `replace` distributes over concatenation |
| Escaping.ReplaceAfterEscape | util.py:7 | once backslashes are escaped, escaping one more character escapes only its occurrences in the original text |
| Escaping.EscapeAllAfterBackslash | util.py:5-7 | after the backslash, each further distinct entry escapes its own occurrences and nothing else |
| Escaping.BackslashFirstEscapesEach | util.py:5-7 | with the backslash first and distinct single-character entries, the output is the input with one backslash before each listed character |
| Escaping.EscapeWellOrdered | util.py:5-7 | with the backslash first and distinct entries, the output grows by one per occurrence and can be unescaped back to the input |
| Escaping.EscapeEachWellEscaped | util.py:7 | the escaped text is made of unlisted characters and backslash pairs, so every listed character in it is escaped |
| Escaping.ReplaceAbsent | util.py:7 | replacing a character that does not occur changes nothing |
| Escaping.EscapeAbsent | util.py:5-8 | text with none of the listed characters is returned unchanged, and so is every text when the list is empty |
| Escaping.OrderMatters | util.py:5-7 | with the backtick listed before the backslash, the backslash inserted before a backtick is escaped again (`` ` `` gives two backslashes and the backtick); backslash first gives one |
| ImportConfig.CanonName | Rimokon/import_config.py:34-43 | a canonical key is lower case and does not start with `/` |
| ImportConfig.Lookup | Rimokon/import_config.py:119 | `reg[k]` is the unit of an entry registered under `k` |
| ImportConfig.KeyReachable | Rimokon/import_config.py:40 | a one-word key, typed as the first word of a message, gives the action name that equals its canonical key |
| ImportConfig.CanonicalNameReachable | Rimokon/import_config.py:40 | a registered name typed after a slash, alone or followed by a separator and more text, is found again by `cmd_get_action_name` |
| ImportConfig.CheckActionIff | Rimokon/import_config.py:66-77 | one action is accepted exactly when its canonical name is non-empty, without whitespace, new and its value callable; it becomes a wrapped plain unit under that name |
| ImportConfig.OneAction | Rimokon/import_config.py:66-77 | a single accepted action becomes the whole action dictionary |
| ImportConfig.RegisterActions | Rimokon/import_config.py:64-77 | the loop filling `updated_actions` computes `AddActions` from the empty dictionary |
| ImportConfig.AddActionsIff | Rimokon/import_config.py:66-74 | the action loop finishes exactly when the keys are usable, pairwise distinct after canonicalisation, and the values callable |
| ImportConfig.AddActionsEntries | Rimokon/import_config.py:77 | when it finishes, the loop has appended one wrapped plain entry per action, in configuration order |
| ImportConfig.AddActionsWellFormed | Rimokon/import_config.py:66-77 | the action loop keeps the registry's names canonical and distinct |
| ImportConfig.CheckAliasIff | Rimokon/import_config.py:104-128 | one alias is accepted exactly when its canonical name is usable, not yet an alias, not an action, and its value is a callable or a string naming an action; it becomes the wrapped unit for that value |
| ImportConfig.AliasThen | Rimokon/import_config.py:104-128 | after an accepted alias the loop goes on with the next one |
| ImportConfig.RegisterAliases | Rimokon/import_config.py:102-128 | the loop filling `updated_aliases` computes `AddAliases` from the empty dictionary |
| ImportConfig.AddAliasesIff | Rimokon/import_config.py:104-125 | the alias loop finishes exactly when every alias is valid against the actions and the aliases before it |
| ImportConfig.AddAliasesEntries | Rimokon/import_config.py:128 | when it finishes, the loop has appended one wrapped entry per alias, in order: the callable itself, or the string-alias closure over its base action |
| ImportConfig.AddAliasesWellFormed | Rimokon/import_config.py:104-128 | the alias loop keeps names canonical and distinct, disjoint from the action names, and every alias based on a plain action |
| ImportConfig.ImportUnits | Rimokon/import_config.py:64-131 | running both loops and merging the dictionaries computes `ImportRegistry` |
| ImportConfig.ImportSteps | Rimokon/import_config.py:131 | the import stops with the action loop's reason, or checks the aliases against the built actions and concatenates the two dictionaries |
| ImportConfig.ImportIff | Rimokon/import_config.py:64-131 | the import succeeds exactly when the actions and then the aliases are valid; the registry is the action entries followed by the alias entries |
| ImportConfig.ImportWellFormed | Rimokon/import_config.py:131 | every registry the import builds has distinct canonical names, and every alias in it is based on an action |
| ImportConfig.RegistryConcatWellFormed | Rimokon/import_config.py:131 | merging two well-formed dictionaries with disjoint keys is well formed |
| ImportConfig.ActionEntriesPlain | Rimokon/import_config.py:77 | every action entry is a plain callable, never an alias |
| ImportConfig.CaseCollision | Rimokon/import_config.py:71-72 | two action keys with the same canonical name (`"Foo"`, `"foo"`) stop the import with "Attempt to redefine action" |
| ImportConfig.FooKeys | Rimokon/import_config.py:40 | `"Foo"` and `"foo"` both canonicalise to `"foo"` |
| ImportConfig.SlashAliasAccepted | Rimokon/import_config.py:114-121 | a string alias `"/base"` is accepted and closes over the base action's unit when the base is an action |
| ImportConfig.SlashAliasMissing | Rimokon/import_config.py:116-118 | the same alias stops the import, naming the missing base, when the base is not an action |
| ImportConfig.AliasOfAliasDies | Rimokon/import_config.py:116-118 | an alias of an alias stops the import: bases are looked up among the actions only |
| ImportConfig.WordKey | Rimokon/import_config.py:40 | a one-word key without a slash is only lower-cased |
| ImportConfig.WordCanon | Rimokon/import_config.py:40 | a canonical name is its own canonical form |
| ImportConfig.SlashNameExample | Rimokon/import_config.py:115 | `cmd_get_action_name("/" + name)` is the name, for every canonical name |
| ImportConfig.Isolate | Rimokon/import_config.py:46-61 | the wrapper never raises; if the unit raised, it logs, replies "Something went wrong..." with the exception, and logs whether that reply succeeded |
| ImportConfig.Invoke | Rimokon/import_config.py:46-61 | running any registered unit returns normally |
| ImportConfig.AliasForwards | Rimokon/import_config.py:85-97 | a string alias ignores its `_rest` and runs its base on its command's rest followed by the message text after the alias word, separator kept |
| ImportConfig.CorrectedRunsBase | Rimokon/import_config.py:85-97 | with the intended `cmd_get_rest`, running the alias is exactly running its base action on the prepended rest under the base's `make_action_noexcept` wrapper: same calls, same result |
| ImportConfig.HelloPrefix | Rimokon/import_config.py:85 | the alias command `"/hello there"` prepends `"there"` |
| ImportConfig.GreetTail | Rimokon/import_config.py:91 | the text after the alias word in `"/greet  world"`, separator kept, is `"  world"`; so the base gets `"there  world"` |
| ImportConfig.AsWrittenAliasNeverRunsBase | Rimokon/import_config.py:91 | as written, every string alias only logs and replies the apology for the `TypeError`, and never runs its base |
| ImportConfig.FirstLine | Rimokon/import_config.py:145 | the first docstring line is the prefix up to the first line break |
| ImportConfig.HelpMessage | Rimokon/import_config.py:137-154 | the help text always fits a Telegram message (4096); it is the full listing, with nothing logged, exactly when the listing fits |
| ImportConfig.AccumulatedShift | Rimokon/import_config.py:148-149 | lines each followed by a blank line, behind the header's blank line, are the same lines each preceded by a blank line, plus a trailing blank line |
| ImportConfig.AccumulatedStep | Rimokon/import_config.py:148 | one pass of the help loop appends its line and a blank line |
| ImportConfig.AccumulatedCut | Rimokon/import_config.py:149 | dropping the last two characters of the accumulated text leaves the header and the listing |
| ImportConfig.BuildHelp | Rimokon/import_config.py:137-154 | the help loop, the `[:-2]` and the size check compute `HelpMessage` |
| ImportConfig.EmptyHelp | Rimokon/import_config.py:139-149 | with nothing registered, the help text is the header line alone |
| PluginHelpers.RunNotified | Rimokon/plugins/plugin_helpers.py:8-13 | "Executing..." is the first call; if it is refused, nothing else runs; otherwise the action's calls follow and the delete of that notice comes last; the action's result comes out unless the delete raises |
| PluginHelpers.ConditionalNotify | Rimokon/plugins/plugin_helpers.py:40-44 | with `notify` the conditional decorator is `notify_of_execution`; without it, it is the undecorated action |
| PluginHelpers.NoticeAlwaysDeleted | Rimokon/plugins/plugin_helpers.py:10-13 | once the notice is sent, the last call is the delete of that same chat and message, even when the action raised |
| PluginHelpers.OutcomePassesThrough | Rimokon/plugins/plugin_helpers.py:11-13 | the action's result or exception comes out unchanged when the notice and its deletion succeed |
| RunRawrunShell.WithoutBackslash | Rimokon/plugins/run_rawrun_shell.py:25 | the filtered list holds exactly the entries other than the backslash, and a list without a backslash is kept as it is |
| RunRawrunShell.WithoutBackslashConcat | Rimokon/plugins/run_rawrun_shell.py:25 | the comprehension keeps order: filtering a concatenation filters the first part, then the second |
| RunRawrunShell.Reordered | Rimokon/plugins/run_rawrun_shell.py:22-25 | a list containing the backslash is reordered to start with it, with the same entries; when the backslash occurs after index 0 the other entries follow it as the order-keeping filter leaves them; a list with no backslash after index 0 is kept |
| RunRawrunShell.WithoutBackslashDistinct | Rimokon/plugins/run_rawrun_shell.py:25 | filtering keeps the entries distinct |
| RunRawrunShell.ReorderedWellFormed | Rimokon/plugins/run_rawrun_shell.py:24-25 | reordering distinct single characters keeps them distinct single characters, the same set |
| RunRawrunShell.EscapeListed | Rimokon/plugins/run_rawrun_shell.py:22-30 | `_escape` runs the escape loop on the reordered list |
| RunRawrunShell.EscapeListedEscapesEach | Rimokon/plugins/run_rawrun_shell.py:22-30 | whatever the order of distinct characters including the backslash, `_escape` puts one backslash before each listed character, and the result unescapes back to the input |
| RunRawrunShell.BacktickFirstIsFixed | Rimokon/plugins/run_rawrun_shell.py:24-25 | `` ['`', '\\'] `` is reordered to backslash first, so a backtick gets a single backslash |
| RunRawrunShell.CodeEscaping | Rimokon/plugins/run_rawrun_shell.py:45 | `_escape(s, ['\\', '`'])` succeeds and escapes exactly the backslashes and backticks |
| RunRawrunShell.BuildReply | Rimokon/plugins/run_rawrun_shell.py:43-52 | the `+=` steps build `ReplyText` |
| RunRawrunShell.ReplyStartsWithHeader | Rimokon/plugins/run_rawrun_shell.py:43 | the reply always begins `"Done\\. Output:\n"` |
| RunRawrunShell.StdoutBlockIff | Rimokon/plugins/run_rawrun_shell.py:44-45 | right after the header comes the stdout block exactly when stdout is non-empty |
| RunRawrunShell.StderrBlockIff | Rimokon/plugins/run_rawrun_shell.py:46-47 | after the stdout block (if any) comes the stderr block exactly when stderr is non-empty |
| RunRawrunShell.ReplyEndsWithStatus | Rimokon/plugins/run_rawrun_shell.py:49-52 | the reply ends with "Exit code: N" for N >= 0 and "Exited due to signal -N" otherwise, with digits that read back to the number |
| RunRawrunShell.BlockPayloadSafe | Rimokon/plugins/run_rawrun_shell.py:45-47 | inside a block every backslash and backtick is escaped, and the payload unescapes back to the output |
| RunRawrunShell.CommandReplies | Rimokon/plugins/run_rawrun_shell.py:40-58 | a finished command gets the formatted MarkdownV2 reply; if that is refused, exactly one fallback reply naming the return code and the API error follows |
| RunRawrunShell.SpawnFailurePropagates | Rimokon/plugins/run_rawrun_shell.py:40 | a process that cannot be started raises out of the action after the start attempt alone |
| RunRawrunShell.BodySpawnsOnce | Rimokon/plugins/run_rawrun_shell.py:40 | the body starts its command once, as its first call |
| RunRawrunShell.RunsCommandOnce | Rimokon/plugins/run_rawrun_shell.py:33-58 | a started action spawns exactly its command once; without `notify` it is the bare body, with it the notice comes first |
| RunRawrunShell.ShellRunsRest | Rimokon/plugins/run_rawrun_shell.py:60-63 | `shell` runs the rest unchanged as a shell line |
| RunRawrunShell.RawRunRunsWords | Rimokon/plugins/run_rawrun_shell.py:75-78 | `rawrun` runs the whitespace-separated words of the rest, each non-empty and free of whitespace |
| RunRawrunShell.RunParses | Rimokon/plugins/run_rawrun_shell.py:66-73 | `run` answers a parse error with one "Failed to parse arguments" reply and runs nothing; otherwise it runs the parsed tokens |
| Dispatcher.Route | Rimokon/__main__.py:39-79 | only text messages are taken; text made only of whitespace raises `IndexError` in the first filter; every other text is taken by some handler |
| Dispatcher.RunCommandBody | Rimokon/__main__.py:81-91 | a unit is scheduled only for text with a word, on `cmd_get_rest` of that text |
| Dispatcher.RouteIff | Rimokon/__main__.py:39-79 | `start` and `help` take exactly their names; shutdown takes the matching phrase under any other name; `run_command` takes the rest |
| Dispatcher.NonAdminOnlyRefused | Rimokon/__main__.py:28-36 | a non-admin sender of `/help` or of any command gets exactly one reply, the refusal, and nothing runs |
| Dispatcher.RunCommandGated | Rimokon/__main__.py:79-81 | the catch-all schedules only for admins, and refuses everyone else |
| Dispatcher.EmptyNameAnswered | Rimokon/__main__.py:82-85 | an empty action name gets "Error: empty action name (space after slash?)" and nothing is scheduled |
| Dispatcher.UnknownNameAnswered | Rimokon/__main__.py:86-89 | an unregistered name gets "Error: unknown action name" and nothing is scheduled |
| Dispatcher.RegisteredNameNonEmpty | Rimokon/import_config.py:69-70 | the import registers no empty name, so the empty-name branch never shadows a unit |
| Dispatcher.KnownNameScheduled | Rimokon/__main__.py:86-91 | a registered name schedules exactly its unit on the rest of the text; the dispatcher sends nothing itself, so every call made is the unit's |
| Dispatcher.ScheduledEvents | Rimokon/__main__.py:91 | when a unit is scheduled, the calls made are exactly those of that unit |
| Dispatcher.ScheduleOnlyRegistered | Rimokon/__main__.py:79-91 | whoever the sender, a unit is started only for an admin, for a registered name, with the unit and rest of that name |
| Dispatcher.ShutdownGatedIff | Rimokon/__main__.py:72-73 | the shutdown stops the bot exactly when it is public or the sender is an admin, and is refused otherwise |
| Dispatcher.SkipSpacePrepend | Rimokon/__main__.py:76 | leading whitespace added to a text is stripped away again |
| Dispatcher.SkipSpaceAppend | Rimokon/__main__.py:76 | left-stripping text with a word commutes with appending text |
| Dispatcher.RStripAppend | Rimokon/__main__.py:76 | trailing whitespace added to a text is stripped away again |
| Dispatcher.ShutdownPadding | Rimokon/__main__.py:74-77 | the shutdown filter matches a text exactly when it matches the text with whitespace around it |
| Dispatcher.StartForEveryone | Rimokon/__main__.py:39-50 | `/start` is answered for everyone with the greeting; the quick-access keyboard is attached exactly for admins |
| Dispatcher.NonTextIgnored | Rimokon/__main__.py:39-79 | non-text messages make no call; whitespace-only text raises `IndexError` before any call |
| Legacy.ReplaceAbsent | main.py:159 | `replace` of a pattern that does not occur changes nothing |
| Legacy.ReplaceStep | main.py:159 | a first character that cannot start the pattern is kept |
| Legacy.ReplaceKeepsPrefix | main.py:159 | a prefix none of whose characters starts the pattern is copied unchanged |
| Legacy.ExecNames | main.py:159 | `exec` is read as `run` and `rawexec` as `rawrun` |
| Legacy.RunNames | main.py:159 | `run` and `rawrun` are kept |
| Legacy.EscapeCode | main.py:52-54 | `escape(s, ['\\', '`'])` succeeds and escapes exactly the backslashes and backticks |
| Legacy.BuildReply | main.py:50-55 | the `+=` steps build `ReplyText` |
| Legacy.SameReplyAsPlugin | main.py:50-55 | for a normal exit the reply equals the plugin's; for a signal this one prints the negative code where the plugin names the signal |
| Legacy.RunJob | main.py:41-67 | the job's calls begin with those of its `try` block; if the block raised, exactly one apology naming the exception follows, and the job raises only if that is refused |
| Legacy.NamedHandler | main.py:85-177 | the handlers selected by name have names starting with a lower-case letter, so no name selects shutdown or the catch-all |
| Legacy.Route | main.py:85-198 | as in the current bot, and the shutdown handler takes only the exact text `"!SHUTDOWN"` |
| Legacy.ScreenBody | main.py:141-146 | a machine without a screen gets the error reply carrying the `OSError` |
| Legacy.CommandBody | main.py:102-177 | a gated handler answers, sends a screenshot, launches a job or raises; it never stops the bot |
| Legacy.NonAdminOnlyRefused | main.py:74-82 | a non-admin sender of a gated command gets exactly one reply, the refusal, and nothing runs |
| Legacy.RunRawRunChoice | main.py:156-171 | `run`/`exec` go through the shell-style parser (a parse error is answered, nothing runs); `rawrun`/`rawexec` run the whitespace-split words |
| Legacy.RunRawRunNeverAsserts | main.py:169-170 | the `assert False` branch is never reached: every message the handler takes is answered or launched |
| Legacy.GatedDecides | main.py:74-82 | for an admin, a gated handler's decision is its body's |
| Legacy.CommandJobs | main.py:127-177 | `type` types the rest and `key` passes its words, both as quick jobs; `shell` runs the rest in the shell with the notice |
| Legacy.UnknownAnswered | main.py:196-198 | text no other handler takes gets "Unknown command", from anyone |
| Legacy.ScreenChoice | main.py:151-154 | the screenshot is sent as a document exactly for `screenf`, as a photo for `screen` |
| Legacy.BangName | main.py:179 | a word starting with `!` keeps `!` as the first character of its action name |
| Legacy.ShutdownPhraseRoutes | main.py:179 | `!SHUTDOWN` is no command name, so it reaches the shutdown filter |
| Legacy.StopOnlyOnShutdown | main.py:179-187 | only the shutdown handler stops the bot |
| Legacy.ShutdownExact | main.py:179-181 | the bot stops, whoever the sender, exactly when the text is `"!SHUTDOWN"`; no other case and no whitespace is accepted |
| Legacy.StartForEveryone | main.py:85-98 | `start` is answered for everyone, always with the quick-access keyboard |
| Legacy.NoticeBeforeAndDeletedAfter | main.py:43-65 | a job not expected to be quick starts the process, sends the notice, replies, then deletes that notice, and nothing else |
| Legacy.QuickJobRepliesOnly | main.py:46-65 | a quick job sends no notice and deletes nothing: only the reply |
| Legacy.NoticeLeftWhenReplyFails | main.py:57-67 | when the reply and its fallback are both refused, the apology is the last call and the notice is never deleted |
| Legacy.SpawnFailureReported | main.py:43-67 | a process that cannot be started is reported in one apology, before any notice |

## Findings

| source | as written | input that shows it | evidently intended | confidence | as-written member | corrected member |
|---|---|---|---|---|---|---|
| Rimokon/import_config.py:91 | `cmd_get_rest(msg.text, False)` calls a one-argument function (Rimokon/util.py:11) with two arguments. It raises `TypeError`, so every string alias only answers "Something went wrong while processing your request" and never runs its base action. | alias `"greet": "/hello there"`, message `"/greet  world"` | the base action runs with the rest `"there  world"`: the alias command's rest, then the message text after the alias word with its separator kept | not executed | ImportConfig.AsWrittenAliasNeverRunsBase | ImportConfig.CorrectedRunsBase |

The registry stores string aliases with the intended call (`ImportConfig.Call`, `Rest(text, false)`).
`ImportConfig.CallAsWritten` keeps the call as written, for the finding.

## Left out

**Transport, threads and processes**

- Polling, the retry loop of `main()`, `after_shutdown.py` and `stop_polling` itself. These are transport I/O; stopping is one `StopPolling` event.
- Threads. A scheduled unit or launched job runs to completion right after the handler, and its calls follow the handler's. Interleaving with other messages is not modelled.
- `Popen` and `communicate`. These are the `System` parameter.
  - A process that starts but fails while being waited on is not distinguished from one that cannot start: both are one failure at the start call.
  - Decoding output (`try_decode_otherwise_repr`, `try_decode`) is left out; stdout and stderr are already strings.
- Exception classes raised by the messaging API are merged into one `ApiError`, whatever the cause. Every refused reply or deletion raises it, and both catch clauses treat it alike: `except ApiException` (Rimokon/plugins/run_rawrun_shell.py:56) and `except ApiTelegramException` (main.py:59). So the model does not capture two cases:
  - an HTTP failure with a non-JSON body, which main.py's narrower clause lets escape to the outer `except` (main.py:66-67), skipping the fallback and the deletion of the notice;
  - network errors (`requests` exceptions), which neither clause catches.
- `shlex.split` is a parameter. Screen capture is the `Grab` parameter, and the image saving and upload are one `Photo` or `Document` event.
- What a configured callable does is the `Behaviour` parameter. Whether it accepts the arguments it is given is not checked, as in the source.

**Logging and configuration**

- `repr(k_)` in the messages `die` logs (Rimokon/import_config.py:42,70,72,74,106,108,111,117) is approximated by the key between plain single quotes: Python's switch to double quotes for keys containing `'` and its escaping of special characters are not modelled, so such keys get a different message text.
- Logger configuration and the `logger.debug` calls of the loops and the alias closure are left out. The closing "Successfully imported the config file" notice (Rimokon/import_config.py:158, `print` or `logger.info`) is left out too: `ImportRegistry` returns the registry or the `die` reason, not a trace. The other log calls are `Log` events with a level and the message text; `logger.exception`'s traceback is not kept.
- `exit(1)` in `die` is the `Died` result carrying the reason.
- Importing the configuration module is left out: the actions and aliases are explicit inputs.
- `help_description` (Rimokon/plugins/plugin_helpers.py) is not part of this model. It is taken to attach the `RimokonHelp` text that Rimokon/import_config.py:141-142 reads.

**Telegram-side rendering**

- Keyboard markup is left out: the rows are attached as given, and `keyboard.add` chunking buttons into rows is not modelled.
- MarkdownV2 rendering and Telegram's message-length check are left out.
  - The API's refusals are the `Transport` parameter.
  - The help-text cap of 4096 is compared with the length in characters, not in UTF-16 code units.

**Text handling**

- `str.lower` and `str.isspace` on non-ASCII text. `Lower` maps only `A`-`Z`. `IsSpace` lists the characters Python treats as whitespace.
- `Legacy.ReplaceAll`: `str.replace` is modelled for a non-empty pattern only, which is all main.py uses.
- The `__wrapped__` and `__doc__` copying of `functools.wraps` is left out. `Description` reads the help attribute or the docstring of the unit directly.
