# wp-package in Dafny

A model of `wp-package.py`, a script that backs up WordPress sites. For each
directory it is given, the script does four things:

- it finds every `wp-config.php` below the directory;
- it reads the database credentials out of each one with a regular expression;
- it prints and runs a `mysqldump` command per database;
- it prints and runs one `tar czf` command that archives the directory together
  with the dumps, then an `rm` for each dump.

With `--dry-run` it prints the commands and runs none of them.

The project has these modules:

- `Text` holds the character class that `\s` matches (Python's `str.isspace`),
  a test for text at a position, and `str.split`/`str.join` on one character.
- `Paths` holds `os.path.join` and the parts of `pathlib` the script uses:
  `Path(s)`, `str(p)`, `.name`, `.parent` and `.absolute()`.
- `Pattern` models `re.search` with the credential pattern. The search tries the
  leftmost start first, takes the first alternative of the key group, and lets
  the greedy `(.*)` keep the longest value that stays inside one line.
  `PatternAt` and `Occurs` are a separate, declarative reference definition of
  what the pattern matches, and the search is proved against them.
- `Config` models `parse_config`: a loop over the lines of the file that stores
  each match under its lower-cased key, where a later line overwrites an earlier
  one. Then comes `Database(**db_props)`.
- `Scan` models `find_configs`: nested loops over the entries of an
  `os.walk` listing.
- `Commands` builds the `mysqldump`, `tar` and `rm` command strings and the
  file names inside them.
- `Packager` holds the class `Packager`. It carries the run's settings and a log
  of what was printed and run. `process_directory`, `dump_sql` and
  `create_tarball` are its methods. Each method is proved against `Plan` (the
  commands a directory gives rise to) and `Trace` (everything observable).

The file system and the walk are inputs. The contents of a readable file are a
map from path to lines. The walk is the sequence of entries `os.walk` yields.
The date stamp and the working directory are also inputs, as plain strings.

## Model

A few helper definitions have no row of their own, because the rows of the members built on them state what they do:
- `Pattern.KeyStart` (the first `\s{0,1}` at `wp-package.py:14`) is covered by `Pattern.MatchAt`, `Pattern.MatchAtSound` and `Pattern.MatchAtComplete`.
- `Packager.Issued` and `Packager.IssuedAll` (the print followed by `os.system` at `wp-package.py:47-49`, `:75-77` and `:97-99`) are covered by `Packager.Packager.Issue`, `Packager.IssuedObserved`, `Packager.PrintedIssued` and `Packager.ExecutedIssued`.
- `Packager.SkipNote` (the print at `wp-package.py:34`) is covered by `Packager.Trace` and `Packager.TraceSteps`.

| member | source | states |
|---|---|---|
| Text.SplitOn | wp-package.py:83 | `str.split` on one character, the inverse used to read the `/`-separated text that `Path(s)` parses and the `' '.join` at line 90: the pieces number at least one and none holds the separator |
| Text.IsSpace | wp-package.py:14 | `\s` matches space, tab, newline and carriage return, and never the quote, `)` or `;` that the pattern puts around it |
| Text.JoinOn | wp-package.py:90 | `sep.join(parts)` begins with the first piece, and holds the separator once there are two pieces |
| Text.SplitJoin | wp-package.py:90-95 | splitting a `' '.join` of separator-free pieces gives the pieces back |
| Text.JoinSplit | wp-package.py:90-95 | joining the pieces of a split gives the text back |
| Text.SplitConcat | wp-package.py:90 | splitting `x + sep + y` is splitting `x`, then splitting `y` |
| Text.JoinConcat | wp-package.py:90-95 | joining two non-empty lists puts one separator between the two joins |
| Text.JoinCons | wp-package.py:90-95 | a head word is followed by one separator and the join of the rest |
| Text.StartsAtConcat | wp-package.py:14 | a concatenation occurs at `i` exactly when each part occurs right after the previous one |
| Paths.Segments | wp-package.py:83 | the kept components are components of the input, none empty or `.` |
| Paths.JoinPath | wp-package.py:57 | `os.path.join(a, b)` ends with `b` and starts with `a`, except that an absolute `b` discards `a` |
| Paths.Parse | wp-package.py:83 | `Path(s)` is well formed, and it is rooted exactly when `s` starts with `/` |
| Paths.Name | wp-package.py:84 | `.name` holds no `/`, and it is empty exactly when the path has no components |
| Paths.Parent | wp-package.py:84 | `.parent` keeps the root, and with the name appended it is the path again; a path without components is its own parent |
| Paths.Absolute | wp-package.py:84 | `.absolute()` is well formed and rooted when the working directory is |
| Paths.AbsoluteIsJoin | wp-package.py:84 | `.absolute()` of any path is the path joined under the working directory by `os.path.join`, read back as a path |
| Paths.Str | wp-package.py:84 | `str(p)` of a well-formed path is non-empty and starts with `/` exactly when the path is rooted |
| Paths.ParseStr | wp-package.py:83-84 | parsing `str(p)` gives back `p` (the two are inverses on well-formed paths) |
| Paths.ParseRootedJoin | wp-package.py:83 | `/` followed by any number of segments joined by `/` parses to the rooted path of those segments (`/` alone is the root) |
| Paths.ParseRelativeJoin | wp-package.py:83 | any number of segments joined by `/` parse to the relative path of those segments (none give the empty relative path) |
| Paths.ParseJoinPath | wp-package.py:57 | `os.path.join(a, f)` with a plain file name parses to `a`'s path with `f` appended |
| Paths.SegmentsConcat | wp-package.py:83 | dropping empty and `.` components distributes over concatenation |
| Paths.NoComponentPaths | wp-package.py:83 | `Path(".")`, `Path("/")` and `Path("")` have no components |
| Paths.NameUnderParent | wp-package.py:82-84 | the name joined to the absolute parent denotes the absolute path itself, also for `.` and `/`, whose name is empty |
| Pattern.KeyAtSpec | wp-package.py:14 | the key group yields `k` exactly when `'K', '` is quoted at that position |
| Pattern.QuotedExclusive | wp-package.py:14 | at most one alternative of the key group matches at a position |
| Pattern.FirstKeyAtSpec | wp-package.py:14 | trying the alternatives in order finds one that matches, and finds one whenever any matches |
| Pattern.LineEndSpec | wp-package.py:14 | `.` runs up to the first newline and no further |
| Pattern.LastTailSpec | wp-package.py:14 | backtracking finds the last position where `'\s{0,1});` matches |
| Pattern.ClosingIsTail | wp-package.py:14 | a closing quote, an optional blank and `);` are what the tail test recognises |
| Pattern.MatchedPieces | wp-package.py:14 | the whole pattern occurs exactly when its five pieces occur end to end |
| Pattern.ValueAtSound | wp-package.py:14 | the value found holds no newline and is followed by the closing part |
| Pattern.ValueAtLongest | wp-package.py:14 | any value the closing part follows within the line is no longer than the greedy one |
| Pattern.MatchAtSound | wp-package.py:14 | whatever the anchored match yields is a match of the pattern |
| Pattern.MatchAt | wp-package.py:14 | the value that `(.*)` captures at an anchored match never holds a newline |
| Pattern.MatchAtComplete | wp-package.py:14 | every match at a position is found there, with the same key and a value at least as long |
| Pattern.SearchFromSound | wp-package.py:65 | a search from `i` reports a match that starts at or after `i` |
| Pattern.SearchFromLeftmost | wp-package.py:65 | a search from `i` finds a match no later than any match at or after `i` |
| Pattern.SearchFrom | wp-package.py:65 | the value of a match found from `i` never holds a newline |
| Pattern.Search | wp-package.py:65 | the value `re.search` reports never holds a newline, because `.` stops at line ends |
| Pattern.SearchSound | wp-package.py:65 | `re.search` reports only real matches of the pattern |
| Pattern.SearchLeftmostLongest | wp-package.py:65 | `re.search` finds the leftmost match, and there the greedy value is the longest |
| Config.FieldNameIsField | wp-package.py:68 | each key is stored under its own lower-cased field of the record |
| Config.Missing | wp-package.py:70 | the missing names are exactly the field names the dictionary lacks |
| Config.Build | wp-package.py:70 | `Database(**db_props)` succeeds exactly when the keys are the four fields, and then each field gets its value |
| Config.ParseConfig | wp-package.py:61-70 | the loop over the lines computes `Build(Props(lines))` |
| Config.Props | wp-package.py:62-68 | the dictionary built by the loop only ever holds the record's four field names as keys |
| Config.PropsHasKey | wp-package.py:64-68 | a field is collected exactly when the search result of some line carries its key; a key written on a line can be missed when a greedy value swallows it |
| Config.LastWriteWins | wp-package.py:68 | a field's value is the one found on the last line whose search result carries its key (a greedy value can swallow a later `define` on the same line, which then does not count) |
| Config.NonMatchingIgnored | wp-package.py:65-66 | a line without a match changes nothing, wherever it is inserted |
| Config.SwapDistinct | wp-package.py:68 | neighbouring lines that do not match the same key can be swapped |
| Config.FieldsCovered | wp-package.py:70 | the collected keys are all fields exactly when each key was collected |
| Config.BuildFailure | wp-package.py:70 | with only fields collected, building fails only by reporting the missing ones, and at least one is missing |
| Config.ParseOutcome | wp-package.py:61-70 | the record is built exactly when, for every key, the search result of some line carries that key; otherwise the missing fields are reported in field order |
| Scan.FindConfigs | wp-package.py:51-59 | the nested loops compute `ConfigsIn(walk)` |
| Scan.ConfigsIn | wp-package.py:51-59 | every reported path is `wp-config.php` joined to some walked directory that holds that file |
| Scan.HitsSpec | wp-package.py:55-57 | one entry yields one path per file named `wp-config.php`, each that file under the entry's directory |
| Scan.ConfigsInConcat | wp-package.py:53-57 | the reports of a walk are those of its first part, then those of its rest |
| Scan.ConfigsInSpec | wp-package.py:51-59 | a path is reported exactly when it is `wp-config.php` joined to a walked directory that holds that file |
| Scan.EntryReported | wp-package.py:55-57 | every walked directory that holds `wp-config.php` has that file reported |
| Scan.ConfigUnder | wp-package.py:57 | the reported path parses to its directory with `wp-config.php` appended, and its name is `wp-config.php` |
| Scan.FoundNamesConfig | wp-package.py:51-59 | every reported path names `wp-config.php` inside some walked directory that holds it |
| Commands.DumpIgnoresHost | wp-package.py:74 | the host never reaches the `mysqldump` command |
| Commands.DumpCommand | wp-package.py:74 | with no spaces in the user, password, name and target, the command splits into `mysqldump -u USER --no-tablespaces --password=PW NAME > FILE` |
| Commands.DumpFileName | wp-package.py:73 | the dump file name starts with `DB_NAME` and ends with `_{date}.dump.sql` |
| Commands.SuffixedIsSegment | wp-package.py:73 | a `/`-free name, date and suffix form a single path component |
| Commands.DumpTarget | wp-package.py:73 | the dump target ends with `{db_name}_{date}.dump.sql` and starts with the output directory, unless that file name is absolute, when it is the file name alone |
| Commands.DumpTargetAbsoluteName | wp-package.py:73 | a database name that starts with `/` makes `os.path.join` drop the output directory: the target is the bare file name |
| Commands.DumpTargetPath | wp-package.py:73 | for a database name and date without `/`, the dump file is `{db_name}_{date}.dump.sql` directly inside the output directory |
| Commands.ArchiveName | wp-package.py:87-88 | the archive name starts with the directory's `name` and ends with `_{date}.tar.gz` |
| Commands.ArchiveTarget | wp-package.py:88 | the archive path ends with `{name(dir)}_{date}.tar.gz` and always starts with the output directory |
| Commands.ArchiveTargetPath | wp-package.py:88 | for a date without `/` (as `%Y-%m-%d_%H%M` always is), the archive is `{name(dir)}_{date}.tar.gz` directly inside the output directory |
| Commands.Members | wp-package.py:86 | one member per path, in order, each the member of that path |
| Commands.MemberOf | wp-package.py:83-84 | a member's name holds no `/`, and its directory is absolute when the working directory is |
| Commands.Contents | wp-package.py:84-86 | one `-C` word group per member, in order |
| Commands.MemberWords | wp-package.py:84 | three words per member |
| Commands.MemberDenotes | wp-package.py:82-84 | for a directory with at least one component, a member's directory is absolute, its name is one component, and the name under the directory is the absolute path |
| Commands.MemberWithoutComponent | wp-package.py:82-88 | for a path without components (`.`, `/`, the empty string), the member's name is empty, its directory is the absolute path itself, its content is `-C {dir} ` naming nothing, and the archive is named `_{date}.tar.gz` |
| Commands.ArchiveNameWithoutComponent | wp-package.py:87-88 | a directory without components gives the archive name `_{date}.tar.gz` |
| Commands.DumpMember | wp-package.py:84 | for a database name and date without `/`, a dump file's member is its file name taken from the absolute output directory |
| Commands.Content | wp-package.py:84 | `-C {parent} {name}` is the three words joined by spaces |
| Commands.ContentsJoinWords | wp-package.py:86-95 | the formatted members joined by spaces are all their words joined by spaces, for any number of members |
| Commands.TarHeadJoinsWords | wp-package.py:92 | `tar czf {output}` is three words joined by spaces |
| Commands.TarLineJoinsWords | wp-package.py:90-95 | the `tar` line is its words joined by single spaces |
| Commands.TarLineSplits | wp-package.py:90-95 | with no spaces inside, the `tar` line splits back into exactly its words |
| Commands.TarCommandSplits | wp-package.py:86-95 | with no spaces inside, the `tar` command splits into its words |
| Commands.TarCommand | wp-package.py:86-95 | the `tar` command is its words joined by single spaces: `tar czf ARCHIVE`, then `-C dir name` per member |
| Commands.RmCommand | wp-package.py:46 | with no space in the file name, `rm {file}` splits into the two words `rm` and the file |
| Commands.MemberWordsNoSpace | wp-package.py:84 | the member words hold no space when no directory or name does |
| Commands.MemberWordsAt | wp-package.py:84-86 | member `j`'s words sit at positions `3j` to `3j+2` |
| Commands.TarLineMembers | wp-package.py:90-95 | the `tar` words are `tar czf ARCHIVE`, then `-C dir name` for each member in order |
| Commands.TarMembers | wp-package.py:86-95 | the `tar` command's words: the archive, then the directory's member, then each dump's member in order |
| Packager.Load | wp-package.py:39 | a configuration loads exactly when its file can be opened and, for every key, the search result of some line carries that key |
| Packager.LoadAll | wp-package.py:38-39 | the leading configurations load into the records, and the first failure is the one that stops the loop |
| Packager.DumpFiles | wp-package.py:40-41 | one dump file per record, in order, each that record's dump target |
| Packager.DumpCommands | wp-package.py:40 | one `mysqldump` command per record, in order |
| Packager.RmCommands | wp-package.py:45-46 | one `rm` per dump file, in order |
| Packager.Plan | wp-package.py:30-49 | the outcome is `NoConfigs` exactly when there is no configuration, and then no command is issued; an aborted directory issues fewer commands than it has configurations, a packaged one 2N+1 |
| Packager.Trace | wp-package.py:30-49 | the trace opens with the `Processing dir` line, and nothing is run in a dry run or when there is no configuration |
| Packager.Packager.Print | wp-package.py:31 | a `print` appends one printed line to the log |
| Packager.Packager.Issue | wp-package.py:97-99 | a command is printed and, unless it is a dry run, run |
| Packager.Packager.DumpSql | wp-package.py:72-78 | returns the dump file and issues the `mysqldump` command for it |
| Packager.Packager.CreateTarball | wp-package.py:80-99 | issues the `tar` command over the directory and the dumps |
| Packager.Packager.ParseAndDump | wp-package.py:39-40 | parses one configuration as `Load` does, and dumps its database only when parsing succeeds |
| Packager.Packager.DumpConfigs | wp-package.py:38-41 | the first loop computes `LoadAll`, the dump files, and the log of their commands |
| Packager.Packager.RemoveDumps | wp-package.py:45-49 | the last loop issues `rm` for each dump file in order |
| Packager.Packager.PackageConfigs | wp-package.py:35-49 | once configurations were found, the log grows by exactly the planned commands, and the outcome is the planned one |
| Packager.Packager.ProcessDirectory | wp-package.py:30-49 | the log grows by exactly `Trace`, and the outcome is the planned one |
| Packager.TraceSteps | wp-package.py:30-36 | the announcement, then the skip note or the planned commands, make up the trace |
| Packager.AbortedPlan | wp-package.py:38-40 | when loading stops at an error, the plan is the dumps issued so far, and the run ends with that error |
| Packager.PackagedPlan | wp-package.py:38-49 | when all configurations load, the plan is the dumps, then the `tar`, then the `rm`s |
| Packager.PackagedLog | wp-package.py:38-49 | the logs of the three steps add up to the planned commands |
| Packager.IssuedAllConcat | wp-package.py:38-49 | issuing two lists of commands is issuing the first, then the second |
| Packager.LoadsAsSnoc | wp-package.py:38-39 | one more configuration that loads extends the records |
| Packager.LoadAllLoads | wp-package.py:38-39 | when every configuration loads, `LoadAll` yields all their records and no error |
| Packager.LoadAllFails | wp-package.py:38-39 | the first configuration that fails determines the error |
| Packager.LoadErrors | wp-package.py:39 | a configuration fails to load only because it cannot be opened or because fields are missing, never because of an unexpected field |
| Packager.PackagedIff | wp-package.py:33-49 | a directory is packaged exactly when it has configurations and every one of them loads |
| Packager.PackagedCommands | wp-package.py:38-49 | N configurations give 2N+1 commands: the dumps in order, one `tar` over the dump files, then the `rm` of each dump in order |
| Packager.AbortedCommands | wp-package.py:38-40 | an aborted directory issues only the dumps of the configurations before the failing one, with no `tar` and no `rm` |
| Packager.PrintedIssued | wp-package.py:75-77 | issuing commands prints exactly those commands |
| Packager.ExecutedIssued | wp-package.py:76-77 | issuing commands runs exactly those commands, and none in a dry run |
| Packager.TraceObserved | wp-package.py:30-49 | processing prints the announcement, then the skip note or every planned command; it runs exactly the planned commands, and none in a dry run |
| Packager.IssuedObserved | wp-package.py:97-99 | one issued command is printed, and run unless it is a dry run |
| Packager.SayFirst | wp-package.py:31 | a printed line ahead of other events is printed first and runs nothing |
| Packager.PrintedConcat | wp-package.py:30-49 | the lines printed by two stretches of events are those of the first, then those of the second |
| Packager.ExecutedConcat | wp-package.py:30-49 | the commands run by two stretches of events are those of the first, then those of the second |

## Left out

- The command line (`argparse`) and the top-level loop with its `os.path.isdir` test and "Skipping file" print are not modelled. `ProcessDirectory` is the entry point.
- What `os.system` does is not modelled. A command that is run appears as an `Exec` event in the log, and its exit status is ignored, as in the script.
- The shell's interpretation of the command strings (quoting, globbing, the `>` redirection) is not modelled. The word lemmas hold only when no argument contains a space.
- `os.walk` and `open`/`readlines` are inputs. The walk is a sequence of entries. A file's lines are a map entry, and a path missing from the map cannot be opened.
- `datetime.now().strftime` is not modelled. The date is an opaque string.
- `Path.absolute()` reads the process's working directory, which is passed in as `cwd`.
- The `Configs found: [...]` print (a list repr) and the `print(db_props)` in `parse_config` (a dict repr) are not in the log. Python's repr of lists and dicts is not modelled.
- The exception that `parse_config` raises ends the whole run in the script. Here it is the `Aborted` outcome of the directory, after the dumps already issued; later directories are outside the model.
- General regular-expression semantics are not modelled. The search is written for this one pattern, with `re`'s leftmost-first, greedy-with-backtracking behaviour spelled out.
- Paths.Parse: a path that starts with exactly two slashes keeps `//` as its root in `pathlib`. Here it is treated as `/`.
- Paths.Absolute: promises a rooted result only when `cwd` is itself absolute, which `os.getcwd()` always returns.
- Commands.DumpCommand: defined as its eight words joined by single spaces, which is the string the f-string at `wp-package.py:74` builds. Its contract gives the words back only when no value holds a space; otherwise the shell would split them differently.
- Commands.DumpTargetPath: covers only a database name and date without `/`. In the script, a `DB_NAME` that starts with `/` makes `os.path.join` drop the output directory (stated by `DumpTargetAbsoluteName`), and a `/` inside it puts the dump in a sub-directory of the output directory.
- Commands.MemberDenotes: covers only a directory with at least one component. For `.`, `/` or the empty string, `path.name` is empty, so the content is `-C {dir} ` with no name; `MemberWithoutComponent` states this. After the shell splits the line, that `-C` pair adds no member, so such a directory's archive would hold only the dump files. That last step depends on `tar` and is not modelled.
- Commands.DumpMember: covers only a database name and date without `/`, for the same reason as `DumpTargetPath`.
- Packager.Packager.ProcessDirectory: its two loops and the per-configuration step are the methods `DumpConfigs`, `RemoveDumps` and `ParseAndDump`, called in the same order as the script's statements.
