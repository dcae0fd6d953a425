# inkutils in Dafny

A model of the core of inkutils, a collection of personal command-line
utilities, with proofs of what each utility promises:

- **Dotfile templates** (`services/models/dotfile.py`, `services/models/tag.py`):
  `DotfileDeployer` splits each template line with POSIX `shlex` rules,
  finds the tag spans between the start and end delimiters (`{%` and `%}`
  by default), hands each span to `TagParser`, re-quotes the tag's value
  with `shlex.quote` and joins the line back together. `deploy` keeps a
  single-generation `.prev` backup of the destination, and after the
  stop-parsing marker line it copies the rest of the template verbatim.
  `TagParser` holds the class-wide handler registry. It ships two
  handlers: `root`, and `config`, which walks a dotted path through the
  merged configuration.
- **Configuration** (`services/models/config.py`, `services/models/consts.py`,
  `service/library/consts.py`): the `Config` singleton loads the defaults
  file and then the user's file into one shallow mapping. The root
  directory is found by an ancestor search, and `ROOT_STR` rewrites a
  Windows drive for a POSIX shell.
- **Text statistics** (`scripts/stats.py`, `source/stats.py`): one regular
  expression classifies each character or newline run as CJK, kana, word,
  punctuation or whitespace. The counts of each file are corrected at the
  end of the file, derived totals are added, and the files are summed
  into a report. The two variants differ in four ways:
  - how they count whitespace in newline runs;
  - which header they give each file;
  - whether a file without matches is skipped (scripts) or raises (source);
  - the report. The scripts variant gives the summary a `Files:` count
    line and, in verbose mode, puts the separator line under `DETAILS`
    and a blank line between file reports. The source variant has no
    file count, puts a 40-character `=` rule under `DETAILS` and a single
    newline between file reports.
- **File selection** (`scripts/utils/filter.py`, `source/utils/filter.py`):
  the files under a path whose last suffix or joined suffixes are
  included and not excluded.
- **Hash renaming** (`script/hash_rename.py`, `source/hash_rename.py`):
  each selected file is renamed to a prefix, its content digest and its
  suffixes, with an optional case conversion. The file goes in its own
  directory, or in the current one when flattening.

The form of the model follows the source:
- Objects whose fields the code updates are classes, whose methods are
  proved against specification functions:
  - `DotfileDeployer` with its line buffer and tag-token list;
  - `TagParser` and its registry;
  - `Config`;
  - the statistics counter `_Stats`.
- Loops over tokens, matches, files and path segments are methods with
  loop invariants.
- Pure computations are functions with lemmas.

The filesystem is a tree of directories and files whose contents are
given, and a run of a program is modelled without its side effects:
- a rename script yields the plan of moves it would make;
- a deployment yields the new file map;
- the statistics script yields the message it prints.

A closing token that also carries an opening delimiter does not open a
second tag. In `{% root %}/{% config app.name %}` the closing token
`%}/{%` leaves the text `/{%`, which `_line_inject` emits as a plain
word, so `config`, `app.name` and `%}` are copied as words
(`DotfileLaws.SecondTagNotReopened`).

## Model

| member | source | states |
|---|---|---|
| Tag.ConfigTag | services/models/tag.py:40-60 | `_config` without a key is a `TypeError`; a failed `config.load()` propagates its error; a result exists only after a successful load; a key without `.` finds the merged configuration's value for it (pinned further by `Tag.ResolveErrors`, `Tag.DottedKeysNeverReached` and `Config.MergedLookup`) |
| Tag.Evaluate | services/models/tag.py:25-33 | an empty token list is an `IndexError`; an unregistered tag is `tag '<tag>' not supported`; `root` gives `ROOT_STR`; `config` calls `_config` with the remaining tokens (pinned by `Tag.LookupIsExact` and `Tag.ExtraArgumentsIgnored`) |
| Tag.Step | services/models/tag.py:46-59 | descending into a string is `key invalid`; a key present as written is found; a segment that is neither a present key nor an integer literal is `key invalid` |
| Tag.Walk | services/models/tag.py:45-60 | the `for i in key.split('.')` loop ends on the value the whole dotted path reaches, or on the first segment's error |
| Tag.TagRegistry.constructor | services/models/tag.py:14 | the class-level registry starts empty |
| Tag.TagRegistry.Register | services/models/tag.py:20-23 | the handler is stored under its `__name__` with leading underscores removed and lower-cased, replacing any earlier one, and is returned unchanged |
| Tag.DefaultRegistry | services/models/tag.py:40-65 | the two decorated handlers register as exactly `config` and `root` |
| Tag.TagParser.constructor | services/models/tag.py:16-18 | the tag is the first token, popped from the caller's own list, which the parser keeps as its arguments |
| Tag.TagParser.Parse | services/models/tag.py:25-29 | a registered tag calls its handler on the arguments; any other tag is `tag '<tag>' not supported` |
| Tag.TagParse | services/models/tag.py:32-33 | `tagparse` evaluates the tokens and leaves the caller's list without its first token; an empty list is an `IndexError` |
| Tag.TagParseStr | services/models/tag.py:36-37 | `tagparse_s` is the string of that value, with the same effect on the caller's list |
| Tag.HandlerNames | services/models/tag.py:20-23 | `_config` and `_root` register as `config` and `root` |
| Tag.UnderscoredName | services/models/tag.py:22 | a lower-case name behind one underscore registers as itself |
| Tag.UnderscoresDropped | services/models/tag.py:22 | any number of leading underscores is dropped and the rest lower-cased |
| Tag.RegistryNameNormalises | services/models/tag.py:22 | `__Root` registers as `root` |
| Tag.LookupIsExact | services/models/tag.py:25-29 | lookup does not normalise: `ROOT` and `_root` are unsupported tags, named as written in the error |
| Tag.ResolveErrors | services/models/tag.py:46-59 | every failure of the walk is `key invalid` or a `TypeError` (subscripting a number, boolean or `None`, which the handler does not catch) |
| Tag.StringRejectsTraversal | services/models/tag.py:48-50 | a string value rejects any further segment |
| Tag.LiteralBeforeInteger | services/models/tag.py:51-57 | the segment is tried as a string key before `int(segment)` |
| Tag.NegativeIndexFromEnd | services/models/tag.py:57 | the integer retry on a list takes `-k` as the k-th item from the end |
| Tag.StepIndex | services/models/tag.py:51-57 | a segment reading as an in-range index selects that item of a list |
| Tag.IndexPastEnd | services/models/tag.py:54-59 | an index at or beyond the length is `key invalid` |
| Tag.StepIgnoresDottedKey | services/models/tag.py:47-57 | inserting a key that contains `.` anywhere in a mapping changes the step of no segment without `.`; `key.split('.')` yields only such segments |
| Tag.DottedKeyUnreachable | services/models/tag.py:42-47 | inserting a key that contains `.` anywhere in the top-level mapping leaves the result of every dotted path exactly as it was |
| Tag.FindUndotted | services/models/tag.py:51-57 | removing the keys that contain `.` keeps every other key, and what it holds less its own such keys |
| Tag.StepUndotted | services/models/tag.py:47-59 | one step over a segment without `.` gives the same outcome with or without the keys that contain `.`, at any depth |
| Tag.ResolveUndotted | services/models/tag.py:45-60 | the whole walk over segments without `.` commutes with removing, at every depth, the keys that contain `.` |
| Tag.DottedKeysNeverReached | services/models/tag.py:42-60 | a key with `.` is never reached at any depth: two configurations that differ only in such keys give every dotted path the same error, or values that differ only in such keys |
| Tag.UndottedInsert | services/models/tag.py:42-44 | adding a key that contains `.` anywhere in a mapping leaves it related to the original as `DottedKeysNeverReached` needs |
| Tag.UndottedNested | services/models/tag.py:42-44 | the relation carries over to a mapping that holds related values under the same key, so it reaches any depth |
| Tag.NestedDottedKeyExample | services/models/tag.py:42-60 | `{a: {"b.c": 1}}` and `{a: {}}` answer every dotted path alike |
| Tag.ResolveUndottedKey | services/models/tag.py:47-59 | a key without `.` is walked in one step |
| Tag.ExtraArgumentsIgnored | services/models/tag.py:40-65 | `config` reads only its first argument and `root` none |
| Dotfile.MatchLine | services/models/dotfile.py:16 | the line pattern matches exactly the newline-terminated lines with no other newline after the leading whitespace, and splits them into all-whitespace indentation and a body not starting with whitespace |
| Dotfile.Inject | services/models/dotfile.py:34-64 | a rendered line ends in exactly one newline with no whitespace before it; a line the pattern rejects fails its `assert` |
| Dotfile.Lines | services/models/dotfile.py:76 | the lines of a file concatenate back to its text, are non-empty, and each but the last ends in a newline |
| Dotfile.StopAtFacts | services/models/dotfile.py:76-78 | the first loop stops at the first stop line, and no earlier line is one |
| Dotfile.InjectAllRenders | services/models/dotfile.py:79 | each line's result is `_line_inject` of that line |
| Dotfile.FileSystem.MoveToPrev | services/models/dotfile.py:67-71 | an existing target is renamed to `<to>.prev`, an older backup removed first; otherwise nothing changes |
| Dotfile.FileSystem.Create | services/models/dotfile.py:74 | opening the target for writing leaves it empty |
| Dotfile.FileSystem.Append | services/models/dotfile.py:79 | a write appends to the target |
| Dotfile.DotfileDeployer.constructor | services/models/dotfile.py:20-32 | the delimiters default to `{%` and `%}`; both buffers start empty |
| Dotfile.DotfileDeployer.LineInject | services/models/dotfile.py:34-64 | `_line_inject` returns what `Inject` specifies and leaves the buffers in the loop's final state |
| Dotfile.DotfileDeployer.RunTokens | services/models/dotfile.py:41-63 | the token loop reaches the state the token-by-token specification reaches, or fails as it does |
| Dotfile.DotfileDeployer.Feed | services/models/dotfile.py:43-63 | one iteration updates both buffers and `active` as the step specification says |
| Dotfile.DotfileDeployer.Deploy | services/models/dotfile.py:66-81 | the file tree and outcome after `deploy` are those of the backup-then-render specification |
| Dotfile.DotfileDeployer.WriteOutput | services/models/dotfile.py:72-81 | the target is created and holds the rendered lines up to the stop line followed by the rest verbatim, or up to the first failing line |
| Dotfile.DotfileDeployer.RenderUntilStop | services/models/dotfile.py:76-79 | the first loop writes the rendered lines before the stop line and stops at the first error |
| Dotfile.DotfileDeployer.WriteLine | services/models/dotfile.py:79 | a rendered line is appended; a failing one writes nothing |
| Dotfile.DotfileDeployer.CopyVerbatim | services/models/dotfile.py:80-81 | the second loop appends the remaining lines unchanged |
| Dotfile.AccumulateStopsAtError | services/models/dotfile.py:76-79 | once a line fails, later lines add nothing |
| DotfileLaws.InjectTokensConcat | services/models/dotfile.py:42-63 | the token loop over `a + b` is the loop over `a` continued over `b`, and an error in `a` ends it |
| DotfileLaws.CopyRun | services/models/dotfile.py:43-48 | outside a tag, tokens that open none are copied one by one with a space, whitespace-holding ones double-quoted |
| DotfileLaws.ArgumentRun | services/models/dotfile.py:56-58 | inside a tag, tokens that close none become its arguments and add nothing to the line |
| DotfileLaws.TagSpan | services/models/dotfile.py:49-63 | a whole tag writes the opening token without its delimiter, then the quoted value and what follows the closing delimiter, and closes the tag; a failing tag fails the line |
| DotfileLaws.EmptyTagFails | services/models/dotfile.py:59 | a tag with no tokens fails with the `IndexError` of the pop |
| DotfileLaws.InjectOfTokens | services/models/dotfile.py:64 | the line is the pieces joined, right-stripped, plus one newline |
| DotfileLaws.OpenAtEnd | services/models/dotfile.py:42-63 | a tag still open at the end of the loop holds its arguments |
| DotfileLaws.UnclosedTagDropped | services/models/dotfile.py:42-64 | the tokens of a tag left open are never written |
| DotfileLaws.PlainLineUnchanged | services/models/dotfile.py:34-64 | a tag-free line of single-spaced words that need no quoting renders to itself |
| DotfileLaws.ClosingToken | services/models/dotfile.py:56-62 | `%}/{%` closes a tag and leaves `/{%` to be copied |
| DotfileLaws.StrayClosingDelimiter | services/models/dotfile.py:43-48 | outside a tag the right delimiter is copied as an ordinary word |
| DotfileLaws.RootTagThenText | services/models/dotfile.py:42-63 | `{% root %}/{%` yields the quoted root string followed by `/{% ` |
| DotfileLaws.SecondTagNotReopened | services/models/dotfile.py:42-63 | in `{% root %}/{% config app.name %}` the second tag is never opened: its tokens are copied as words |
| DotfileLaws.StopLineAccepted | services/models/dotfile.py:17 | `# stop` is the stop line |
| DotfileLaws.StopLineAnyCase | services/models/dotfile.py:17 | the pattern ignores case |
| DotfileLaws.StopLineWithoutNewline | services/models/dotfile.py:17 | a last line without a newline can stop rendering |
| DotfileLaws.StopLineLongS | services/models/dotfile.py:17 | under `re.IGNORECASE` the long s matches `s` |
| DotfileLaws.StopLineRejected | services/models/dotfile.py:17 | `# stopped` is not the stop line |
| DotfileLaws.StopLineNeedsHash | services/models/dotfile.py:17 | a line without `#` is not the stop line |
| DotfileLaws.StopLineOneWord | services/models/dotfile.py:17 | `stop` must be one word |
| DotfileLaws.StopAtAfterRun | services/models/dotfile.py:76-78 | the first stop line after stop-free lines is where the first loop ends |
| DotfileLaws.NoStopLine | services/models/dotfile.py:76-78 | without a stop line every line is rendered |
| DotfileLaws.AfterStopVerbatim | services/models/dotfile.py:76-81 | the stop line is dropped and every later line, stop lines included, is written as it is |
| DotfileLaws.AllRenderedWithoutStop | services/models/dotfile.py:76-79 | without a stop line the output is every rendered line |
| DotfileLaws.DeployKeepsBackup | services/models/dotfile.py:67-71 | an existing target survives as `<to>.prev` whatever the outcome |
| DotfileLaws.DeployLeavesOthers | services/models/dotfile.py:66-81 | no path other than the target and its backup changes |
| DotfileLaws.DeployOntoSourceFails | services/models/dotfile.py:67-73 | a source that is its own target is moved away before it is opened |
| DotfileLaws.DeployWritesOutput | services/models/dotfile.py:72-81 | on success the target holds exactly the rendered output |
| Config.ApplyFile | services/models/config.py:40-43 | a missing file is `FileNotFoundError` and changes nothing; a mapping is merged key by key; `None`, a boolean or a number is the `TypeError` of `dict.update` and changes nothing |
| Config.Snapshot | services/models/config.py:38-48 | `config.load()` succeeds exactly when neither file fails; its result is a mapping with no key twice; a missing defaults file is `FileNotFoundError` for it, and so is a missing user's file after a good defaults file (its contents pinned by `Config.MergedLookup`) |
| Config.MergedLookup | services/models/config.py:38-44 | the merge is shallow and the user's file wins: a top-level key of the user's mapping holds the user's value, any other the global one |
| Config.MergedUnique | services/models/config.py:38-44 | the loaded data never holds a key twice, whatever the files hold and wherever the load stopped |
| Config.EmptyUserFileKeepsGlobal | services/models/config.py:42-43 | a user's file holding an empty list or an empty string loads without error and leaves the global mapping as the result |
| Config.StringUserFileFails | services/models/config.py:42-43 | a user's file holding a non-empty string fails with `ValueError` and leaves the global mapping in the data |
| Config.Config.constructor | services/models/config.py:21-23 | a new instance holds no data and the given path |
| Config.Config.Load | services/models/config.py:38-44 | `load()` clears the data, applies the global then the user's file as `dict.update` applies them (mappings, sequences of pairs, and the `TypeError` or `ValueError` of anything else), keeps every pair put before a failure, and returns the instance itself or the first error |
| Config.ConfigClass.constructor | services/models/config.py:14 | no instance exists before the first construction |
| Config.ConfigClass.New | services/models/config.py:16-34 | `Config(path)` hands out the one shared instance (created on the first call), empties its data and sets its path, `None` meaning `CONFIG_USER` |
| Config.SingletonShared | services/models/config.py:16-23 | loading and then constructing again yields the same object, the shared instance, and the second construction empties what the first loaded and sets the new path |
| Config.ConfigClass.LoadConfig | services/models/config.py:47-48 | module `load(path)` leaves the shared instance holding what `load()` put into it for that path (all of both files, or the pairs put before the first error) and returns it, or that error |
| ConfigValue.Put | services/models/config.py:41-43 | `d[k] = v` stores `v` under `k`, leaves every other key, and keeps keys unique |
| ConfigValue.FindAfterUpdate | services/models/config.py:41-43 | after `d.update(u)` a key of `u` holds `u`'s value and any other key `d`'s |
| ConfigValue.UpdateUnique | services/models/config.py:41-43 | `dict.update` keeps keys unique |
| ConfigValue.KeyOf | services/models/config.py:41-43 | a value is a `dict` key exactly when it is not a list or a mapping; `True` and `False` are the keys `1` and `0` |
| ConfigValue.KeyValue | services/models/config.py:41-43 | a key read back as a value makes that key again |
| ConfigValue.Items | services/models/config.py:41-43 | lists, strings and mappings can be iterated and nothing else; a string yields its characters as one-character strings |
| ConfigValue.ItemError | services/models/config.py:41-43 | an item of the wrong length is a `ValueError`; any other item that is not a pair is a `TypeError` |
| ConfigValue.DictUpdate | services/models/config.py:41-43 | `d.update(x)` merges a mapping key by key, and raises `TypeError` for `None`, a boolean or a number, leaving `d` as it was |
| ConfigValue.PairsMerge | services/models/config.py:41-43 | a run of pairs is put exactly as the mapping of those pairs would be merged, and the update carries on after it from the merged entries |
| ConfigValue.ListOfPairsUpdates | services/models/config.py:41-43 | a list of pairs updates a `dict` as the mapping of those pairs does, without error; the empty list changes nothing |
| ConfigValue.BadItemStops | services/models/config.py:41-43 | the first item that is not a pair raises its own error after every pair before it has been put |
| ConfigValue.StringUpdateFails | services/models/config.py:41-43 | a non-empty string raises the `ValueError` of element `#0` having length 1 and changes nothing |
| ConfigValue.UpdatePairsUnique | services/models/config.py:41-43 | an update from a sequence of pairs keeps keys unique wherever it stops |
| ConfigValue.DictUpdateUnique | services/models/config.py:41-43 | `d.update(x)` keeps keys unique for every `x`, whether or not it raises |
| ConfigValue.ParseDecimal | services/models/tag.py:57 | `int(str(n)) == n` for every natural number |
| ConfigValue.ParseNegDecimal | services/models/tag.py:57 | `int('-' + str(n)) == -n` |
| ServicesConsts.LocateRoot | services/models/consts.py:8-16 | the root is the parent of the nearest proper ancestor named `services` and no nearer ancestor has that name; without one it is `home/inkutils` |
| ServicesConsts.ConfigFiles | services/models/consts.py:21-29 | the defaults file is `<root>/services/data/default.yml` and the user's file `<root>/config.yml` |
| ServicesConsts.GlobalConfigUnder | services/models/consts.py:25-28 | the defaults file is `data/default.yml` under `services` below any non-root directory |
| ServicesConsts.UserConfigUnder | services/models/consts.py:29 | the user's file sits directly in the root |
| ServiceConsts.LocateRoot | service/library/consts.py:8-16 | the root is the parent of the nearest proper ancestor named `service` and no nearer ancestor has that name; without one it is `home/inkutils` |
| ServiceConsts.ConfigFiles | service/library/consts.py:19-27 | the defaults file is `<root>/service/data/default.yml` and the user's file `<root>/config.yml` |
| ServiceConsts.GlobalConfigUnder | service/library/consts.py:23-26 | the defaults file is `data/default.yml` under `service` below any non-root directory |
| ServiceConsts.UserConfigUnder | service/library/consts.py:27 | the user's file sits directly in the root |
| PathModel.NearestNamed | services/models/consts.py:13-15 | the loop over `parents` finds the nearest ancestor with the marker name, and none nearer has it; `None` when no ancestor has it |
| PathModel.AncestorRoot | services/models/consts.py:8-16 | the root is a proper prefix of the file's path ending just above the nearest marker, or `home/inkutils` when no ancestor carries the marker |
| PathModel.RootStr | services/models/consts.py:31-34 | `ROOT_STR` always starts with `/`; without a drive it is the POSIX form; with a drive holding a colon it ends with the components unchanged (pinned by `PathModel.RootStrOfDrive` and `PathModel.RootStrNoDrive`) |
| PathModel.ColonInDrive | services/models/consts.py:31-32 | the first `:` of `as_posix()` is the drive's own, so removing it leaves the components whole |
| PathModel.RootStrOfDrive | services/models/consts.py:31-32 | with a drive, `ROOT_STR` is `/`, the drive without its colon, then the components: only the first colon goes |
| PathModel.RootStrNoDrive | services/models/consts.py:33-34 | without a drive, `ROOT_STR` is the POSIX form |
| PathModel.AsPosixChild | services/models/consts.py:22-29 | `as_posix()` of `p / names` is `p`'s followed by `/` and the names |
| FsTree.Components | scripts/utils/filter.py:30-31 | `Path(str)` keeps no empty or `.` component |
| FsTree.ParsePathText | scripts/utils/filter.py:30-31 | `Path(str(p)) == p` for a path of plain components |
| FsTree.LookupConcat | scripts/utils/filter.py:42 | looking up `p / q` is looking up `q` below `p` |
| FsTree.Glob | scripts/utils/filter.py:42 | `glob('*')`/`rglob('*')` of a path that is not a directory yields nothing; every yielded path lies strictly below the path, and `glob('*')` yields only its own entries; `rglob('*')` yields every existing path below it (from `FsTree.ListingBelow` and `FsTree.ListingComplete`) |
| FsTree.ListingCompleteAll | scripts/utils/filter.py:42 | `rglob('*')` yields every existing path below the directory |
| FsTree.ListingBelow | scripts/utils/filter.py:42 | `glob('*')` and `rglob('*')` yield only paths strictly below the directory, and `glob('*')` only its own entries |
| FsTree.ListingComplete | scripts/utils/filter.py:42 | `rglob('*')` reaches every path below the directory |
| FsTree.RFind | scripts/utils/filter.py:47 | `rfind` gives the position of the last occurrence, or -1 when there is none |
| FsTree.Suffix | scripts/utils/filter.py:47 | `suffix` is empty or a dotted tail of the name, shorter than the name, with no further dot |
| FsTree.SuffixAfterLastDot | scripts/utils/filter.py:47 | the suffix is the text from the last inner dot on |
| FsTree.Suffixes | scripts/utils/filter.py:48 | `suffixes` is empty for a name ending in `.` or without an inner dot; each suffix is a dot followed by dot-free text (pinned by `FsTree.SuffixesOfExtensions` and `FsTree.HiddenFileHasNoSuffix`) |
| FsTree.Dotted | scripts/utils/filter.py:48 | each part gets its dot, in order |
| FsTree.JoinedSuffixes | scripts/utils/filter.py:48 | `''.join(suffixes)` is empty or starts with `.`, and is a tail of the name |
| FsTree.SuffixesTail | scripts/utils/filter.py:48 | the joined suffixes are the name from its first inner dot on |
| FsTree.SuffixesOfDottedName | scripts/utils/filter.py:48 | the suffixes of `stem.e1...en` are `.e1`, ..., `.en` |
| FsTree.SuffixOfExtensions | scripts/utils/filter.py:47 | the suffix of `stem.e1...en` is `.en` |
| FsTree.SuffixesOfExtensions | scripts/utils/filter.py:48 | the joined suffixes of `stem.e1...en` are `.e1...en` |
| FsTree.HiddenFileHasNoSuffix | scripts/utils/filter.py:47-48 | a hidden file such as `.bashrc` has neither a suffix nor suffixes |
| ScriptsFilter.Normalise | scripts/utils/filter.py:38-40 | a normalised entry is one dot followed by text not starting with a dot |
| ScriptsFilter.NormaliseAll | scripts/utils/filter.py:38-40 | the normalised set holds exactly the normalised entries |
| ScriptsFilter.Filter | scripts/utils/filter.py:28-57 | the generator yields exactly the specified sequence: the path itself when it is a file, else the listed files that pass, in listing order |
| ScriptsFilter.KeptMembers | scripts/utils/filter.py:44-55 | a listed path is yielded exactly when it is a file that passes the test |
| ScriptsFilter.SelectedMembers | scripts/utils/filter.py:33-55 | a file argument yields itself whatever the lists say; from a directory a path is yielded exactly when it is listed, a file, and passes |
| ScriptsFilter.ExcludeWins | scripts/utils/filter.py:49-51 | exclusion takes priority over inclusion |
| ScriptsFilter.NoIncludeKeepsAll | scripts/utils/filter.py:52-55 | without an include list every listed file that is not excluded is yielded |
| ScriptsFilter.NormaliseLeadingDots | scripts/utils/filter.py:38-40 | `txt`, `.txt` and `..txt` name the same suffix |
| ScriptsFilter.NormaliseIdempotent | scripts/utils/filter.py:38-40 | normalising twice changes nothing |
| ScriptsFilter.DirectChildrenOnly | scripts/utils/filter.py:42 | without recursion only the directory's own entries are yielded |
| ScriptsFilter.RecursiveReachesAll | scripts/utils/filter.py:42-55 | with recursion every passing file anywhere below the directory is yielded |
| SourceFilter.NormaliseAll | source/utils/filter.py:36-41 | the tuple holds each entry normalised, in order |
| SourceFilter.Filter | source/utils/filter.py:28-55 | the generator yields exactly the specified sequence: the path when it is a file, else the listed files that pass, with an absent exclude list as the empty tuple |
| SourceFilter.PassesAgree | source/utils/filter.py:36-54 | the tuple test decides every name as the set test of the scripts variant does |
| SourceFilter.NormaliseAgree | source/utils/filter.py:36-41 | the tuple and the set of normalised extensions hold the same ones |
| SourceFilter.KeptAgree | source/utils/filter.py:45-55 | both loops keep the same paths in the same order |
| SourceFilter.FilterVariantsAgree | source/utils/filter.py:28-55 | both variants of `filter` yield the same paths in the same order for every argument |
| Digest.AlgorithmOf | scripts/utils/digest.py:21-38 | the stripped, lower-cased name selects exactly one of the four algorithms; anything else is the `ValueError` quoting the name as given |
| Digest.HexDigest | scripts/utils/digest.py:40-70 | an unknown algorithm fails first; then a missing path is `FileNotFoundError` and a directory `IsADirectoryError`; a file gives its digest |
| Digest.LowerKeepsHex | scripts/utils/digest.py:55-56 | `lower()` leaves a hexadecimal digest unchanged |
| Digest.HexHasNoDot | scripts/utils/digest.py:55-56 | a hexadecimal digest holds no dot |
| ScriptHashRename.CaseOf | script/hash_rename.py:65-76 | `lower`, `upper` and `keep` in any case select the conversion; anything else is the `ValueError` naming the selector |
| ScriptHashRename.Convert | script/hash_rename.py:65-71 | the conversion keeps the length and every non-letter; `lower` maps each character to its small partner and so leaves no capital, `upper` maps each to its capital partner and so leaves no small letter, `keep` changes nothing |
| ScriptHashRename.Targets | script/hash_rename.py:61-77 | the k-th pass of the loop handles the k-th yielded file |
| ScriptHashRename.Rename | script/hash_rename.py:53-77 | the loop renames the yielded files in order and stops at the first exception, as the function specifying a call says |
| ScriptHashRename.RenameOne | script/hash_rename.py:62-77 | one pass computes the new parent and name, the digest before the case selector |
| ScriptHashRename.PathArgs | script/hash_rename.py:179-184 | no path arguments means the working directory; otherwise each argument is a path |
| ScriptHashRename.Command | script/hash_rename.py:179-195 | `main` calls `rename` for each path in order and stops at the first exception |
| ScriptHashRename.UntilInOrder | script/hash_rename.py:61-77 | a run carries out the passes one by one, in order, and stops at the first that raises, which follows only successful ones |
| ScriptHashRename.SelectedAreFiles | script/hash_rename.py:61 | every path the loop receives is a file |
| ScriptHashRename.RenameFailsOnAlgorithm | script/hash_rename.py:61-64 | with nothing to rename a bad algorithm goes unnoticed; otherwise it stops the call at the first file, before any rename |
| ScriptHashRename.RenameFailsOnCase | script/hash_rename.py:64-76 | with a known algorithm, a bad case selector stops the call at the first file, before any rename |
| ScriptHashRename.RenameMovesAll | script/hash_rename.py:61-77 | with both known every yielded file is renamed, in the filter's order |
| ScriptHashRename.TargetOutcome | script/hash_rename.py:62-77 | for one file the algorithm's error comes before the selector's; with both known the file is moved |
| ScriptHashRename.ConvertConcat | script/hash_rename.py:65-71 | case conversion works character by character |
| ScriptHashRename.TargetName | script/hash_rename.py:62-77 | the new name is prefix, digest and suffixes, each converted; only `upper` changes the digest; the file stays in its directory unless flattened |
| ScriptHashRename.RenamedKeepsSuffixes | script/hash_rename.py:63-64 | with a dot-free prefix the new name has the old suffix and suffixes |
| ScriptHashRename.RenamedFilePassesAgain | script/hash_rename.py:61-77 | with the case kept and the suffix not dropped, a renamed file passes the same include and exclude lists as before |
| ScriptHashRename.TargetKeepingCase | script/hash_rename.py:62-71 | with the case kept and the suffix not dropped, the new name is prefix, digest and old suffixes |
| ScriptHashRename.SameSuffixesPass | scripts/utils/filter.py:47-54 | the filter looks only at the suffix and the joined suffixes |
| ScriptHashRename.NoArgsIsWorkingDirectory | script/hash_rename.py:181-182 | `main` without paths renames in the working directory, as `rename()` does with its default path |
| SourceHashRename.TargetAsWritten | source/hash_rename.py:59-64 | as written, a pass succeeds exactly when the argument `path` is a file, always renames `path` whatever file was yielded, and equals the intended pass only when the yielded file is `path` itself |
| SourceHashRename.RenameAsWritten | source/hash_rename.py:51-64 | as written, every planned move renames the argument itself, and an argument that is not a file renames nothing (pinned by `SourceHashRename.DirectoryArgumentFails` and `SourceHashRename.FileArgumentAgrees`) |
| SourceHashRename.Rename | source/hash_rename.py:51-64 | the corrected loop (see Findings) renames each yielded file, in order, to prefix + its digest + its suffixes, and stops at the first exception |
| SourceHashRename.RenameOne | source/hash_rename.py:60-64 | one corrected pass digests and renames the yielded file inside its own directory |
| SourceHashRename.Command | source/hash_rename.py:159-174 | `main` calls the corrected `rename` for each path in order and stops at the first exception |
| SourceHashRename.SelectedAreFiles | source/hash_rename.py:59 | every path the loop receives is a file |
| SourceHashRename.DirectoryArgumentFails | source/hash_rename.py:59-64 | as written, a directory argument with any file to rename fails with `IsADirectoryError` on the directory before any rename |
| SourceHashRename.DirectoryArgumentRenamesFiles | source/hash_rename.py:59-64 | as corrected, the same call renames every yielded file in the filter's order, whatever the algorithm name |
| SourceHashRename.FileArgumentAgrees | source/hash_rename.py:59-64 | for a file argument the code as written and the corrected code do the same thing |
| SourceHashRename.DefaultPathAsWritten | source/hash_rename.py:51-64 | as written, `rename()` in a directory holding one file fails on `.` and renames nothing |
| SourceHashRename.DefaultPathIntended | source/hash_rename.py:51-64 | as corrected, the same call renames that file to its digest followed by its suffixes |
| SourceHashRename.RenameOfSingle | source/hash_rename.py:59-64 | a call whose filter yields one file makes exactly that file's move |
| SourceHashRename.ACounterexample | source/hash_rename.py:59-64 | concretely, with `a.txt` the only file: the code as written fails, the corrected code renames `a.txt` |
| SourceHashRename.Sha256Known | source/hash_rename.py:22 | the default algorithm name selects sha256 |
| SourceHashRename.SourceAlgorithm | source/hash_rename.py:101-104 | a known algorithm name selects that algorithm and any other name falls back to sha256 |
| SourceHashRename.SourceDigest | source/hash_rename.py:62 | the digest fails exactly when the path is not a file (`FileNotFoundError` when missing and `IsADirectoryError` for a directory) and is otherwise the file's hash with the selected algorithm |
| SourceHashRename.SourceDigestAgrees | source/hash_rename.py:101-104 | for a known name this digest is the scripts generation's; for an unknown name the scripts digest fails where this one hashes as sha256 |
| SourceHashRename.TargetFallsBack | source/hash_rename.py:101-104 | one pass with an unknown algorithm name is the pass with `sha256` |
| SourceHashRename.UnknownAlgorithmFallsBack | source/hash_rename.py:101-104 | `rename` with an unknown algorithm name makes exactly the moves it makes with `sha256` |
| SourceHashRename.TargetName | source/hash_rename.py:60-63 | the corrected new name is prefix, the file's digest and its suffixes, in the file's own directory unless flattened |
| SourceHashRename.RenamedFilePassesAgain | source/hash_rename.py:59-64 | with the suffix kept, a renamed file passes the same include and exclude lists as before |
| SourceHashRename.NoArgsIsWorkingDirectory | source/hash_rename.py:161-162 | `main` without paths renames in the working directory |
| ScriptsStats.Groups | scripts/stats.py:93-102 | the tuple `findall` yields for a match of the nine-group pattern always has nine entries, one per group |
| ScriptsStats.GroupsOf | scripts/stats.py:133 | `findall` yields one tuple per match, in match order |
| ScriptsStats.FileCounts | scripts/stats.py:130-172 | a file is counted exactly when its text is non-empty; the characters without spaces are words, punctuation and others, and with spaces add the whitespace (pinned by `ScriptsStatsLaws.FileCountsMeaning`) |
| ScriptsStats.Render | scripts/stats.py:71-90 | `str(stats)`: the header line, then a line of 36 separator characters, then the description and a blank line when there is one, and the count lines at the end |
| ScriptsStats.RenderShape | scripts/stats.py:53-90 | the layout of the header, separator line and description, whatever the count lines |
| ScriptsStats.ReportShape | scripts/stats.py:71-90 | with a non-empty description, the description and a blank line follow the rule; the count lines end the report, whatever they are |
| ScriptsStats.Stats.constructor | scripts/stats.py:19-21 | a fresh `_Stats` has no counts, header `STATISTICS`, separator `=` and an empty description |
| ScriptsStats.Stats.SetHeader | scripts/stats.py:40-42 | the header setter stores the value stripped of surrounding whitespace and changes nothing else |
| ScriptsStats.Stats.SetSep | scripts/stats.py:48-51 | the separator setter succeeds exactly when the value is one character, fails with an assertion error otherwise, and only a success replaces the separator |
| ScriptsStats.Stats.SetDescription | scripts/stats.py:63-65 | the description setter stores the value stripped and changes nothing else |
| ScriptsStats.Stats.Init | scripts/stats.py:23-34 | `__init__` applies each given setting in order (header, separator, description); it fails exactly when a separator of length other than one is given, and then the description is not set |
| ScriptsStats.Stats.CountMatches | scripts/stats.py:138-162 | the loop over the match tuples leaves the counter equal to the per-tuple step applied to every tuple in order, and keeps header, separator and description |
| ScriptsStats.Stats.CountEndOfFile | scripts/stats.py:164-170 | the end-of-file correction from the last tuple's nested run group: no newline adds a paragraph, a non-blank line and a line; exactly one newline adds a paragraph |
| ScriptsStats.Stats.DeriveTotals | scripts/stats.py:171-172 | characters without spaces become words plus punctuation plus others, characters with spaces that plus whitespace |
| ScriptsStats.Stats.UpdateFrom | scripts/stats.py:173 | `stats.update(_stats)` adds the other counter key by key and keeps the settings |
| ScriptsStats.CountFile | scripts/stats.py:132-172 | a file's `_Stats` has the path as header and `-` as separator; it is complete exactly when `findall` finds a match, and then holds the file's counter |
| ScriptsStats.Merge | scripts/stats.py:135-176 | the tail of one loop pass: every decoded file raises the file count; an empty match list adds nothing else, otherwise the file's counter is added to the summary and, in verbose mode, its rendering appended to the inventory |
| ScriptsStats.AddFile | scripts/stats.py:130-176 | a decoded file with matches raises the file count by one, adds its counter to the summary and, in verbose mode, appends its rendering |
| ScriptsStats.TakeFile | scripts/stats.py:123-176 | one pass of the loop over the selected files: a file that does not decode as UTF-8 is skipped without counting; any other is counted and merged |
| ScriptsStats.Survey | scripts/stats.py:118-176 | the loop of `statistics` leaves the summary counter, the file count and the inventory equal to the loop over all selected files in order, with the default settings kept |
| ScriptsStats.Statistics | scripts/stats.py:105-195 | the message `statistics` prints: the summary with its `Files:` description, followed in verbose mode by the DETAILS header, the separator line and the file renderings joined by blank lines |
| ScriptsStatsLaws.StepAddsDelta | scripts/stats.py:138-162 | the loop body run on a match's tuple adds exactly that match's contribution, one alternative at a time |
| ScriptsStatsLaws.MatchCategories | scripts/stats.py:139-162 | a CJK, hiragana or katakana character counts in its own category and as a word, any other word character only as a word, any other visible character as punctuation, a lone whitespace character as whitespace; a newline run adds to none of these because its `(\s)` group is empty |
| ScriptsStatsLaws.MatchLines | scripts/stats.py:154-159 | a newline run adds its newlines to the lines, one non-blank line, and one paragraph when it holds more than one newline; no other match touches the line counts |
| ScriptsStatsLaws.CountAllTallies | scripts/stats.py:138-162 | the loop over the tuples of a match sequence adds the contributions of all its matches |
| ScriptsStatsLaws.LinesOfMatches | scripts/stats.py:154-159 | over any sequence of matches the line count grows by the number of newlines in their text |
| ScriptsStatsLaws.VisibleOfMatches | scripts/stats.py:139-153 | over any sequence of matches words plus punctuation grow by the non-whitespace characters of their text |
| ScriptsStatsLaws.OthersOfMatches | scripts/stats.py:161-162 | no match ever counts as another character: the `(.)` alternative is unreachable |
| ScriptsStatsLaws.SpacesOfMatches | scripts/stats.py:159-160 | whitespace grows by the whitespace characters of the text outside newline runs |
| ScriptsStatsLaws.NewlinesInRuns | scripts/stats.py:99 | every newline of the text lies inside a newline run |
| ScriptsStatsLaws.OrderOfMatches | scripts/stats.py:154-158 | over matches, paragraphs grow no faster than non-blank lines (one slower when the last run holds a single newline) and non-blank lines no faster than lines |
| ScriptsStatsLaws.FileCountsTallied | scripts/stats.py:133-172 | a file with text has at least one match, and its counter is the contributions of its matches closed by the end-of-file step and the derived totals |
| ScriptsStatsLaws.FileLines | scripts/stats.py:154-170 | the lines of a file are its newlines plus one when it does not end in a newline |
| ScriptsStatsLaws.FileChars | scripts/stats.py:171-172 | a file's characters without spaces are its non-whitespace characters, none counts as other, and characters with spaces are its length less the whitespace inside newline runs |
| ScriptsStatsLaws.FileOrder | scripts/stats.py:154-170 | every file has no more paragraphs than non-blank lines and no more non-blank lines than lines |
| ScriptsStatsLaws.FileCountsMeaning | scripts/stats.py:130-172 | a file is skipped exactly when its text is empty; otherwise lines, characters without spaces, others and the ordering of the line counts are as the lemmas above state |
| ScriptsStatsLaws.CharsWithSpacesShortfall | scripts/stats.py:159-172 | characters with spaces fall short of the file's length by at least its number of newlines, since whitespace in newline runs is never counted |
| ScriptsStatsLaws.TourTotals | scripts/stats.py:121-176 | the summary counts every file that decodes, including empty ones, shows no other characters, and its characters without spaces are the non-whitespace characters of all decoded files |
| ScriptsStatsLaws.Columns | scripts/stats.py:67-69 | a count line is the caption and a colon left-justified to 28, the count right-justified to 8, then a newline: 37 characters |
| ScriptsStatsLaws.LineLayout | scripts/stats.py:67-69 | `line(key, name)` of a caption under 28 characters and a count of at most 8 digits has the caption at the left, the count flush against the newline, spaces between |
| ScriptsStatsLaws.SepsLayout | scripts/stats.py:53-55 | the separator line repeats the one-character separator the requested number of times |
| Tally.Update | scripts/stats.py:173 | `Counter.update` adds the two counters key by key |
| SourceStats.Groups | source/stats.py:102-113 | the tuple `re.findall` yields for a match of the ten-group pattern always has ten entries |
| SourceStats.GroupsOf | source/stats.py:102-113 | `re.findall` yields one tuple per match, in match order |
| SourceStats.FileCounts | source/stats.py:101-151 | a file without text raises `IndexError` at `_groups[-1]`; the derived totals are as in the scripts variant (pinned by `SourceStatsLaws.FileCountsVariants`) |
| SourceStats.Render | source/stats.py:57-75 | `str(stats)`: starts with the header and a newline, a one-character separator fills the rule, a newline follows it, and the text ends with the count lines |
| SourceStats.RenderShape | source/stats.py:57-75 | the layout of the report without a description: header, newline, the separator repeated across the rule, a newline, then the count lines at the end, whatever they are |
| SourceStats.Stats.constructor | source/stats.py:19-20 | a fresh `_Stats` has no counts, header `STATISTICS` and separator `=` |
| SourceStats.Stats.SetHeader | source/stats.py:36-38 | the header setter stores the value stripped and changes nothing else |
| SourceStats.Stats.SetSep | source/stats.py:44-47 | the separator setter succeeds exactly when the value is one character, fails with an assertion error otherwise, and only a success replaces the separator |
| SourceStats.Stats.Init | source/stats.py:22-30 | `__init__` sets the given header, then the given separator; it fails exactly when a separator of length other than one is given |
| SourceStats.Stats.CountMatches | source/stats.py:114-142 | the loop over the match tuples leaves the counter equal to the per-tuple step applied to every tuple in order, and keeps header and separator |
| SourceStats.Stats.CountEndOfFile | source/stats.py:143-149 | the end-of-file correction from group 7 of the last tuple, as in the scripts variant |
| SourceStats.Stats.DeriveTotals | source/stats.py:150-151 | the two derived totals, as in the scripts variant |
| SourceStats.Stats.UpdateFrom | source/stats.py:152 | `stats.update(_stats)` adds the other counter key by key and keeps the settings |
| SourceStats.CountFile | source/stats.py:101-151 | a file's `_Stats` takes the path argument (not the file) as header and `-` as separator; it is complete exactly when the file has a match, and then holds the file's counter |
| SourceStats.Merge | source/stats.py:143-155 | the tail of one pass fails exactly when the file had no match; otherwise the file's counter is added to the summary and, in verbose mode, its rendering to the inventory |
| SourceStats.TakeFile | source/stats.py:95-155 | one pass over a selected file: an undecodable file is skipped, a file without matches raises `IndexError`, any other is merged |
| SourceStats.Survey | source/stats.py:94-155 | the loop leaves the summary counter and the inventory equal to the loop over all selected files in order, or reports the first file's error |
| SourceStats.TourStopsAtError | source/stats.py:143 | once a file raises, later files change nothing: the error of a prefix is the error of the whole run |
| SourceStats.Statistics | source/stats.py:78-165 | the message `statistics` prints (summary, then in verbose mode `DETAILS`, a 40-character rule and the file reports one per line), or the error it raises |
| SourceStatsLaws.StepVariants | source/stats.py:114-142 | one pass of this loop body adds what the scripts variant adds, plus a newline run's whole length to the whitespace |
| SourceStatsLaws.CountAllSourceTallies | source/stats.py:114-142 | the loop over the tuples of a match sequence adds the contributions of all its matches |
| SourceStatsLaws.TalliedShift | source/stats.py:138 | extra whitespace at the start of the tally is the same extra whitespace at the end |
| SourceStatsLaws.TalliesDiffer | source/stats.py:132-138 | over any matches this variant's tally is the scripts tally with the characters of every newline run added to the whitespace |
| SourceStatsLaws.CloseWidened | source/stats.py:143-151 | the end-of-file step and derived totals carry extra whitespace into the characters with spaces |
| SourceStatsLaws.SourceFileCountsTallied | source/stats.py:102-151 | a file with text has a match, and its counter is its tally closed by the end-of-file step and the derived totals |
| SourceStatsLaws.ClosedVariants | source/stats.py:132-151 | closing this variant's tally gives the closed scripts tally widened by the newline runs' characters |
| SourceStatsLaws.FileCountsVariants | source/stats.py:102-151 | an empty file raises `IndexError`; for any other the counter is the scripts variant's with every newline run's characters added to the whitespace and the characters with spaces |
| SourceStatsLaws.DerivedSpaces | source/stats.py:150-151 | characters with spaces are those without spaces plus the whitespace |
| SourceStatsLaws.SourceClosedMeaning | source/stats.py:114-151 | over the matches of a text, characters with spaces are its length, those without its non-whitespace characters, the rest whitespace, and none other |
| SourceStatsLaws.WidenedMeaning | source/stats.py:138-151 | widening a counter by what its characters with spaces lack of a length makes them that length and puts all but the visible characters in the whitespace |
| SourceStatsLaws.WidenedCounts | source/stats.py:138-151 | widening moves the whitespace and the characters with spaces by the same amount and nothing else |
| SourceStatsLaws.SourceFileMeaning | source/stats.py:102-151 | a file's counting fails exactly when it is empty; otherwise characters with spaces are its length, without spaces its non-whitespace characters, whitespace the rest, lines its newlines plus one for an unterminated last line, and no others |
| SourceStatsLaws.TourFails | source/stats.py:95-155 | the run raises `IndexError` exactly when some selected file decodes to the empty text |
| SourceStatsLaws.TourLength | source/stats.py:95-155 | when the run succeeds, the summary's characters with spaces are the total length of the files that decode |
| StatsPattern.RunLength | scripts/stats.py:99 | `(\s*\n)+` matches the longest whitespace prefix ending in a newline, and always matches at a newline |
| StatsPattern.Next | scripts/stats.py:93-102 | each match is a non-empty prefix of the remaining text |
| StatsPattern.FindAll | scripts/stats.py:133 | `findall` finds no match exactly when the text is empty |
| StatsPattern.SplitFirst | scripts/stats.py:133 | `findall` is the first match followed by the matches of the rest |
| StatsPattern.FindAllCovers | scripts/stats.py:93-102 | the matches cover the text: concatenated, they give it back |
| StatsPattern.NoDotMatch | scripts/stats.py:101 | the final `(.)` alternative never matches, since every character is `\S` or `\s` |
| StatsPattern.NextShape | scripts/stats.py:93-102 | a match other than a newline run is one character and not a newline; a newline run is whitespace ending in a newline and its nested group holds all of it |
| StatsPattern.LastMatchIsRun | scripts/stats.py:164-170 | the last match of non-empty text is a newline run exactly when the text ends in a newline |
| StatsPattern.AllShaped | scripts/stats.py:93-102 | every match `findall` returns has the shape `NextShape` describes |
| Shell.Split | services/models/dotfile.py:42 | `shlex.split` fails only with `No closing quotation` or `No escaped character`; a word free of whitespace, quotes and backslashes splits to itself (pinned by `Shell.QuoteRoundTrip` and `Shell.SplitJoinedPlainWords`) |
| Shell.LexFails | services/models/dotfile.py:42 | the lexer fails only at the end of the input, inside a quotation or after an escape character |
| Shell.Quote | services/models/dotfile.py:59 | `shlex.quote` leaves a non-empty string of safe characters as it is |
| Shell.QuoteRoundTrip | services/models/dotfile.py:42-59 | `shlex.split(shlex.quote(s))` gives back exactly `[s]` for every string |
| Shell.QuoteEmptyRoundTrip | services/models/dotfile.py:42-59 | the empty string is quoted as `''` and read back as one empty token |
| Shell.QuoteSafeRoundTrip | services/models/dotfile.py:42-59 | a string of safe characters is left unquoted and read back as one word |
| Shell.QuoteEscapedRoundTrip | services/models/dotfile.py:42-59 | any other string is single-quoted with its quotes escaped and read back as one token |
| Shell.LexPlainWord | services/models/dotfile.py:42 | a word free of whitespace, quotes and backslashes at the start of the input is read as one token |
| Shell.LexSpaceEndsWord | services/models/dotfile.py:42 | a space ends the word being read |
| Shell.SplitJoinedPlainWords | services/models/dotfile.py:42 | splitting plain words joined by single spaces gives the words back |

## Left out

- Printing, `input` prompts and the `quiet` flag: each program's output is returned as a value (the statistics message, the rename plan, the deployment result) instead of being printed.
- Command-line parsing (`argparse`, `main`, `_Help`): each `main` is modelled from its parsed arguments on.
- The `pavlov` "press any key" decorators, `deploy.py`, `services/config.py` and `services/locate.py`: they are console and process orchestration.
- Real filesystem effects: a directory tree with given contents stands for the disk. Its listing order is taken to be the order `glob('*')` and `rglob('*')` produce. The renamers yield the moves they would make, in order, without applying them to the tree.
- File contents are given already decoded: a file holds its UTF-8 text or nothing when it does not decode. Bytes and encodings are not modelled.
- Hashing: the digest of a file is an uninterpreted function of the algorithm and the path. `hashlib` itself is not modelled.
- script/utils/filter.py and script/utils/digest.py are not part of this model. script/hash_rename.py is modelled over scripts/utils/filter.py and scripts/utils/digest.py instead. source/utils/digest.py is not part of this model either. For source/hash_rename.py its `hexdigest` is modelled as the scripts one, except that an unknown algorithm name falls back to sha256, as the `--algorithm` help at source/hash_rename.py:101-104 says.
- YAML and JSON parsing: the parsed mappings of the defaults and user files are given as values. Values are `None`, booleans, integers, strings, lists and mappings; floats and other YAML types are not modelled.
- ConfigValue.Key: mapping keys inside a loaded value are `None`, strings and integers only. A boolean key (`true:`) is given as the integer key it compares equal to (`1` or `0`): lookups agree with Python, but `str()` of such a mapping shows `1` where Python shows `True`. Float keys are not modelled. `ConfigValue.ParseInt` accepts ASCII digits only, where `int()` also accepts other Unicode decimal digits.
- File text is the text after universal-newline translation: `open` in text mode reads `\r\n` and a lone `\r` as `\n`, and the model starts from the translated text (scripts/stats.py:125, source/stats.py:97, services/models/dotfile.py:73-74).
- Python's Unicode `\w` is a predicate parameter. The proofs rely only on no whitespace character being a word character. `\s` is Python's whitespace set.
- `str.lower()`, `str.upper()` and `str.title()` are modelled on ASCII letters only. The case conversion of non-ASCII names is not modelled.
- `repr()` of a string is modelled as the string between single quotes. Python's quote selection and escaping are not modelled, so the `str` of a configuration value holding quotes may differ.
- `shlex.quote` is modelled in ASCII mode, with its safe-character set and its single-quote rule. `shlex.split` is modelled in POSIX mode with whitespace splitting and without comments; escapes inside double quotes are limited to `\"` and `\\`.
- FsTree.ParsePath: path arguments are taken relative to the tree. An absolute path is not modelled (a leading `/` is dropped, so `/x` reads as `x`) and `..` is kept as an ordinary component name rather than stepping up a directory.
- Windows paths beyond the drive letter, symbolic links and `Path.home()` are not modelled. The home directory is a parameter, and an absolute path is a drive plus its components.
- Concurrency: the singleton and the class-level registry are modelled for a single thread.
- ScriptHashRename.Command / SourceHashRename.Command: every `rename` call of `main` is planned on the tree as it was before the command, while in Python a later call sees the renames of earlier ones. The plans differ when paths repeat or overlap, as in `hash_rename a.txt a.txt`: in Python the second call finds nothing to rename, because `a.txt` is no longer a file and listing a missing path yields nothing, while the model plans a second move of `a.txt`.

## Findings

| source | as written | input that shows it | evidently intended | confidence | as-written member | corrected member |
|---|---|---|---|---|---|---|
| source/hash_rename.py:59-64 | inside the loop over the files `filter` yields, the digest, the parent directory and the file renamed all come from `path`, the argument, instead of the yielded file `i`; only the suffixes come from `i` | `rename()` (or `rename('.')`) in a directory holding only `a.txt`: the first pass digests and renames `.`, which fails with `IsADirectoryError`, and `a.txt` is never renamed | each yielded file `i` is digested and renamed to `prefix + digest(i) + suffixes(i)` in `i.parent` (or the current directory when flattening) | high, not executed | SourceHashRename.DefaultPathAsWritten, SourceHashRename.DirectoryArgumentFails, SourceHashRename.ACounterexample | SourceHashRename.DefaultPathIntended, SourceHashRename.DirectoryArgumentRenamesFiles, SourceHashRename.Rename |
