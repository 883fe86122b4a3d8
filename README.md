# S3ServerCfg — a verified model of the s3server configuration session

`S3ServerCfg` (cli/utils/components/s3server_cfg.py) manages the s3server
section of the provisioner's pillar: a YAML document, `s3server.sls`, that it
loads when it is constructed, edits in memory, and saves back with a `.bak`
copy of the previous file. `process_inputs` performs exactly one of four
actions, picked by command-line switches in a fixed priority:

1. an interactive walk over 31 settings: 15 are always prompted for, and
   three groups (3 stats, 8 Clovis and 5 libevent settings) are prompted
   for only when their gate lets them through;
2. printing the document in YAML;
3. merging another YAML file into the document;
4. restoring the file from its backup.

With no switch set, it reports "no usable inputs".

The model has five modules:

- `Errors` — `Option`, `Result`, and the exceptions the code can raise:
  - `MissingSetting`: a `KeyError`/`TypeError` from subscripting a setting
    that is not there;
  - `EndOfInput`: `EOFError` from `input()`;
  - `FileNotFound`;
  - `Malformed`: YAML the loader rejects, or that is not a mapping.
- `Document` — the YAML value tree, Python truthiness, reading (`Get`) and
  assigning (`Put`) a setting through a chain of subscripts, and the
  shallow `dict.update` merge.
- `FileSystem` — the files as a map from path to contents, in a class
  `FileStore` updated in place. Also the backup path, and the save and
  restore actions as functions on the map.
- `Prompts` — the interactive walk as a pure specification. The walk is a
  table of the 31 settings in prompt order. Each prompt reads one line and
  assigns `line or current`. Three decisions shape the walk:
  - the stats prompts run when the stored `S3_ENABLE_STATS` is truthy after
    its own prompt;
  - the Clovis section runs when the answer to its gate question is
    non-empty;
  - the libevent section is gated the same way.

  The module proves when the walk completes, which lines it reads, what each
  setting ends up holding, and that nothing else changes.
- `Session` — the class `S3ServerCfg` with its document (`options`) and
  path. It contains:
  - `Open`: the constructor with its load-if-exists;
  - `Interact`, `AskEach`, `AskGated` and `Ask`: the walk, executed step by
    step on the object's document and proved equal to the specification;
  - `ProcessInputs`: proved equal to the pure dispatch function `Process`;
  - `Save`: backup, then write.

  The lemmas state the dispatch properties:
  - only the walk and the merge ask the caller to persist;
  - no action writes the configuration file except a restore;
  - a restore after a save brings the old file back;
  - with a codec that reads back what it writes, save then load returns the
    saved document.

The YAML library is a parameter (`Codec`, a pair of a dump and a load
function), and so are the console input (a sequence of lines) and the file
system (a `FileStore`). The default configuration path, which the code
derives from the base class's pillar root, is also a parameter of `Open`.

## Model

| member | source | states |
|---|---|---|
| Document.Truthy | cli/utils/components/s3server_cfg.py:230 | Python truthiness: a value is false iff it is `None`, `False`, `0`, `""`, an empty list or an empty mapping |
| Document.Get | cli/utils/components/s3server_cfg.py:74-78 | the chained subscript `d[p0][p1]...`: a lookup below the top level succeeds only if the first key holds a mapping |
| Document.GetTopLevel | cli/utils/components/s3server_cfg.py:74-78 | a missing first key fails the lookup (`KeyError`), a non-mapping on the way fails it (`TypeError`), and a present one-key path reads the stored value |
| Document.GetThroughPrefix | cli/utils/components/s3server_cfg.py:74-78 | a successful lookup found a mapping at every proper prefix of its path |
| Document.Put | cli/utils/components/s3server_cfg.py:74-78 | the chained item assignment `d[p0]...[pn] = x`: a one-key path stores `x` under its key |
| Document.PutUnderMissing | cli/utils/components/s3server_cfg.py:74-78 | an assignment whose parent cannot be reached leaves the document as it is |
| Document.PutKeys | cli/utils/components/s3server_cfg.py:74-78 | only a top-level assignment adds a key (its own); a deeper one keeps the top-level keys |
| Document.PutKeepsSiblings | cli/utils/components/s3server_cfg.py:74-78 | an assignment leaves every other top-level entry as it was |
| Document.GetAfterPut | cli/utils/components/s3server_cfg.py:74-78 | assigning a setting that exists through its chain of subscripts makes it read back as the assigned value |
| Document.PutCurrent | cli/utils/components/s3server_cfg.py:74-78 | assigning `input() or current` with an empty line writes the current value back, leaving the whole document unchanged |
| Document.GetAfterPutElsewhere | cli/utils/components/s3server_cfg.py:74-78 | assigning one setting leaves every setting that is neither its ancestor nor its descendant unchanged |
| Document.PutKeepsShape | cli/utils/components/s3server_cfg.py:74-78 | assigning an existing setting never creates or removes a key except below that setting |
| Document.Merge | cli/utils/components/s3server_cfg.py:439-445 | `update`: the keys are the union; every top-level key of the incoming document takes the incoming value; every other key keeps its old value |
| Document.MergeReplacesWholesale | cli/utils/components/s3server_cfg.py:444 | a setting under a top-level key the incoming document has reads exactly as in the incoming document (no deep merge) |
| Document.MergeKeepsOthers | cli/utils/components/s3server_cfg.py:444 | a setting under a top-level key the incoming document lacks reads as before |
| Document.MergeDropsNestedSiblings | cli/utils/components/s3server_cfg.py:444 | concretely, merging `{domain: {A: 1}}` into `{domain: {A: 2, B: 3}}` loses `B` |
| FileSystem.BackupPath | cli/utils/components/s3server_cfg.py:448-449 | the backup file is the path with `.bak` appended: a different file that starts with the whole path and ends with exactly `.bak` |
| FileSystem.BackupPathInjective | cli/utils/components/s3server_cfg.py:459 | distinct configuration files have distinct backups |
| FileSystem.Saved | cli/utils/components/s3server_cfg.py:457-474 | `save`: it fails, changing nothing, when the file is missing (`copy` raises). Otherwise the backup holds the old contents, the file holds the new text, and every other file is unchanged |
| FileSystem.Restored | cli/utils/components/s3server_cfg.py:447-452 | the restore action: with a backup, the file gets the backup's contents and every other file is unchanged; without a backup, no file changes |
| FileSystem.RestoreUndoesSave | cli/utils/components/s3server_cfg.py:447-474 | restoring right after a save gives the file its pre-save contents back |
| FileSystem.FileStore.Exists | cli/utils/components/s3server_cfg.py:27 | `os.path.exists` is membership in the store |
| FileSystem.FileStore.Read | cli/utils/components/s3server_cfg.py:441-443 | reading returns the contents, or `FileNotFound` when the file is missing |
| FileSystem.FileStore.Copy | cli/utils/components/s3server_cfg.py:459 | `shutil.copy` sets the destination to the source's contents, or raises and changes nothing when the source is missing |
| FileSystem.FileStore.Write | cli/utils/components/s3server_cfg.py:466-474 | writing replaces (or creates) exactly one file |
| Prompts.Answer | cli/utils/components/s3server_cfg.py:74-78 | `input() or current`: a non-empty line is stored as raw text, an empty one keeps the current value |
| Prompts.TruthyAnswer | cli/utils/components/s3server_cfg.py:227-230 | the stats switch is truthy after its prompt iff the typed line is non-empty (even "false") or the old value was truthy |
| Prompts.LeavesSeparate | cli/utils/components/s3server_cfg.py:69-423 | the 31 prompted settings are distinct and three keys deep, hence pairwise unrelated, and the 15th is `S3_ENABLE_STATS` |
| Prompts.AskStep | cli/utils/components/s3server_cfg.py:69-78 | one prompt: a missing setting raises before anything is shown or read; a present one is shown, then the end of input raises `EOFError`, otherwise one line is read. An exception leaves the document and the position unchanged; a completed prompt advances one line |
| Prompts.AskAll | cli/utils/components/s3server_cfg.py:69-229 | consecutive prompts: nothing runs after an exception, the position only moves forward within the input, and the only new exceptions are the end of input or a missing setting |
| Prompts.AskAllConsumes | cli/utils/components/s3server_cfg.py:69-229 | a completed run reads exactly one line per prompt and shows every prompt, in order |
| Prompts.AskAllCompletes | cli/utils/components/s3server_cfg.py:69-229 | a run completes iff every setting it asks for exists and one line remains per prompt |
| Prompts.AskAllFirstAnswer | cli/utils/components/s3server_cfg.py:69-78 | after a completed run, the first setting holds `line or current` for the first line read |
| Prompts.Pause | cli/utils/components/s3server_cfg.py:68 | "press any key": reads exactly one line and shows no prompt; with no input, it raises `EOFError` and changes nothing |
| Prompts.StatsOn | cli/utils/components/s3server_cfg.py:230 | the `if` after the stats prompt: true iff the switch is there and truthy |
| Prompts.StatsBlock | cli/utils/components/s3server_cfg.py:230-262 | the stats prompts run only when no exception has been raised and the stored switch is truthy; otherwise nothing changes, and the position only moves forward within the input |
| Prompts.Gate | cli/utils/components/s3server_cfg.py:264-267 | a gate question: with no input left it raises `EOFError`; an empty answer skips the section, consuming only that line; nothing runs after an exception |
| Prompts.MainBlock | cli/utils/components/s3server_cfg.py:67-229 | the pause and the main prompts stay within the input; with no input, the pause raises and nothing else happens |
| Prompts.Walk | cli/utils/components/s3server_cfg.py:67-425 | the whole walk stays within the input, and the only exceptions it raises are the end of input and a missing setting |
| Prompts.StatsAsked | cli/utils/components/s3server_cfg.py:227-230 | the stats prompts are asked iff there is a stats answer and it is non-empty (even "false"), or it is empty and the stored switch is truthy |
| Prompts.ClovisGate | cli/utils/components/s3server_cfg.py:264-267 | the Clovis question is the line after the pause, the 15 main answers and, when asked, the 3 stats answers |
| Prompts.ClovisAsked | cli/utils/components/s3server_cfg.py:264-267 | the Clovis section runs iff its question gets a non-empty line |
| Prompts.LibeventGate | cli/utils/components/s3server_cfg.py:362-364 | the libevent question is the line after the Clovis question and, when that section was entered, its 8 answers |
| Prompts.LibeventAsked | cli/utils/components/s3server_cfg.py:362-366 | the libevent section runs iff its question gets a non-empty line |
| Prompts.Shown | cli/utils/components/s3server_cfg.py:67-425 | the settings the answers select, which a completed walk prompts for: they start with the 15 main ones, followed by the 3 stats ones when those are asked, and number at most 31 |
| Prompts.EarlyFrame | cli/utils/components/s3server_cfg.py:67-262 | the main and stats stages change no setting unrelated to all 15 main settings and, when the answers select them, the stats settings |
| Prompts.LateFrame | cli/utils/components/s3server_cfg.py:264-423 | the two gated stages change no setting unrelated to every setting of the sections the answers select |
| Prompts.LibeventAt | cli/utils/components/s3server_cfg.py:362-364 | after a completed Clovis stage, the libevent question is read at its computed line |
| Prompts.BeforeLibevent | cli/utils/components/s3server_cfg.py:67-360 | the stages before the libevent section leave the libevent settings alone |
| Prompts.AskAllFailed | cli/utils/components/s3server_cfg.py:67-425 | once an exception is raised, no later prompt runs |
| Prompts.AskAllFrame | cli/utils/components/s3server_cfg.py:69-229 | a run of prompts changes no setting unrelated to the ones it asks for |
| Prompts.AskAllShape | cli/utils/components/s3server_cfg.py:69-229 | a run of prompts never adds or removes keys outside the settings it asks for |
| Prompts.AskAllBlank | cli/utils/components/s3server_cfg.py:69-229 | with only empty lines left, a run of prompts leaves the document unchanged, whatever exception stops it |
| Prompts.AskAllOutcome | cli/utils/components/s3server_cfg.py:69-229 | a run of prompts completes iff every setting it asks for exists and one line remains per prompt; it then shows them all in order and reads exactly that many lines |
| Prompts.AskAllAnswers | cli/utils/components/s3server_cfg.py:69-229 | after a completed run, the i-th setting holds `line or current` for the i-th line read |
| Prompts.GateFrame | cli/utils/components/s3server_cfg.py:264-267 | a gated section changes no setting unrelated to its own |
| Prompts.GateShape | cli/utils/components/s3server_cfg.py:264-267 | a gated section keeps the key structure outside its settings |
| Prompts.GateOutcome | cli/utils/components/s3server_cfg.py:264-267 | a gate completes iff its question gets a line and, if that line is non-empty (any text, "no" included), the section completes. The answer is never stored |
| Prompts.GateFailed | cli/utils/components/s3server_cfg.py:362-366 | a gate after an exception does nothing |
| Prompts.GateAnswers | cli/utils/components/s3server_cfg.py:362-423 | inside an entered section, each setting holds `line or current` for the line after the question plus its index |
| Prompts.GateSkipped | cli/utils/components/s3server_cfg.py:362-366 | an empty answer to the gate question skips the section without changing any setting |
| Prompts.MainOutcome | cli/utils/components/s3server_cfg.py:67-230 | the pause and the 15 main prompts complete iff those settings exist and 16 lines are there. The stats switch they leave is truthy iff the 16th line is non-empty or the stored switch was truthy |
| Prompts.PresentAfterMain | cli/utils/components/s3server_cfg.py:230-366 | the later sections find their settings exactly when the loaded document had them |
| Prompts.StatsStage | cli/utils/components/s3server_cfg.py:230-262 | the stats stage completes iff, when asked, its 3 settings exist and the lines last; the Clovis question is then read at line 19 when stats were asked, at line 16 otherwise |
| Prompts.GatesStage | cli/utils/components/s3server_cfg.py:264-423 | the two gated sections complete iff the settings of the entered sections exist and the lines last; they add exactly those prompts |
| Prompts.WalkCompletes | cli/utils/components/s3server_cfg.py:67-425 | the walk completes (returns True) iff every setting it prompts for exists and there is one line per prompt, per gate question and for the pause; it then shows exactly those prompts in order |
| Prompts.WalkFrame | cli/utils/components/s3server_cfg.py:67-425 | the walk changes no setting unrelated to every setting the answers select (`Shown`), even when an exception stops it |
| Prompts.AskAllGrows | cli/utils/components/s3server_cfg.py:69-229 | the prompts shown so far are never taken back: they are a prefix of the prompts after the run |
| Prompts.AskAllKeeps | cli/utils/components/s3server_cfg.py:69-229 | a run of prompts changes no setting unrelated to every prompt it actually showed, however early an exception stopped it |
| Prompts.GateGrows | cli/utils/components/s3server_cfg.py:264-267 | a gated section only adds prompts |
| Prompts.GateKeeps | cli/utils/components/s3server_cfg.py:264-423 | a gated section changes no setting unrelated to every prompt it actually showed |
| Prompts.StatsBlockGrows | cli/utils/components/s3server_cfg.py:230-262 | the stats stage only adds prompts |
| Prompts.StatsBlockKeeps | cli/utils/components/s3server_cfg.py:230-262 | the stats stage changes no setting unrelated to every prompt it actually showed |
| Prompts.WalkKeepsUnprompted | cli/utils/components/s3server_cfg.py:67-425 | the walk changes no setting unrelated to every prompt it actually showed: when a missing setting or the end of input stops it, every setting it never reached keeps its value |
| Prompts.WalkBlank | cli/utils/components/s3server_cfg.py:67-425 | all-empty input leaves the document as loaded |
| Prompts.MainAnswer | cli/utils/components/s3server_cfg.py:69-229 | after a completed walk, each main setting holds `line or current` for its own line (1 + its index) |
| Prompts.MainBlockAnswer | cli/utils/components/s3server_cfg.py:69-229 | after the pause and the completed main prompts, main setting i holds `line or current` for line 1 + i |
| Prompts.AfterMain | cli/utils/components/s3server_cfg.py:230-423 | the stats and gated stages leave every main setting as the main block left it |
| Prompts.TwoGatesComplete | cli/utils/components/s3server_cfg.py:264-423 | two gated sections in a row complete iff each entered section finds its settings and the lines last |
| Prompts.TwoGatesConsume | cli/utils/components/s3server_cfg.py:264-423 | two completed gated sections read the two questions plus one line per prompt of each entered section, and add exactly those prompts |
| Prompts.StatsAnswer | cli/utils/components/s3server_cfg.py:230-262 | after a completed walk that asked for stats, each stats setting holds `line or current` for lines 16-18 |
| Prompts.ClovisAnswer | cli/utils/components/s3server_cfg.py:264-360 | after a completed walk that entered the Clovis section, each Clovis setting holds `line or current` for the lines after the gate question |
| Prompts.LibeventAnswer | cli/utils/components/s3server_cfg.py:362-423 | the same for the libevent section |
| Session.ModeOf | cli/utils/components/s3server_cfg.py:67-455 | the action is the first switch set, in the order interactive, show format, merge file (a non-empty name), load default; otherwise no action |
| Session.WalkReport | cli/utils/components/s3server_cfg.py:425 | a completed walk returns True; otherwise the very exception that stopped it propagates. The report carries the prompts shown and the number of lines read, and prints nothing |
| Session.Incoming | cli/utils/components/s3server_cfg.py:439-443 | the file to merge: `FileNotFound` when missing, `Malformed` when the loader rejects it, else its parsed document |
| Session.Process | cli/utils/components/s3server_cfg.py:65-455 | one call: the walk wins over every other switch, changes no file, and reports the walk's prompts, lines read and exception; show-format changes nothing and returns False; merge replaces top-level entries and returns True, or raises before changing anything, and prints nothing; restore changes only the file on disk, never the document, returns False and prints only the missing-backup error, exactly when there is no backup; only the walk shows prompts; no switch changes nothing. Only the walk and the merge return True, only the walk reads lines, only a restore with a backup writes a file |
| Session.Loaded | cli/utils/components/s3server_cfg.py:27-28 | the document the constructor starts from: empty when the file does not exist, else the parsed file, and a parse failure propagates as `Malformed` |
| Session.InteractivePersists | cli/utils/components/s3server_cfg.py:67-425 | interactive mode returns True iff every prompted setting exists and the input does not run out; then it reports the prompts shown and the lines read |
| Session.InteractiveBlank | cli/utils/components/s3server_cfg.py:67-425 | interactive mode with only empty lines leaves the document as loaded |
| Session.InteractiveKeeps | cli/utils/components/s3server_cfg.py:67-425 | interactive mode leaves unchanged every setting unrelated to every setting the answers select (`Shown`) |
| Session.InteractiveKeepsUnprompted | cli/utils/components/s3server_cfg.py:67-425 | interactive mode leaves unchanged every setting unrelated to every prompt the call reports, including the settings an exception kept it from reaching |
| Session.InteractiveStoresText | cli/utils/components/s3server_cfg.py:74-78 | a non-empty answer is stored as the raw string, with no coercion (typing 42 for a boolean stores "42"); an empty answer keeps the value |
| Session.SaveThenRestore | cli/utils/components/s3server_cfg.py:447-474 | restore mode right after a save gives back the file as it was before the save, quietly, without touching the document |
| Session.RestoreWithoutBackup | cli/utils/components/s3server_cfg.py:447-452 | restore mode without a backup changes no file, returns False and reports the missing backup |
| Session.SaveThenLoad | cli/utils/components/s3server_cfg.py:58-60 | with a codec that reads back what it writes, loading the file right after a save yields the saved document, and the backup holds the previous file |
| Session.LoadSaveLoad | cli/utils/components/s3server_cfg.py:27-28 | loading, saving unchanged and loading again yields the same document |
| Session.S3ServerCfg.Init | cli/utils/components/s3server_cfg.py:17-28 | the object holds the given path and document |
| Session.S3ServerCfg.Open | cli/utils/components/s3server_cfg.py:17-28 | the given path, or the default one when empty; the object's document is `Loaded` for that path, and a parse failure propagates |
| Session.S3ServerCfg.Ask | cli/utils/components/s3server_cfg.py:69-78 | one prompt carried out in place equals one step of the specification |
| Session.S3ServerCfg.AskEach | cli/utils/components/s3server_cfg.py:69-229 | the prompt loop leaves the object in the state the specified run of prompts gives |
| Session.S3ServerCfg.AskGated | cli/utils/components/s3server_cfg.py:264-267 | a gate carried out in place equals the specified gate |
| Session.S3ServerCfg.Interact | cli/utils/components/s3server_cfg.py:67-425 | the interactive branch leaves the document, the lines read, the prompts and the exception equal to the specified walk |
| Session.S3ServerCfg.ProcessInputs | cli/utils/components/s3server_cfg.py:65-455 | the new document, the new files and the report equal `Process` of the old ones |
| Session.S3ServerCfg.Save | cli/utils/components/s3server_cfg.py:457-474 | the files after `save` are `Saved` of the files before, with the document dumped by the codec, or unchanged with the error when the file is missing |

## Left out

- YAML itself: parsing, dumping, key order and the dump options (`width=1`, `indent=4`) sit behind the `Codec` parameter, whose `load` yields a mapping or nothing.
- Session.Loaded: a file whose YAML is not a mapping counts as `Malformed`. The constructor (lines 58-60) stores whatever `yaml.safe_load` returns instead: `None` for an empty file, or a list or a scalar. Later subscripts on such a value are not modelled.
- Session.Incoming: a merge file whose YAML is not a mapping counts as `Malformed`, and the model raises. In the code, `dict.update` (line 444) accepts some of these and returns True: a list of key/value pairs is merged, and an empty list or an empty string is a no-op. `update` raises `TypeError` for `None` or a number, and `TypeError` or `ValueError` for a non-empty string or a list whose items are not pairs.
- Shared sub-mappings: the document is a tree with no shared parts. YAML anchors and aliases make two keys share one dictionary, so an assignment at lines 74-423 writes through every alias. `WalkFrame` and `AskAllFrame` do not capture that.
- Argument parsing (`__setup_args`, lines 32-55) and the `interactive` switch's registration elsewhere: `Flags` carries the four parsed values.
- The default configuration path (lines 21-25) joins the base class's pillar root, which is not part of this model; `Open` takes it as a parameter.
- Printed text: `Notice` records the document dump (line 427) and the two error messages, "No Backup File exists" (line 451) and "No usable inputs provided" (line 454). `Report.prompts` records which settings were prompted for. Not recorded: the prompt texts, the pause and gate question texts, and the three section banners (lines 268, 315 and 367). The pause and the two gate questions read a line but are not in `prompts`.
- `validate` (lines 477-478) has the body `pass` and returns nothing; there is nothing to model.
- The class attributes `__options = {}` and `__cfg_path`: when no file exists, the code mutates the dictionary shared by every instance. Here each object owns its document, so that aliasing is not captured.
- I/O failures other than a missing file (permissions, a full disk, a directory path) and the contents of `.bak` when the copy's target is not writable.
- YAML floats, dates and non-string keys: `Value` has null, booleans, integers, strings, lists and string-keyed maps.
