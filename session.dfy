/**
 * The configuration session: the document loaded from the configuration
 * file, the four mutually exclusive actions of `process_inputs`, and `save`
 * with its backup. `Process` specifies one call of `process_inputs` as a
 * function of the document, the files and the input lines; the class
 * `S3ServerCfg` carries it out in place and is proved to agree with it.
 */
module Session {
  import opened Errors
  import opened Document
  import opened FileSystem
  import opened Prompts

  /** The command-line switches `process_inputs` reads; an empty `mergeFile` is an absent one. */
  datatype Flags = Flags(interactive: bool, showFormat: bool, mergeFile: string, loadDefault: bool)

  /** What the session prints besides the prompts. */
  datatype Notice = Quiet | ShowDocument(text: string) | NoBackupFile | NoUsableInputs

  /** How `process_inputs` ends: the boolean it returns (persist or not), or the exception it raises. */
  datatype Outcome = Returned(persist: bool) | Raised(error: Error)

  /** What a call reports: its outcome, its notice, the prompts shown and the lines read. */
  datatype Report = Report(outcome: Outcome, notice: Notice, prompts: seq<Path>, consumed: nat)

  /** The document and the files after a call, and its report. */
  datatype Effect = Effect(doc: Doc, files: Files, report: Report)

  /** Which action a set of switches selects: the first that is set, in this order. */
  datatype Mode = Interactive | ShowFormat | MergeFile | LoadDefault | NoAction

  function ModeOf(flags: Flags): (m: Mode)
    ensures m == Interactive <==> flags.interactive
    ensures m == ShowFormat <==> !flags.interactive && flags.showFormat
    ensures m == MergeFile <==> !flags.interactive && !flags.showFormat && flags.mergeFile != ""
    ensures m == LoadDefault <==> !flags.interactive && !flags.showFormat && flags.mergeFile == "" && flags.loadDefault
  {
    if flags.interactive then Interactive
    else if flags.showFormat then ShowFormat
    else if flags.mergeFile != "" then MergeFile
    else if flags.loadDefault then LoadDefault
    else NoAction
  }

  /** The report of a walk: True when it completes, else the exception that stopped it. */
  function WalkReport(w: Run): (rep: Report)
    ensures rep.outcome == Returned(true) <==> w.failure.None?
    ensures rep.outcome.Raised? <==> w.failure.Some?
    ensures w.failure.Some? ==> rep.outcome == Raised(w.failure.value)
    ensures rep.prompts == w.prompts && rep.consumed == w.pos && rep.notice == Quiet
  {
    Report(if w.failure.None? then Returned(true) else Raised(w.failure.value), Quiet, w.prompts, w.pos)
  }

  /** Reading and parsing the file to merge; the parsed document or the exception. */
  function Incoming(files: Files, file: string, codec: Codec): (r: Result<Doc>)
    ensures file !in files ==> r == Failure(FileNotFound(file))
    ensures file in files ==> (r.Success? <==> codec.load(files[file]).Some?)
    ensures file in files && r.Success? ==> r.value == codec.load(files[file]).value
    ensures file in files && r.Failure? ==> r.error == Malformed(file)
  {
    if file !in files then Failure(FileNotFound(file))
    else match codec.load(files[file])
      case Some(d) => Success(d)
      case None => Failure(Malformed(file))
  }

  /**
   * One call of `process_inputs` on the document `doc`, with the files
   * `files`, the configuration file `path`, the switches `flags`, the
   * console lines `lines` and the YAML codec `codec`.
   */
  function Process(doc: Doc, files: Files, path: string, flags: Flags, lines: seq<string>, codec: Codec): (e: Effect)
    // the interactive walk wins over every other switch
    ensures flags.interactive ==>
      && e.files == files
      && e.doc == Walk(doc, lines).doc
      && e.report.prompts == Walk(doc, lines).prompts
      && e.report.consumed == Walk(doc, lines).pos
      && e.report.notice == Quiet
      && (e.report.outcome == Returned(true) <==> Walk(doc, lines).failure.None?)
      && (Walk(doc, lines).failure.Some? ==> e.report.outcome == Raised(Walk(doc, lines).failure.value))
    // showing the format changes nothing and does not ask to persist
    ensures ModeOf(flags) == ShowFormat ==>
      e == Effect(doc, files, Report(Returned(false), ShowDocument(codec.dump(doc)), [], 0))
    // merging replaces top-level entries wholesale, or raises before changing anything
    ensures ModeOf(flags) == MergeFile ==>
      && e.files == files
      && (Incoming(files, flags.mergeFile, codec).Success? ==>
            e.doc == Merge(doc, Incoming(files, flags.mergeFile, codec).value) && e.report.outcome == Returned(true))
      && (Incoming(files, flags.mergeFile, codec).Failure? ==>
            e.doc == doc && e.report.outcome == Raised(Incoming(files, flags.mergeFile, codec).error))
    // restoring copies the backup over the file on disk, never the document in memory
    ensures ModeOf(flags) == LoadDefault ==>
      && e.doc == doc
      && e.files == Restored(files, path)
      && e.report.outcome == Returned(false)
      && (e.report.notice == NoBackupFile <==> BackupPath(path) !in files)
    // only the walk shows prompts
    ensures !flags.interactive ==> e.report.prompts == []
    // a merge prints nothing; a restore prints only the missing-backup error
    ensures ModeOf(flags) == MergeFile ==> e.report.notice == Quiet
    ensures ModeOf(flags) == LoadDefault ==>
      e.report.notice == (if BackupPath(path) in files then Quiet else NoBackupFile)
    ensures ModeOf(flags) == NoAction ==>
      e == Effect(doc, files, Report(Returned(false), NoUsableInputs, [], 0))
    // only the walk and the merge ask the caller to persist; only the walk reads lines
    ensures e.report.outcome == Returned(true) ==> ModeOf(flags) in {Interactive, MergeFile}
    ensures e.report.consumed > 0 ==> flags.interactive
    // no action writes the configuration file except a restore
    ensures e.files != files ==> ModeOf(flags) == LoadDefault && BackupPath(path) in files
  {
    match ModeOf(flags)
    case Interactive =>
      var w := Walk(doc, lines);
      Effect(w.doc, files, WalkReport(w))
    case ShowFormat =>
      Effect(doc, files, Report(Returned(false), ShowDocument(codec.dump(doc)), [], 0))
    case MergeFile =>
      (match Incoming(files, flags.mergeFile, codec)
       case Success(incoming) => Effect(Merge(doc, incoming), files, Report(Returned(true), Quiet, [], 0))
       case Failure(err) => Effect(doc, files, Report(Raised(err), Quiet, [], 0)))
    case LoadDefault =>
      Effect(doc, Restored(files, path),
             Report(Returned(false), if BackupPath(path) in files then Quiet else NoBackupFile, [], 0))
    case NoAction =>
      Effect(doc, files, Report(Returned(false), NoUsableInputs, [], 0))
  }

  /**
   * The document the constructor starts from: the parsed configuration file
   * when it exists, otherwise an empty one.
   */
  function Loaded(files: Files, path: string, codec: Codec): (r: Result<Doc>)
    ensures path !in files ==> r == Success(map[])
    ensures path in files ==> (r.Success? <==> codec.load(files[path]).Some?)
    ensures path in files && r.Success? ==> r.value == codec.load(files[path]).value
    ensures path in files && r.Failure? ==> r.error == Malformed(path)
  {
    if path !in files then Success(map[]) else Incoming(files, path, codec)
  }

  /** The codec reads back every document it writes. */
  ghost predicate RoundTrips(codec: Codec) {
    forall d: Doc :: codec.load(codec.dump(d)) == Some(d)
  }

  // ---------------------------------------------------------------------
  // Properties of a call

  /** The interactive walk asks to persist iff every prompted setting exists and no read hits end of input. */
  lemma InteractivePersists(doc: Doc, files: Files, path: string, flags: Flags, lines: seq<string>, codec: Codec)
    requires flags.interactive
    ensures Process(doc, files, path, flags, lines, codec).report.outcome == Returned(true) <==>
      Present(doc, Shown(doc, lines)) && |Shown(doc, lines)| + 3 <= |lines|
    ensures Process(doc, files, path, flags, lines, codec).report.outcome == Returned(true) ==>
      && Process(doc, files, path, flags, lines, codec).report.prompts == Shown(doc, lines)
      && Process(doc, files, path, flags, lines, codec).report.consumed == |Shown(doc, lines)| + 3
  {
    WalkCompletes(doc, lines);
  }

  /** Blank answers everywhere leave the document as loaded, whatever the walk's outcome. */
  lemma InteractiveBlank(doc: Doc, files: Files, path: string, flags: Flags, lines: seq<string>, codec: Codec)
    requires flags.interactive && forall i :: 0 <= i < |lines| ==> lines[i] == ""
    ensures Process(doc, files, path, flags, lines, codec).doc == doc
  {
    WalkBlank(doc, lines);
  }

  /** A setting the walk did not prompt for keeps its value. */
  lemma InteractiveKeeps(doc: Doc, files: Files, path: string, flags: Flags, lines: seq<string>, codec: Codec, q: Path)
    requires flags.interactive && AllDisjoint(Shown(doc, lines), q)
    ensures Get(Process(doc, files, path, flags, lines, codec).doc, q) == Get(doc, q)
  {
    WalkFrame(doc, lines, q);
  }

  /**
   * A setting unrelated to every prompt the call reported keeps its value,
   * also when an exception stopped the walk before it reached that setting.
   */
  lemma InteractiveKeepsUnprompted(doc: Doc, files: Files, path: string, flags: Flags, lines: seq<string>, codec: Codec, q: Path)
    requires flags.interactive && AllDisjoint(Process(doc, files, path, flags, lines, codec).report.prompts, q)
    ensures Get(Process(doc, files, path, flags, lines, codec).doc, q) == Get(doc, q)
  {
    WalkKeepsUnprompted(doc, lines, q);
  }

  /** A main setting ends up holding the raw text typed for it, uncoerced, or its old value. */
  lemma InteractiveStoresText(doc: Doc, files: Files, path: string, flags: Flags, lines: seq<string>, codec: Codec, i: nat)
    requires flags.interactive && i < |MainLeaves|
    requires Process(doc, files, path, flags, lines, codec).report.outcome == Returned(true)
    ensures 1 + i < |lines|
    ensures lines[1 + i] != "" ==> Get(Process(doc, files, path, flags, lines, codec).doc, MainLeaves[i]) == Some(Str(lines[1 + i]))
    ensures lines[1 + i] == "" ==> Get(Process(doc, files, path, flags, lines, codec).doc, MainLeaves[i]) == Get(doc, MainLeaves[i])
  {
    MainAnswer(doc, lines, i);
  }

  /** Restoring right after a save brings back the file as it was before the save. */
  lemma SaveThenRestore(doc: Doc, files: Files, path: string, flags: Flags, lines: seq<string>, codec: Codec, text: string)
    requires ModeOf(flags) == LoadDefault && Saved(files, path, text).Success?
    ensures var e := Process(doc, Saved(files, path, text).value, path, flags, lines, codec);
      e.files[path] == files[path] && e.report.notice == Quiet && e.doc == doc
  {
    RestoreUndoesSave(files, path, text);
  }

  /** Restoring without a backup leaves every file alone. */
  lemma RestoreWithoutBackup(doc: Doc, files: Files, path: string, flags: Flags, lines: seq<string>, codec: Codec)
    requires ModeOf(flags) == LoadDefault && BackupPath(path) !in files
    ensures Process(doc, files, path, flags, lines, codec).files == files
    ensures Process(doc, files, path, flags, lines, codec).report == Report(Returned(false), NoBackupFile, [], 0)
  {
  }

  /** With a codec that reads back what it writes, loading after a save gives back the saved document. */
  lemma SaveThenLoad(doc: Doc, files: Files, path: string, codec: Codec)
    requires RoundTrips(codec) && Saved(files, path, codec.dump(doc)).Success?
    ensures Loaded(Saved(files, path, codec.dump(doc)).value, path, codec) == Success(doc)
    ensures Saved(files, path, codec.dump(doc)).value[BackupPath(path)] == files[path]
  {
    assert codec.load(codec.dump(doc)) == Some(doc);
  }

  /** Loading, then saving unchanged, then loading again gives the same document. */
  lemma LoadSaveLoad(files: Files, path: string, codec: Codec)
    requires RoundTrips(codec) && path in files && Loaded(files, path, codec).Success?
    ensures var d := Loaded(files, path, codec).value;
      Saved(files, path, codec.dump(d)).Success? && Loaded(Saved(files, path, codec.dump(d)).value, path, codec) == Success(d)
  {
    var d := Loaded(files, path, codec).value;
    SaveThenLoad(d, files, path, codec);
  }

  // ---------------------------------------------------------------------
  // The session object

  /** `S3ServerCfg`: the document in memory and the path of the configuration file. */
  class S3ServerCfg {
    var options: Doc
    const cfgPath: string

    constructor Init(cfgPath: string, options: Doc)
      ensures this.cfgPath == cfgPath && this.options == options
    {
      this.cfgPath := cfgPath;
      this.options := options;
    }

    /**
     * `S3ServerCfg(cfg_path)`: the given path, or else the default one, loaded
     * when the file exists; a parse failure propagates.
     */
    static method Open(cfgPath: string, defaultPath: string, fs: FileStore, codec: Codec) returns (r: Result<S3ServerCfg>)
      ensures var path := if cfgPath != "" then cfgPath else defaultPath;
        && (Loaded(fs.files, path, codec).Success? ==>
              r.Success? && fresh(r.value) && r.value.cfgPath == path && r.value.options == Loaded(fs.files, path, codec).value)
        && (Loaded(fs.files, path, codec).Failure? ==> r == Failure(Loaded(fs.files, path, codec).error))
    {
      var path := if cfgPath != "" then cfgPath else defaultPath;
      var options: Doc := map[];
      var present := fs.Exists(path);
      if present {
        var text := fs.Read(path);
        match codec.load(text.value)
        case None =>
          return Failure(Malformed(path));
        case Some(d) =>
          options := d;
      }
      var cfg := new S3ServerCfg.Init(path, options);
      r := Success(cfg);
    }

    /** One prompt: show the current value, read a line, store `line or current`. */
    method Ask(leaf: Path, lines: seq<string>, pos: nat, prompts: seq<Path>)
      returns (pos': nat, prompts': seq<Path>, failure: Option<Error>)
      modifies this
      ensures Run(options, pos', prompts', failure) == AskStep(Run(old(options), pos, prompts, None), leaf, lines)
    {
      pos', prompts', failure := pos, prompts, None;
      var current := Get(options, leaf);
      if current.None? {
        failure := Some(MissingSetting(leaf));
        return;
      }
      prompts' := prompts + [leaf];
      if pos >= |lines| {
        failure := Some(EndOfInput);
        return;
      }
      options := Put(options, leaf, Answer(lines[pos], current.value));
      pos' := pos + 1;
    }

    /** A run of prompts, stopping at the first exception. */
    method AskEach(leaves: seq<Path>, lines: seq<string>, pos0: nat, prompts0: seq<Path>)
      returns (pos: nat, prompts: seq<Path>, failure: Option<Error>)
      modifies this
      ensures Run(options, pos, prompts, failure) == AskAll(Run(old(options), pos0, prompts0, None), leaves, lines)
    {
      pos, prompts, failure := pos0, prompts0, None;
      var i := 0;
      while i < |leaves| && failure.None?
        invariant 0 <= i <= |leaves|
        invariant AskAll(Run(old(options), pos0, prompts0, None), leaves, lines)
               == AskAll(Run(options, pos, prompts, failure), leaves[i..], lines)
      {
        assert leaves[i..] == [leaves[i]] + leaves[i + 1..];
        pos, prompts, failure := Ask(leaves[i], lines, pos, prompts);
        i := i + 1;
      }
      if failure.Some? {
        AskAllFailed(Run(options, pos, prompts, failure), leaves[i..], lines);
      }
    }

    /** A yes/no question, then the section when the answer is non-empty. */
    method AskGated(leaves: seq<Path>, lines: seq<string>, pos0: nat, prompts0: seq<Path>)
      returns (pos: nat, prompts: seq<Path>, failure: Option<Error>)
      modifies this
      ensures Run(options, pos, prompts, failure) == Gate(Run(old(options), pos0, prompts0, None), leaves, lines)
    {
      if pos0 >= |lines| {
        return pos0, prompts0, Some(EndOfInput);
      }
      if lines[pos0] != "" {
        pos, prompts, failure := AskEach(leaves, lines, pos0 + 1, prompts0);
      } else {
        pos, prompts, failure := pos0 + 1, prompts0, None;
      }
    }

    /** The interactive branch of `process_inputs`. */
    method Interact(lines: seq<string>) returns (pos: nat, prompts: seq<Path>, failure: Option<Error>)
      modifies this
      ensures Run(options, pos, prompts, failure) == Walk(old(options), lines)
    {
      if |lines| == 0 {
        AskAllFailed(Pause(options, lines), MainLeaves, lines);
        return 0, [], Some(EndOfInput);
      }
      pos, prompts, failure := AskEach(MainLeaves, lines, 1, []);
      if failure.None? && StatsOn(options) {
        pos, prompts, failure := AskEach(StatsLeaves, lines, pos, prompts);
      }
      if failure.Some? {
        return;
      }
      pos, prompts, failure := AskGated(ClovisLeaves, lines, pos, prompts);
      if failure.Some? {
        return;
      }
      pos, prompts, failure := AskGated(LibeventLeaves, lines, pos, prompts);
    }

    /** `process_inputs`: the action the switches select; the result says whether to save. */
    method ProcessInputs(flags: Flags, lines: seq<string>, fs: FileStore, codec: Codec) returns (report: Report)
      modifies this, fs
      ensures Effect(options, fs.files, report) == Process(old(options), old(fs.files), cfgPath, flags, lines, codec)
    {
      if flags.interactive {
        var pos, prompts, failure := Interact(lines);
        report := WalkReport(Run(options, pos, prompts, failure));
      } else if flags.showFormat {
        report := Report(Returned(false), ShowDocument(codec.dump(options)), [], 0);
      } else if flags.mergeFile != "" {
        var text := fs.Read(flags.mergeFile);
        if text.Failure? {
          return Report(Raised(text.error), Quiet, [], 0);
        }
        match codec.load(text.value)
        case None =>
          report := Report(Raised(Malformed(flags.mergeFile)), Quiet, [], 0);
        case Some(incoming) =>
          options := Merge(options, incoming);
          report := Report(Returned(true), Quiet, [], 0);
      } else if flags.loadDefault {
        var present := fs.Exists(BackupPath(cfgPath));
        if present {
          var _ := fs.Copy(BackupPath(cfgPath), cfgPath);
          report := Report(Returned(false), Quiet, [], 0);
        } else {
          report := Report(Returned(false), NoBackupFile, [], 0);
        }
      } else {
        report := Report(Returned(false), NoUsableInputs, [], 0);
      }
    }

    /** `save`, with its backup: copy the file to its ".bak", then write the document over it. */
    method Save(fs: FileStore, codec: Codec) returns (failure: Option<Error>)
      modifies fs
      ensures Saved(old(fs.files), cfgPath, codec.dump(options)).Success? ==>
        failure == None && fs.files == Saved(old(fs.files), cfgPath, codec.dump(options)).value
      ensures Saved(old(fs.files), cfgPath, codec.dump(options)).Failure? ==>
        failure == Some(Saved(old(fs.files), cfgPath, codec.dump(options)).error) && fs.files == old(fs.files)
    {
      failure := fs.Copy(cfgPath, BackupPath(cfgPath));
      if failure.None? {
        fs.Write(cfgPath, codec.dump(options));
      }
    }
  }
}
