/**
 * The files the session touches, as an abstract store from path to contents,
 * and the two file-level operations built on it: backup-then-write (save) and
 * restore-from-backup.
 */
module FileSystem {
  import opened Errors

  type Files = map<string, string>

  /** The backup sibling of a configuration file: the path with ".bak" appended. */
  function BackupPath(path: string): (b: string)
    ensures b != path && |b| == |path| + 4 && path <= b
    ensures b[|path|..] == ".bak"
  {
    path + ".bak"
  }

  /** Distinct files have distinct backups. */
  lemma BackupPathInjective(p: string, q: string)
    requires BackupPath(p) == BackupPath(q)
    ensures p == q
  {
    assert p == BackupPath(p)[..|p|];
  }

  /**
   * `shutil.copy(src, dst)` followed by writing `text` to `src`: the state a
   * successful save leaves. Fails, changing nothing, when `src` is missing.
   */
  function Saved(files: Files, path: string, text: string): (r: Result<Files>)
    ensures r.Success? <==> path in files
    ensures r.Failure? ==> r.error == FileNotFound(path)
    ensures r.Success? ==> r.value.Keys == files.Keys + {BackupPath(path)}
    ensures r.Success? ==> r.value[BackupPath(path)] == files[path] && r.value[path] == text
    ensures r.Success? ==> forall f :: f in files && f != path && f != BackupPath(path) ==> r.value[f] == files[f]
  {
    if path !in files then Failure(FileNotFound(path))
    else Success(files[BackupPath(path) := files[path]][path := text])
  }

  /**
   * The restore action: copy the backup over the primary file if the backup
   * exists, otherwise leave every file as it is.
   */
  function Restored(files: Files, path: string): (r: Files)
    ensures BackupPath(path) !in files ==> r == files
    ensures BackupPath(path) in files ==>
      && r.Keys == files.Keys + {path}
      && r[path] == files[BackupPath(path)]
      && forall f :: f in files && f != path ==> r[f] == files[f]
  {
    if BackupPath(path) in files then files[path := files[BackupPath(path)]] else files
  }

  /** Restoring right after a save brings back the primary file as it was before the save. */
  lemma RestoreUndoesSave(files: Files, path: string, text: string)
    requires Saved(files, path, text).Success?
    ensures var after := Restored(Saved(files, path, text).value, path);
            after[path] == files[path] && after[BackupPath(path)] == files[path]
  {
  }

  /** The file system as the process sees it: a store the operations below update in place. */
  class FileStore {
    var files: Files

    constructor (files: Files)
      ensures this.files == files
    {
      this.files := files;
    }

    /** `os.path.exists` */
    method Exists(path: string) returns (b: bool)
      ensures b <==> path in files
    {
      b := path in files;
    }

    /** Reading a whole file with `open(path, 'r')`. */
    method Read(path: string) returns (r: Result<string>)
      ensures path in files ==> r == Success(files[path])
      ensures path !in files ==> r == Failure(FileNotFound(path))
    {
      if path in files {
        r := Success(files[path]);
      } else {
        r := Failure(FileNotFound(path));
      }
    }

    /** `shutil.copy(src, dst)`: raises, copying nothing, when `src` is missing. */
    method Copy(src: string, dst: string) returns (failure: Option<Error>)
      modifies this
      ensures src in old(files) ==> failure == None && files == old(files)[dst := old(files)[src]]
      ensures src !in old(files) ==> failure == Some(FileNotFound(src)) && files == old(files)
    {
      if src in files {
        files := files[dst := files[src]];
        failure := None;
      } else {
        failure := Some(FileNotFound(src));
      }
    }

    /** Writing a whole file with `open(path, 'w')`. */
    method Write(path: string, text: string)
      modifies this
      ensures files == old(files)[path := text]
    {
      files := files[path := text];
    }
  }
}
