/**
 * The file system the pipeline reads and writes, as a map from paths to
 * files and directories. The functions give the effect of each `std::fs`
 * operation the core uses; `FileSystem` is the mutable world the methods of
 * the other modules change, one operation at a time.
 */
module Fs {
  import opened Wrappers
  import opened Paths
  import opened Errors

  datatype Node = File(content: string) | Dir

  /** Every path that exists, other than the root, which always does. */
  type Entries = map<Path, Node>

  predicate Exists(e: Entries, p: Path)
  {
    p == [] || p in e
  }

  predicate IsDir(e: Entries, p: Path)
  {
    p == [] || (p in e && e[p].Dir?)
  }

  function Parent(p: Path): Path
    requires p != []
  {
    p[..|p| - 1]
  }

  /** `e1` and `e2` agree about `p`. */
  predicate SameAt(e1: Entries, e2: Entries, p: Path)
  {
    (p in e1 <==> p in e2) && (p in e1 ==> e1[p] == e2[p])
  }

  /** `fs::write`: creates or truncates the file `p` in an existing directory. */
  function WriteSpec(e: Entries, p: Path, content: string): (Result<()>, Entries)
  {
    if IsDir(e, p) then (Err(Io(IsADirectory)), e)
    else if !Exists(e, Parent(p)) then (Err(Io(NotFound)), e)
    else if !IsDir(e, Parent(p)) then (Err(Io(NotADirectory)), e)
    else (Ok(()), e[p := File(content)])
  }

  /** `fs::create_dir`: creates one directory whose parent directory exists. */
  function CreateDirSpec(e: Entries, p: Path): (Result<()>, Entries)
  {
    if Exists(e, p) then (Err(Io(AlreadyExists)), e)
    else if !Exists(e, Parent(p)) then (Err(Io(NotFound)), e)
    else if !IsDir(e, Parent(p)) then (Err(Io(NotADirectory)), e)
    else (Ok(()), e[p := Dir])
  }

  /** `fs::remove_file`. */
  function RemoveFileSpec(e: Entries, p: Path): (Result<()>, Entries)
  {
    if !Exists(e, p) then (Err(Io(NotFound)), e)
    else if IsDir(e, p) then (Err(Io(IsADirectory)), e)
    else (Ok(()), e - {p})
  }

  /** `fs::read_to_string(p).ok()`. */
  function ReadToString(e: Entries, p: Path): Option<string>
  {
    if p in e && e[p].File? then Some(e[p].content) else None
  }

  /** `if !p.exists() { fs::create_dir(p)?; }` */
  function EnsureDirSpec(e: Entries, p: Path): (Result<()>, Entries)
  {
    if Exists(e, p) then (Ok(()), e) else CreateDirSpec(e, p)
  }

  /** A successful write is what a later read returns. */
  lemma WriteThenRead(e: Entries, p: Path, content: string)
    requires WriteSpec(e, p, content).0.Ok?
    ensures ReadToString(WriteSpec(e, p, content).1, p) == Some(content)
  {
  }

  /** A write succeeds exactly when `p` is not a directory and sits in one. */
  lemma WriteSucceeds(e: Entries, p: Path, content: string)
    ensures WriteSpec(e, p, content).0.Ok? <==> !IsDir(e, p) && IsDir(e, Parent(p))
  {
  }

  /** Each operation touches only the path it is given. */
  lemma WriteFrame(e: Entries, p: Path, content: string, q: Path)
    requires q != p
    ensures SameAt(e, WriteSpec(e, p, content).1, q)
  {
  }

  lemma EnsureDirFrame(e: Entries, p: Path, q: Path)
    requires q != p
    ensures SameAt(e, EnsureDirSpec(e, p).1, q)
  {
  }

  lemma RemoveFileFrame(e: Entries, p: Path, q: Path)
    requires q != p
    ensures SameAt(e, RemoveFileSpec(e, p).1, q)
  {
  }

  /** After a successful `EnsureDirSpec` the path is there; it was created only if it was missing. */
  lemma EnsureDirResult(e: Entries, p: Path)
    requires EnsureDirSpec(e, p).0.Ok?
    ensures Exists(EnsureDirSpec(e, p).1, p)
    ensures Exists(e, p) ==> EnsureDirSpec(e, p).1 == e
    ensures !Exists(e, p) ==> EnsureDirSpec(e, p).1 == e[p := Dir]
  {
  }

  /** The world of files the program runs in. */
  class FileSystem {
    var entries: Entries

    constructor (initial: Entries)
      ensures entries == initial
    {
      entries := initial;
    }

    method Write(p: Path, content: string) returns (r: Result<()>)
      modifies this
      ensures (r, entries) == WriteSpec(old(entries), p, content)
    {
      var (res, after) := WriteSpec(entries, p, content);
      r, entries := res, after;
    }

    method CreateDir(p: Path) returns (r: Result<()>)
      modifies this
      ensures (r, entries) == CreateDirSpec(old(entries), p)
    {
      var (res, after) := CreateDirSpec(entries, p);
      r, entries := res, after;
    }

    method RemoveFile(p: Path) returns (r: Result<()>)
      modifies this
      ensures (r, entries) == RemoveFileSpec(old(entries), p)
    {
      var (res, after) := RemoveFileSpec(entries, p);
      r, entries := res, after;
    }

    /** `if !p.exists() { fs::create_dir(p)?; }` */
    method EnsureDir(p: Path) returns (r: Result<()>)
      modifies this
      ensures (r, entries) == EnsureDirSpec(old(entries), p)
    {
      r := Ok(());
      if !Exists(entries, p) {
        r := CreateDir(p);
      }
    }

    /** The effect of a subprocess that may leave a file behind at `p`. */
    method Produce(p: Path, content: Option<string>)
      modifies this
      ensures entries == if content.Some? then old(entries)[p := File(content.value)] else old(entries)
    {
      if content.Some? {
        entries := entries[p := File(content.value)];
      }
    }
  }
}
