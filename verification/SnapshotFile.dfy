/**
 Saving a snapshot: every file operation may fail, and the process may be killed between
 any two of them. The file system records each state it passes through, so a statement
 about the record is a statement about every possible kill.
 */
module SnapshotFile {
  import opened Integers

  type Path = string
  datatype File = File(data: string, mode: nat)
  type Files = map<Path, File>

  const TEMP_MODE := 0x180      // 0600
  const SNAPSHOT_MODE := 0x1A4  // 0644

  /** The directory that holds the snapshot. A rename replaces its target in one step. */
  class FileSystem {
    var files: Files
    /** Every state the files have been in, the current one last. */
    ghost var history: seq<Files>

    ghost predicate Valid()
      reads this
    {
      history != [] && history[|history| - 1] == files
    }

    constructor (files: Files)
      ensures Valid() && this.files == files
    {
      this.files, history := files, [files];
    }

    /** The pattern extends the snapshot's own name, so the new name differs from it. */
    method CreateTemp(path: Path) returns (ok: bool, tmp: Path)
      requires Valid()
      modifies this
      ensures Valid() && tmp !in old(files) && tmp != path
      ensures files == if ok then old(files)[tmp := File("", TEMP_MODE)] else old(files)
      ensures history == old(history) + [files]
    {
      tmp := FreshName(files.Keys + {path});
      ok := *;
      if ok {
        files := files[tmp := File("", TEMP_MODE)];
      }
      history := history + [files];
    }

    /** A failed write may have appended part of the data. */
    method Append(name: Path, data: string) returns (ok: bool, count: nat)
      requires Valid() && name in files
      modifies this
      ensures Valid() && count <= |data| && (ok ==> count == |data|)
      ensures files == old(files)[name := File(old(files)[name].data + data[..count], old(files)[name].mode)]
      ensures history == old(history) + [files]
    {
      count :| 0 <= count <= |data|;
      ok := count == |data|;
      files := files[name := files[name].(data := files[name].data + data[..count])];
      history := history + [files];
    }

    method Chmod(name: Path, mode: nat) returns (ok: bool)
      requires Valid() && name in files
      modifies this
      ensures Valid()
      ensures files == if ok then old(files)[name := File(old(files)[name].data, mode)] else old(files)
      ensures history == old(history) + [files]
    {
      ok := *;
      if ok {
        files := files[name := files[name].(mode := mode)];
      }
      history := history + [files];
    }

    /** Sync and close change no name and no content; either may fail. */
    method SyncOrClose() returns (ok: bool)
      requires Valid()
      modifies this
      ensures Valid() && files == old(files) && history == old(history) + [files]
    {
      ok := *;
      history := history + [files];
    }

    method Replace(from: Path, to: Path) returns (ok: bool)
      requires Valid() && from in files && from != to
      modifies this
      ensures Valid()
      ensures files == if ok then old(files)[to := old(files)[from]] - {from} else old(files)
      ensures history == old(history) + [files]
    {
      ok := *;
      if ok {
        files := files[to := files[from]] - {from};
      }
      history := history + [files];
    }

    method Remove(name: Path) returns (ok: bool)
      requires Valid()
      modifies this
      ensures Valid()
      ensures files == if ok then old(files) - {name} else old(files)
      ensures history == old(history) + [files]
    {
      ok := *;
      if ok {
        files := files - {name};
      }
      history := history + [files];
    }
  }

  /** Some name the directory does not use. */
  method FreshName(used: set<Path>) returns (name: Path)
    ensures name !in used
  {
    name := "t";
    ghost var seen: set<Path> := {};
    while name in used
      invariant seen <= used
      invariant forall n <- seen :: |n| < |name|
      decreases used - seen
    {
      seen := seen + {name};
      name := name + "t";
    }
  }

  // ----- the size limit -----

  /** Passes data on until the limit is exceeded; the byte that exceeds it is still written. */
  class LimitWriter {
    const fs: FileSystem
    const name: Path
    const limit: nat
    var count: nat

    constructor (fs: FileSystem, name: Path, limit: nat)
      ensures this.fs == fs && this.name == name && this.limit == limit && count == 0
    {
      this.fs, this.name, this.limit, count := fs, name, limit, 0;
    }

    method Write(data: string) returns (ok: bool)
      requires fs.Valid() && name in fs.files
      requires limit > 0 ==> count <= limit
      modifies this, fs
      ensures fs.Valid() && name in fs.files
      ensures OnlyTouched(old(fs.history), fs.history, name)
      ensures fs.files.Keys == old(fs.files).Keys && fs.files[name].mode == old(fs.files)[name].mode
      ensures old(count) <= count <= old(count) + |data|
      ensures fs.files[name].data == old(fs.files)[name].data + data[..count - old(count)]
      ensures ok ==> count == old(count) + |data| && (limit > 0 ==> count <= limit)
      ensures limit > 0 && count > limit ==> !ok && count == limit + 1
    {
      var part := data;
      if limit > 0 && |data| > limit - count {
        part := data[..limit - count + 1];
      }
      var written;
      ok, written := fs.Append(name, part);
      count := count + written;
      if limit > 0 && count > limit {
        ok := false;
      }
    }
  }

  /** Since `before`, the recorded states differ from its last one at `name` only. */
  ghost predicate OnlyTouched(before: seq<Files>, after: seq<Files>, name: Path) {
    && before != [] && before <= after
    && forall k :: |before| <= k < |after| ==> after[k] - {name} == before[|before| - 1] - {name}
  }

  // ----- the save -----

  function DestinationMode(files: Files, path: Path): nat {
    if path in files then files[path].mode else SNAPSHOT_MODE
  }

  /** At `path` there is exactly what was there before, or exactly the complete new snapshot. */
  ghost predicate OldOrNew(path: Path, before: Files, content: string, now: Files) {
    || (if path in before then path in now && now[path] == before[path] else path !in now)
    || (path in now && now[path] == File(content, DestinationMode(before, path)))
  }

  datatype WriteResult = Written | WriteFailed(debris: bool)

  /** Fills the temporary file: its mode, the whole content, then sync and close. */
  method FillTemp(fs: FileSystem, tmp: Path, mode: nat, content: string, limit: nat) returns (ok: bool)
    requires fs.Valid() && tmp in fs.files && fs.files[tmp].data == ""
    modifies fs
    ensures fs.Valid() && tmp in fs.files && OnlyTouched(old(fs.history), fs.history, tmp)
    ensures ok ==> fs.files[tmp] == File(content, mode)
    ensures ok && limit > 0 ==> |content| <= limit
  {
    ok := fs.Chmod(tmp, mode);
    if !ok {
      return;
    }
    var writer := new LimitWriter(fs, tmp, limit);
    var sent := 0;
    while sent < |content|
      invariant 0 <= sent <= |content|
      invariant fs.Valid() && tmp in fs.files && OnlyTouched(old(fs.history), fs.history, tmp)
      invariant fs.files[tmp] == File(content[..sent], mode) && writer.count == sent
      invariant limit > 0 ==> sent <= limit
    {
      // The buffered writer hands over its content in pieces of its own choosing.
      var next :| sent < next <= |content|;
      ok := writer.Write(content[sent..next]);
      if !ok {
        return;
      }
      assert content[..next] == content[..sent] + content[sent..next];
      sent := next;
    }
    ok := fs.SyncOrClose();
    if ok {
      ok := fs.SyncOrClose();
    }
  }

  /**
   Writes the whole snapshot to a sibling file and renames it over `path`. Whatever fails,
   and wherever the process is killed, the file at `path` is the old one or the new one.
   */
  method WriteSnapshotViaTempRename(fs: FileSystem, path: Path, content: string, limit: nat)
    returns (result: WriteResult, ghost tmp: Path)
    requires fs.Valid()
    modifies fs
    ensures fs.Valid() && old(fs.history) <= fs.history && tmp !in old(fs.files) && tmp != path
    ensures result.Written? ==> fs.files == old(fs.files)[path := File(content, DestinationMode(old(fs.files), path))]
    ensures result.WriteFailed? ==> fs.files - {tmp} == old(fs.files)
    ensures result.WriteFailed? && !result.debris ==> fs.files == old(fs.files)
    ensures limit > 0 && |content| > limit ==> result.WriteFailed?
    ensures forall k :: |old(fs.history)| <= k < |fs.history| ==> OldOrNew(path, old(fs.files), content, fs.history[k])
  {
    ghost var before, start := fs.files, |fs.history|;
    var created, name := fs.CreateTemp(path);
    tmp := name;
    if !created {
      return WriteFailed(false), tmp;
    }
    ghost var atOpen := fs.history;
    var ok := FillTemp(fs, name, DestinationMode(fs.files, path), content, limit);
    forall k | start <= k < |fs.history|
      ensures fs.history[k] - {name} == before && OldOrNew(path, before, content, fs.history[k])
    {
      assert fs.history[k] - {name} == atOpen[|atOpen| - 1] - {name} == before;
      assert path in fs.history[k] - {name} <==> path in fs.history[k];
    }
    assert fs.history[|fs.history| - 1] - {name} == before;
    if ok {
      ok := fs.Replace(name, path);
    }
    if ok {
      assert fs.files == before[path := File(content, DestinationMode(before, path))];
      result := Written;
    } else {
      var _ := fs.SyncOrClose();
      var removed := fs.Remove(name);
      result := WriteFailed(!removed);
    }
  }

  // ----- the object-count limits -----

  datatype SnapshotLimits = SnapshotLimits(maxBytes: nat, maxChunks: nat, maxPortEntries: nat, maxUnreachable: nat)

  function Sum(counts: seq<nat>): nat {
    if counts == [] then 0 else Sum(counts[..|counts| - 1]) + counts[|counts| - 1]
  }

  predicate Within(count: nat, limit: nat) {
    limit == 0 || count <= limit
  }

  lemma {:induction false} SumGrows(counts: seq<nat>, k: nat)
    requires k <= |counts|
    ensures Sum(counts[..k]) <= Sum(counts)
  {
    if k < |counts| {
      assert counts[..|counts| - 1][..k] == counts[..k];
      SumGrows(counts[..|counts| - 1], k);
    } else {
      assert counts[..k] == counts;
    }
  }

  /** Running totals in 64 bits, refused at the first chunk that passes a limit. */
  method ValidateSnapshotLimits(ports: seq<nat>, unreachable: nat, limits: SnapshotLimits) returns (ok: bool)
    requires forall n <- ports :: n <= MAX64
    ensures ok <==> Within(|ports|, limits.maxChunks) && Sum(ports) <= MAX64
                    && Within(Sum(ports), limits.maxPortEntries) && Within(unreachable, limits.maxUnreachable)
  {
    if limits.maxChunks > 0 && |ports| > limits.maxChunks {
      return false;
    }
    var total := 0;
    for i := 0 to |ports|
      invariant total == Sum(ports[..i]) <= MAX64
      invariant Within(total, limits.maxPortEntries)
    {
      assert ports[..i + 1][..i] == ports[..i];
      SumGrows(ports, i + 1);
      if total > MAX64 - ports[i] {
        return false;
      }
      total := total + ports[i];
      if limits.maxPortEntries > 0 && total > limits.maxPortEntries {
        return false;
      }
    }
    assert ports[..|ports|] == ports;
    ok := !(limits.maxUnreachable > 0 && unreachable > limits.maxUnreachable);
  }

  /** When the file could not even be looked up before the save, its usability is not claimed. */
  datatype SaveResult = Saved | OverLimit | PreviousUsable | NoPrevious | UsabilityUnknown

  /** The save as its callers see it: on failure it says what a later resume will find. */
  method SaveSnapshot(fs: FileSystem, path: Path, ports: seq<nat>, unreachable: nat, content: string, limits: SnapshotLimits)
    returns (result: SaveResult)
    requires fs.Valid() && (forall n <- ports :: n <= MAX64)
    modifies fs
    ensures fs.Valid() && old(fs.history) <= fs.history
    ensures result.Saved? ==> path in fs.files && fs.files[path].data == content
    ensures result.Saved? ==> Within(|content|, limits.maxBytes) && Within(|ports|, limits.maxChunks)
                              && Within(Sum(ports), limits.maxPortEntries) && Within(unreachable, limits.maxUnreachable)
    ensures result.OverLimit? ==> fs.files == old(fs.files)
    ensures result.PreviousUsable? ==> path in old(fs.files) && path in fs.files && fs.files[path] == old(fs.files)[path]
    ensures result.NoPrevious? ==> path !in old(fs.files) && path !in fs.files
    ensures !result.Saved? ==> (path in fs.files <==> path in old(fs.files))
    ensures !result.Saved? && path in fs.files ==> fs.files[path] == old(fs.files)[path]
    ensures forall k :: |old(fs.history)| <= k < |fs.history| ==> OldOrNew(path, old(fs.files), content, fs.history[k])
  {
    var lookedUp: bool := *;
    var existed := path in fs.files;
    var fits := ValidateSnapshotLimits(ports, unreachable, limits);
    if !fits {
      return OverLimit;
    }
    ghost var before := fs.files;
    var written, tmp := WriteSnapshotViaTempRename(fs, path, content, limits.maxBytes);
    if written.WriteFailed? {
      assert path in fs.files - {tmp} <==> path in before;
      return if !lookedUp then UsabilityUnknown else if existed then PreviousUsable else NoPrevious;
    }
    result := Saved;
  }
}
