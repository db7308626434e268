/**
 * The daily clean-up of the query-result folder: every regular file older
 * than the maximum age is unlinked, and the run reports what it deleted, what
 * it could not handle and how many bytes it freed. The folder is given as its
 * list of entries with what `stat` and `unlink` would do to each.
 */
module Cleanup {

  import opened Common

  /** What `stat()` reports for a file: modification time in whole seconds, size in bytes. */
  datatype Stat = Stat(mtime: int, size: nat)

  /**
   * One directory entry: its name, whether it is a regular file, the outcome
   * of `stat()` (None when it raises), whether `unlink()` raises, and the text
   * of the exception either of them raises.
   */
  datatype Entry = Entry(name: string, isFile: bool, stat: Option<Stat>, unlinkFails: bool, error: string)

  /** The path handed to the clean-up. */
  datatype Folder = Missing | NotDirectory | Directory(entries: seq<Entry>)

  /** The returned dictionary: an error with zero counters, or the statistics of a sweep. */
  datatype Report =
    | Failure(error: string, deleted: nat, failed: nat, totalSizeFreed: nat)
    | Summary(deleted: nat, failed: nat, totalSizeFreed: nat, deletedFiles: seq<string>, failedFiles: seq<string>)

  /** What happens to one entry. */
  datatype Outcome = Skipped | Kept | Deleted(size: nat) | Failed

  /**
   * The body of the loop for one entry: anything but a regular file is
   * skipped; a failing `stat` is a failure; a file strictly older than the
   * maximum age is unlinked (a failing unlink is a failure); any other file
   * is kept.
   */
  function OutcomeOf(e: Entry, now: int, maxAgeSeconds: int): (o: Outcome)
    ensures !e.isFile ==> o == Skipped
    ensures o.Deleted? ==> e.isFile && e.stat.Some? && now - e.stat.value.mtime > maxAgeSeconds && !e.unlinkFails
    ensures o.Deleted? ==> o.size == e.stat.value.size
    ensures e.isFile && e.stat.Some? && now - e.stat.value.mtime <= maxAgeSeconds ==> o == Kept
    ensures e.isFile && e.stat.Some? && now - e.stat.value.mtime > maxAgeSeconds ==>
      o == (if e.unlinkFails then Failed else Deleted(e.stat.value.size))
    ensures e.isFile && e.stat.None? ==> o == Failed
  {
    if !e.isFile then Skipped
    else match e.stat
      case None => Failed
      case Some(st) =>
        if now - st.mtime > maxAgeSeconds then
          if e.unlinkFails then Failed else Deleted(st.size)
        else Kept
  }

  /** The line `failed_files` gets for an entry: `"{name}: {error}"`. */
  function FailureLine(e: Entry): string {
    e.name + ": " + e.error
  }

  /** The counters and lists the loop accumulates. */
  datatype Tally = Tally(deleted: nat, failed: nat, totalSizeFreed: nat, deletedFiles: seq<string>, failedFiles: seq<string>)

  /** The tally after the loop has seen `entries`, one entry at a time from the first. */
  function Sweep(entries: seq<Entry>, now: int, maxAgeSeconds: int): Tally
    decreases |entries|
  {
    if |entries| == 0 then Tally(0, 0, 0, [], [])
    else
      var e := entries[|entries| - 1];
      var t := Sweep(entries[..|entries| - 1], now, maxAgeSeconds);
      match OutcomeOf(e, now, maxAgeSeconds)
      case Deleted(size) =>
        t.(deleted := t.deleted + 1, totalSizeFreed := t.totalSizeFreed + size, deletedFiles := t.deletedFiles + [e.name])
      case Failed =>
        t.(failed := t.failed + 1, failedFiles := t.failedFiles + [FailureLine(e)])
      case _ => t
  }

  /** `cleanup_old_files(folder_path, max_age_seconds)` with the current time `now`. */
  function CleanupResult(folderPath: string, folder: Folder, now: int, maxAgeSeconds: int): (r: Report)
    ensures folder.Missing? ==> r == Failure("Folder does not exist: " + folderPath, 0, 0, 0)
    ensures folder.NotDirectory? ==> r == Failure("Path is not a directory: " + folderPath, 0, 0, 0)
    ensures folder.Directory? ==> r.Summary?
  {
    match folder
    case Missing => Failure("Folder does not exist: " + folderPath, 0, 0, 0)
    case NotDirectory => Failure("Path is not a directory: " + folderPath, 0, 0, 0)
    case Directory(entries) =>
      var t := Sweep(entries, now, maxAgeSeconds);
      Summary(t.deleted, t.failed, t.totalSizeFreed, t.deletedFiles, t.failedFiles)
  }

  /** The loop of `cleanup_old_files`, counter by counter and list by list. */
  method CleanupOldFiles(folderPath: string, folder: Folder, now: int, maxAgeSeconds: int) returns (report: Report)
    ensures report == CleanupResult(folderPath, folder, now, maxAgeSeconds)
  {
    if folder.Missing? {
      return Failure("Folder does not exist: " + folderPath, 0, 0, 0);
    }
    if folder.NotDirectory? {
      return Failure("Path is not a directory: " + folderPath, 0, 0, 0);
    }
    var entries := folder.entries;
    var deletedCount: nat, failedCount: nat, totalSizeFreed: nat := 0, 0, 0;
    var deletedFiles: seq<string>, failedFiles: seq<string> := [], [];
    var i := 0;
    while i < |entries|
      invariant 0 <= i <= |entries|
      invariant Sweep(entries[..i], now, maxAgeSeconds) == Tally(deletedCount, failedCount, totalSizeFreed, deletedFiles, failedFiles)
    {
      var e := entries[i];
      assert entries[..i + 1][..i] == entries[..i];
      if !e.isFile {
        i := i + 1;
        continue;
      }
      match e.stat {
        case None =>
          failedCount := failedCount + 1;
          failedFiles := failedFiles + [FailureLine(e)];
        case Some(st) =>
          if now - st.mtime > maxAgeSeconds {
            if e.unlinkFails {
              failedCount := failedCount + 1;
              failedFiles := failedFiles + [FailureLine(e)];
            } else {
              deletedCount := deletedCount + 1;
              totalSizeFreed := totalSizeFreed + st.size;
              deletedFiles := deletedFiles + [e.name];
            }
          }
      }
      i := i + 1;
    }
    assert entries[..i] == entries;
    return Summary(deletedCount, failedCount, totalSizeFreed, deletedFiles, failedFiles);
  }

  // ---------------------------------------------------------------------------
  // What the statistics mean
  // ---------------------------------------------------------------------------

  /** The entries that are deleted, in directory order. */
  function DeletedEntries(entries: seq<Entry>, now: int, maxAgeSeconds: int): seq<Entry>
    decreases |entries|
  {
    if |entries| == 0 then []
    else
      var rest := DeletedEntries(entries[..|entries| - 1], now, maxAgeSeconds);
      if OutcomeOf(entries[|entries| - 1], now, maxAgeSeconds).Deleted? then rest + [entries[|entries| - 1]] else rest
  }

  /** The entries that fail, in directory order. */
  function FailedEntries(entries: seq<Entry>, now: int, maxAgeSeconds: int): seq<Entry>
    decreases |entries|
  {
    if |entries| == 0 then []
    else
      var rest := FailedEntries(entries[..|entries| - 1], now, maxAgeSeconds);
      if OutcomeOf(entries[|entries| - 1], now, maxAgeSeconds).Failed? then rest + [entries[|entries| - 1]] else rest
  }

  /** The sizes `stat` reported for the given entries, added up. */
  function SizeSum(entries: seq<Entry>): nat
    decreases |entries|
  {
    if |entries| == 0 then 0
    else
      var e := entries[|entries| - 1];
      SizeSum(entries[..|entries| - 1]) + (if e.stat.Some? then e.stat.value.size else 0)
  }

  /** The names of the given entries, in order. */
  function Names(entries: seq<Entry>): (names: seq<string>)
    ensures |names| == |entries|
    ensures forall i :: 0 <= i < |entries| ==> names[i] == entries[i].name
    decreases |entries|
  {
    if |entries| == 0 then [] else Names(entries[..|entries| - 1]) + [entries[|entries| - 1].name]
  }

  /** The `failed_files` lines of the given entries, in order. */
  function FailureLines(entries: seq<Entry>): (lines: seq<string>)
    ensures |lines| == |entries|
    ensures forall i :: 0 <= i < |entries| ==> lines[i] == FailureLine(entries[i])
    decreases |entries|
  {
    if |entries| == 0 then [] else FailureLines(entries[..|entries| - 1]) + [FailureLine(entries[|entries| - 1])]
  }

  /** `deleted == len(deleted_files)` and `failed == len(failed_files)`. */
  lemma {:induction false} SweepCounts(entries: seq<Entry>, now: int, maxAgeSeconds: int)
    ensures var t := Sweep(entries, now, maxAgeSeconds);
      t.deleted == |t.deletedFiles| && t.failed == |t.failedFiles|
    decreases |entries|
  {
    if |entries| > 0 {
      SweepCounts(entries[..|entries| - 1], now, maxAgeSeconds);
    }
  }

  /** The deleted names are those of the deleted entries, and `total_size_freed` is the sum of their sizes. */
  lemma {:induction false} SweepDeleted(entries: seq<Entry>, now: int, maxAgeSeconds: int)
    ensures var t := Sweep(entries, now, maxAgeSeconds);
      && t.deletedFiles == Names(DeletedEntries(entries, now, maxAgeSeconds))
      && t.totalSizeFreed == SizeSum(DeletedEntries(entries, now, maxAgeSeconds))
    decreases |entries|
  {
    if |entries| > 0 {
      var prefix := entries[..|entries| - 1];
      SweepDeleted(prefix, now, maxAgeSeconds);
      var e := entries[|entries| - 1];
      var del := DeletedEntries(prefix, now, maxAgeSeconds);
      if OutcomeOf(e, now, maxAgeSeconds).Deleted? {
        assert (del + [e])[..|del + [e]| - 1] == del;
      }
    }
  }

  /** The failure lines are those of the failed entries, in order. */
  lemma {:induction false} SweepFailed(entries: seq<Entry>, now: int, maxAgeSeconds: int)
    ensures Sweep(entries, now, maxAgeSeconds).failedFiles == FailureLines(FailedEntries(entries, now, maxAgeSeconds))
    decreases |entries|
  {
    if |entries| > 0 {
      var prefix := entries[..|entries| - 1];
      SweepFailed(prefix, now, maxAgeSeconds);
      var e := entries[|entries| - 1];
      var failed := FailedEntries(prefix, now, maxAgeSeconds);
      if OutcomeOf(e, now, maxAgeSeconds).Failed? {
        assert (failed + [e])[..|failed + [e]| - 1] == failed;
      }
    }
  }

  /** Each entry lands in at most one list: the deleted and the failed entries together are no more than the entries. */
  lemma {:induction false} AtMostOneList(entries: seq<Entry>, now: int, maxAgeSeconds: int)
    ensures |DeletedEntries(entries, now, maxAgeSeconds)| + |FailedEntries(entries, now, maxAgeSeconds)| <= |entries|
    ensures forall e :: e in DeletedEntries(entries, now, maxAgeSeconds) ==> e in entries && OutcomeOf(e, now, maxAgeSeconds).Deleted?
    ensures forall e :: e in FailedEntries(entries, now, maxAgeSeconds) ==> e in entries && OutcomeOf(e, now, maxAgeSeconds).Failed?
    decreases |entries|
  {
    if |entries| > 0 {
      var prefix := entries[..|entries| - 1];
      AtMostOneList(prefix, now, maxAgeSeconds);
      assert forall e :: e in prefix ==> e in entries;
    }
  }

  /** Entries other than regular files change nothing: not deleted, not counted, not listed. */
  lemma NonFilesSkipped(entries: seq<Entry>, e: Entry, now: int, maxAgeSeconds: int)
    requires !e.isFile
    ensures Sweep(entries + [e], now, maxAgeSeconds) == Sweep(entries, now, maxAgeSeconds)
  {
    assert (entries + [e])[..|entries|] == entries;
  }

  /** The age test is strict: a file exactly as old as the maximum stays. */
  lemma ExactMaximumAgeKept(e: Entry, now: int, maxAgeSeconds: int)
    requires e.isFile && e.stat.Some? && now - e.stat.value.mtime == maxAgeSeconds
    ensures OutcomeOf(e, now, maxAgeSeconds) == Kept
    ensures Sweep([e], now, maxAgeSeconds) == Tally(0, 0, 0, [], [])
  {
  }
}
