/**
 * The replicated log and its validation rules (src/log.rs).
 *
 * A log is a sequence of entries; index 0 is its start. The stored log is
 * only ever loaded and stored whole, so every rule here is a function of an
 * entry and a log value. Entry identity for duplicate detection is the
 * derived hash of all five fields, modelled as structural equality (hash
 * collisions are not modelled). Rules 1, 2 and 3 below are the three checks
 * in the order `validate_log_entry` applies them: no holes, prev-term
 * continuity, duplicates.
 */
module RaftLog {
  import opened Wrappers

  /** Rust's `i32`. */
  newtype int32 = x: int | -0x8000_0000 <= x < 0x8000_0000

  const MaxInt32: int32 := 0x7fff_ffff

  datatype LogEntry = LogEntry(
    leaderTerm: int32,
    leaderId: string,
    prevIndex: int32,
    prevTerm: int32,
    leaderCommitIndex: int32)

  /** Why `validate_log_entry` rejected an entry, or that it accepted it; the
      Rust function returns only the boolean `Valid?` and prints the reason. */
  datatype Verdict = Valid | InvalidPrevIndex | InvalidPrevTerm | DuplicateEntry

  function Last(log: seq<LogEntry>): LogEntry
    requires |log| > 0
  {
    log[|log| - 1]
  }

  /** Rule 1, the no-holes check: the entry's own index, `prevIndex + 1`, may not lie
      past the log's current last index `|log| - 1`. The `+ 1` is an `i32`
      addition: at `i32::MAX` it panics in a debug build and wraps in a
      release build; the model excludes both by `requires`. */
  predicate CheckNoHolesAllowed(entry: LogEntry, log: seq<LogEntry>)
    requires entry.prevIndex < MaxInt32
    ensures CheckNoHolesAllowed(entry, log) <==> entry.prevIndex as int + 1 < |log|
  {
    var currentIndex := |log| - 1;
    var entryIndex := entry.prevIndex + 1;
    !(entryIndex as int > currentIndex)
  }

  /** Rule 2, the continuity (prev-term) check: the entry's `prevTerm` must equal the `prevTerm`
      recorded on the log's last entry (`pop_back().unwrap()`, so the log
      must not be empty). */
  predicate CheckPrevTerm(entry: LogEntry, log: seq<LogEntry>)
    requires |log| > 0
    ensures CheckPrevTerm(entry, log) <==> entry.prevTerm == log[|log| - 1].prevTerm
  {
    var prevTermLog := Last(log).prevTerm;
    entry.prevTerm == prevTermLog
  }

  /** `is_empty() || len() == 0`. */
  predicate CheckEmptyLog(log: seq<LogEntry>)
    ensures CheckEmptyLog(log) <==> log == []
  {
    |log| == 0 || log == []
  }

  /** Rule 3, duplicate detection: the loop over the log that raises a flag
      when an existing entry hashes like the new one. */
  method IsDuplicateEntry(entry: LogEntry, log: seq<LogEntry>) returns (duplicate: bool)
    ensures duplicate <==> exists k :: 0 <= k < |log| && log[k] == entry
  {
    duplicate := false;
    for i := 0 to |log|
      invariant duplicate <==> exists k :: 0 <= k < i && log[k] == entry
    {
      if log[i] == entry {
        duplicate := true;
      }
    }
  }

  /** The three checks chained in order; the first one that fails decides the
      verdict and the later ones are not evaluated. On an empty log the
      prev-term check would panic, so a caller must not pass an empty log
      with an entry that gets past rule 1 (`prevIndex <= -2`). */
  function ValidateLogEntry(entry: LogEntry, log: seq<LogEntry>): (v: Verdict)
    requires entry.prevIndex < MaxInt32
    requires |log| > 0 || entry.prevIndex >= -1
    ensures v == InvalidPrevIndex <==> !CheckNoHolesAllowed(entry, log)
    ensures v == InvalidPrevTerm <==>
      CheckNoHolesAllowed(entry, log) && !CheckPrevTerm(entry, log)
    ensures v == DuplicateEntry <==>
      CheckNoHolesAllowed(entry, log) && CheckPrevTerm(entry, log) && entry in log
    ensures v == Valid <==>
      CheckNoHolesAllowed(entry, log) && CheckPrevTerm(entry, log) && entry !in log
  {
    if !CheckNoHolesAllowed(entry, log) then InvalidPrevIndex
    else if !CheckPrevTerm(entry, log) then InvalidPrevTerm
    else if entry in log then DuplicateEntry
    else Valid
  }

  /** `append_entry`: clones the log, pushes the entry at the back and always
      returns `Ok`. */
  method AppendEntry(entry: LogEntry, logEntries: seq<LogEntry>)
    returns (r: Result<seq<LogEntry>, bool>)
    ensures r.Ok?
    ensures |r.value| == |logEntries| + 1
    ensures r.value[..|logEntries|] == logEntries
    ensures r.value[|logEntries|] == entry
  {
    var entries := logEntries;
    entries := entries + [entry];
    r := Ok(entries);
  }

  /** Stale-term detection: the entry's leader term is below that of
      the log's last entry (`pop_back().unwrap()`: the log must not be empty). */
  predicate IsEntryEarlierTerm(entry: LogEntry, log: seq<LogEntry>)
    requires |log| > 0
    ensures IsEntryEarlierTerm(entry, log) <==> entry.leaderTerm < log[|log| - 1].leaderTerm
  {
    entry.leaderTerm < Last(log).leaderTerm
  }

  /** The replacement for a stale log: a fresh log holding only the new
      entry. It does not take the old log at all, so every prior entry is
      dropped, not just a suffix. */
  method ReplaceExistingEntriesEarlierTerm(entry: LogEntry) returns (newLog: seq<LogEntry>)
    ensures |newLog| == 1 && newLog[0] == entry
  {
    newLog := [];
    newLog := newLog + [entry];
  }

  // ---------------------------------------------------------------------
  // Properties of the rules
  // ---------------------------------------------------------------------

  /** A one-entry log rejects every entry with a non-negative `prevIndex`
      under rule 1, including `prevIndex == 5` and the Raft successor
      `prevIndex == 0`. */
  lemma OneEntryLogRejectsNonNegativeIndex(entry: LogEntry, log: seq<LogEntry>)
    requires |log| == 1 && 0 <= entry.prevIndex < MaxInt32
    ensures !CheckNoHolesAllowed(entry, log)
    ensures ValidateLogEntry(entry, log) == InvalidPrevIndex
  {
  }

  /** An entry that names the log's current last index as its predecessor
      (the position a Raft append would claim) is always rejected by rule 1:
      the check as written admits only `prevIndex <= |log| - 2`. */
  lemma SuccessorOfLastIsRejected(entry: LogEntry, log: seq<LogEntry>)
    requires entry.prevIndex < MaxInt32
    requires entry.prevIndex as int == |log| - 1
    ensures ValidateLogEntry(entry, log) == InvalidPrevIndex
  {
  }

  /** On an empty log every entry the validator can take is rejected by
      rule 1, so the prev-term check (which would panic) is never reached. */
  lemma EmptyLogRejectsAtFirstCheck(entry: LogEntry)
    requires -1 <= entry.prevIndex < MaxInt32
    ensures ValidateLogEntry(entry, []) == InvalidPrevIndex
  {
  }

  /** Rule 2 reads only `prevTerm`: two entries with the same `prevTerm`
      get the same answer whatever their terms, indices and ids. */
  lemma PrevTermReadsOnlyPrevTerm(e1: LogEntry, e2: LogEntry, log: seq<LogEntry>)
    requires |log| > 0 && e1.prevTerm == e2.prevTerm
    ensures CheckPrevTerm(e1, log) == CheckPrevTerm(e2, log)
  {
  }

  /** Re-applying an entry to a log that already ends with it is never
      accepted: it fails rule 1 or, having passed rules 1 and 2, rule 3. */
  lemma RepeatedEntryIsRejected(entry: LogEntry, log: seq<LogEntry>)
    requires entry.prevIndex < MaxInt32
    ensures ValidateLogEntry(entry, log + [entry]) in {InvalidPrevIndex, DuplicateEntry}
  {
    var extended := log + [entry];
    assert extended[|extended| - 1] == entry;
  }

  /** An accepted entry is new to the log, and the log it was checked
      against is long enough that the entry's claimed predecessor exists. */
  lemma AcceptedEntryIsFresh(entry: LogEntry, log: seq<LogEntry>)
    requires entry.prevIndex < MaxInt32
    requires |log| > 0 || entry.prevIndex >= -1
    requires ValidateLogEntry(entry, log) == Valid
    ensures forall k :: 0 <= k < |log| ==> log[k] != entry
    ensures entry.prevIndex as int <= |log| - 2
    ensures entry.prevTerm == Last(log).prevTerm
  {
  }

  /** Replacing a stale log leaves a log in which the new entry is no longer
      stale: its last entry is the new entry itself. */
  lemma ReplacedLogIsNotStale(entry: LogEntry, other: LogEntry)
    ensures !IsEntryEarlierTerm(entry, [entry])
    ensures IsEntryEarlierTerm(other, [entry]) <==> other.leaderTerm < entry.leaderTerm
  {
  }
}
