/**
 * The status monitor as an object: `WorkerStatuses` owns the snapshot (filled by the
 * receiver, never cleared), the `max_displayed_workers` counter and the watch flag, and
 * `dump` renders the snapshot. Standard output is the `stdout` field, a sequence of
 * terminal events; the receiver thread's inserts are atomic steps on the same object.
 */
module WorkerStatusBook {
  import opened Text
  import opened Snapshot
  import opened Terminal
  import StatusMonitor

  /** The rows `dump` writes: one per worker, in key order, with no index column. */
  function DumpRows(es: Entries): seq<TermEvent> {
    seq(|es|, i requires 0 <= i < |es| => Row(WorkerColumns(es[i].0, es[i].1)))
  }

  /**
   * What `dump` writes for a snapshot `es` when the counter stood at `maxDisplayed`:
   * the counter is raised to `max(n, maxDisplayed)` first, then the rows, the cleared
   * lines up to the counter, and in watch mode a move back up by the counter.
   */
  function DumpFrame(es: Entries, maxDisplayed: nat, keepWatching: bool): seq<TermEvent> {
    var counter := Max(|es|, maxDisplayed);
    DumpRows(es) + Blanks(counter - |es|) + MoveBack(counter, keepWatching)
  }

  class WorkerStatuses {
    var list: Entries
    var maxDisplayedWorkers: nat
    var keepWatching: bool
    /** Everything written to standard output so far. */
    var stdout: seq<TermEvent>

    /** The snapshot is key-sorted and the counter never exceeds its size. */
    ghost predicate Valid()
      reads this
    {
      Sorted(list) && maxDisplayedWorkers <= |list|
    }

    /** `new`: an empty snapshot, counter 0, not watching; the column titles are printed. */
    constructor()
      ensures Valid()
      ensures list == [] && maxDisplayedWorkers == 0 && !keepWatching
      ensures stdout == [Row(WorkerTitles)]
    {
      list := [];
      maxDisplayedWorkers := 0;
      keepWatching := false;
      stdout := [Row(WorkerTitles)];
    }

    /** `set_keep_watching`: raises the flag and changes nothing else. */
    method SetKeepWatching()
      modifies this
      ensures keepWatching
      ensures list == old(list) && maxDisplayedWorkers == old(maxDisplayedWorkers) && stdout == old(stdout)
    {
      keepWatching := true;
    }

    /**
     * The receiver thread's insert: the status replaces the entry under its container id
     * and every other entry is untouched.
     */
    method Receive(status: ProcessStatus)
      requires Valid()
      modifies this
      ensures Valid()
      ensures list == Insert(old(list), status.dockerContainerId, status)
      ensures ToMap(list) == ToMap(old(list))[status.dockerContainerId := status]
      ensures |list| >= |old(list)|
      ensures maxDisplayedWorkers == old(maxDisplayedWorkers) && keepWatching == old(keepWatching)
      ensures stdout == old(stdout)
    {
      InsertSpec(list, status.dockerContainerId, status);
      list := Insert(list, status.dockerContainerId, status);
    }

    /**
     * `dump`: raise the counter to the number of workers, write the rows, clear the
     * stale lines below them and in watch mode move the cursor back up by the counter.
     * The snapshot is read, not changed; on a valid object no line is ever cleared.
     */
    method Dump()
      modifies this
      ensures list == old(list) && keepWatching == old(keepWatching)
      ensures maxDisplayedWorkers == Max(|list|, old(maxDisplayedWorkers))
      ensures stdout == old(stdout) + DumpFrame(list, old(maxDisplayedWorkers), keepWatching)
      ensures old(Valid()) ==> Valid() && maxDisplayedWorkers == |list|
    {
      var nbWorkers := |list|;
      maxDisplayedWorkers := Max(nbWorkers, maxDisplayedWorkers);
      var emptyLines := maxDisplayedWorkers - nbWorkers;
      var out := stdout;
      var i := 0;
      while i < nbWorkers
        invariant i <= nbWorkers
        invariant out == old(stdout) + DumpRows(list)[..i]
      {
        var (workerId, processStatus) := list[i];
        out := out + [Row(WorkerColumns(workerId, processStatus))];
        i := i + 1;
      }
      var l := 0;
      while l < emptyLines
        invariant l <= emptyLines
        invariant out == old(stdout) + DumpRows(list) + Blanks(l)
      {
        out := out + [ClearLine];
        l := l + 1;
      }
      if maxDisplayedWorkers > 0 && keepWatching {
        out := out + [MoveUp(AsU16(maxDisplayedWorkers))];
      }
      stdout := out;
    }
  }

  /**
   * The line arithmetic of `dump`: the rows and cleared lines add up to the raised
   * counter, and in watch mode the cursor moves back up by exactly the lines written
   * (as long as that fits the `u16` the move is cast to).
   */
  lemma {:induction false} DumpFrameLines(es: Entries, maxDisplayed: nat, keepWatching: bool)
    ensures var frame := DumpFrame(es, maxDisplayed, keepWatching);
      var counter := Max(|es|, maxDisplayed);
      LinesWritten(frame) == counter &&
      (forall i :: 0 <= i < |es| ==> frame[i].Row?) &&
      (forall i :: |es| <= i < counter ==> frame[i] == ClearLine) &&
      (forall i :: 0 <= i < counter ==> !frame[i].MoveUp?) &&
      frame[counter..] == MoveBack(counter, keepWatching) &&
      (counter > 0 && keepWatching && counter < 0x1_0000 ==> frame[counter..] == [MoveUp(LinesWritten(frame))])
  {
    var counter := Max(|es|, maxDisplayed);
    var body := DumpRows(es) + Blanks(counter - |es|);
    assert DumpFrame(es, maxDisplayed, keepWatching) == body + MoveBack(counter, keepWatching);
    LinesWrittenNoMove(body);
    LinesWrittenAppend(body, MoveBack(counter, keepWatching));
  }

  /**
   * The rows of `dump`: one per worker, in ascending key order, whose first column is the
   * worker id and last column the job's status or "-".
   */
  lemma DumpFrameRows(es: Entries, maxDisplayed: nat, keepWatching: bool, i: nat)
    requires Sorted(es) && i < |es|
    ensures var frame := DumpFrame(es, maxDisplayed, keepWatching);
      frame[i].Row? && |frame[i].fields| == 8 &&
      frame[i].fields[0] == es[i].0 &&
      (forall j :: i < j < |es| ==> Less(frame[i].fields[0], frame[j].fields[0])) &&
      frame[i].fields[7] == (if es[i].1.job.Some? then es[i].1.job.value else "-")
  {
  }

  /**
   * Because the snapshot of a `WorkerStatuses` is never cleared, the counter never
   * exceeds its size, and then `dump` writes no cleared line at all: just the rows and,
   * in watch mode, the move back up over them.
   */
  lemma NoStaleLines(es: Entries, maxDisplayed: nat, keepWatching: bool)
    requires maxDisplayed <= |es|
    ensures DumpFrame(es, maxDisplayed, keepWatching) == DumpRows(es) + MoveBack(|es|, keepWatching)
    ensures forall i :: 0 <= i < |DumpFrame(es, maxDisplayed, keepWatching)| ==>
      DumpFrame(es, maxDisplayed, keepWatching)[i] != ClearLine
  {
    assert Blanks(0) == [];
    assert DumpRows(es) + Blanks(0) == DumpRows(es);
  }

  /**
   * The two renderers agree line for line: `print_worker_statuses` writes the same
   * frame as `dump` for the same snapshot and counter, except that each row starts with
   * its 1-based position.
   */
  lemma FramesAgree(es: Entries, maxDisplayed: nat, keepWatching: bool)
    ensures var indexed := StatusMonitor.StatusFrame(es, maxDisplayed, keepWatching);
      var plain := DumpFrame(es, maxDisplayed, keepWatching);
      |indexed| == |plain| &&
      (forall i :: 0 <= i < |es| ==> indexed[i] == Row([NatToString(i + 1)] + plain[i].fields)) &&
      (forall i :: |es| <= i < |plain| ==> indexed[i] == plain[i])
  {
  }

  /**
   * A receive followed by a dump on a valid object: the counter lands on the new number
   * of workers, so it never decreases and no line is cleared.
   */
  method ReceiveThenDump(book: WorkerStatuses, status: ProcessStatus)
    requires book.Valid()
    modifies book
    ensures book.Valid()
    ensures book.maxDisplayedWorkers == |book.list| >= old(book.maxDisplayedWorkers)
    ensures book.stdout == old(book.stdout) + DumpRows(book.list) + MoveBack(|book.list|, book.keepWatching)
  {
    book.Receive(status);
    ghost var m := book.maxDisplayedWorkers;
    book.Dump();
    NoStaleLines(book.list, m, book.keepWatching);
  }
}
