/**
 * The terminal as a sequence of abstract events. A `Row` is one printed line given by
 * its column texts (the fixed-width padding, which never truncates, is not modelled);
 * `ClearLine` clears the current line and moves to the start of the next one; `MoveUp`
 * moves the cursor back up by the given number of lines.
 */
module Terminal {
  import opened Wrappers
  import opened Text
  import opened Snapshot

  datatype TermEvent = Row(fields: seq<string>) | ClearLine | MoveUp(lines: nat)

  function Max(a: nat, b: nat): (m: nat)
    ensures m >= a && m >= b && (m == a || m == b)
  {
    if a >= b then a else b
  }

  /** Rust's `usize as u16`: truncation to the low 16 bits. */
  function AsU16(n: nat): (r: nat)
    ensures r < 0x1_0000
    ensures n < 0x1_0000 ==> r == n
  {
    n % 0x1_0000
  }

  /** The "Status" column: the job's status when a job result is present, else "-". */
  function StatusColumn(s: ProcessStatus): string {
    s.job.UnwrapOr("-")
  }

  /** The eight columns shown for one worker, from "Worker ID" to "Status". */
  function WorkerColumns(id: string, s: ProcessStatus): seq<string> {
    [id, NatToString(s.usedMemory), NatToString(s.totalMemory), NatToString(s.usedSwap),
     NatToString(s.totalSwap), NatToString(s.numberOfProcessors), s.activity, StatusColumn(s)]
  }

  /** The titles of those eight columns. */
  const WorkerTitles: seq<string> :=
    ["Worker ID", "Used Memory", "Total Memory", "Used Swap", "Total Swap", "Nb. CPUs", "Activity", "Status"]

  function Blanks(n: nat): (r: seq<TermEvent>)
    ensures |r| == n && forall i :: 0 <= i < n ==> r[i] == ClearLine
  {
    seq(n, _ => ClearLine)
  }

  /** The cursor move issued after a frame of `lines` lines. */
  function MoveBack(lines: nat, keepWatching: bool): seq<TermEvent> {
    if lines > 0 && keepWatching then [MoveUp(AsU16(lines))] else []
  }

  /** Number of lines a sequence of events writes: its rows and cleared lines. */
  function LinesWritten(events: seq<TermEvent>): nat
    decreases |events|
  {
    if events == [] then 0
    else LinesWritten(events[..|events| - 1]) + (if events[|events| - 1].MoveUp? then 0 else 1)
  }

  lemma {:induction false} LinesWrittenAppend(a: seq<TermEvent>, b: seq<TermEvent>)
    ensures LinesWritten(a + b) == LinesWritten(a) + LinesWritten(b)
    decreases |b|
  {
    if b == [] {
      assert a + b == a;
    } else {
      assert (a + b)[..|a + b| - 1] == a + b[..|b| - 1];
      assert (a + b)[|a + b| - 1] == b[|b| - 1];
      LinesWrittenAppend(a, b[..|b| - 1]);
    }
  }

  lemma {:induction false} LinesWrittenNoMove(events: seq<TermEvent>)
    requires forall i :: 0 <= i < |events| ==> !events[i].MoveUp?
    ensures LinesWritten(events) == |events|
    decreases |events|
  {
    if events != [] { LinesWrittenNoMove(events[..|events| - 1]); }
  }
}
