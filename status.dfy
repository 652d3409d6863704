/**
 * The status monitor as free functions over a shared snapshot: header construction,
 * broker URI, the reply consumer, the renderer and the poll loop. The consumer thread
 * and the poll loop are modelled as interleaved atomic steps on one sequential snapshot.
 */
module StatusMonitor {
  import opened Wrappers
  import opened Text
  import opened Snapshot
  import opened Broker
  import opened Amqp
  import opened Terminal

  /**
   * `get_amqp_server_uri`: the scheme is AMQPS exactly when TLS is requested, the
   * virtual host gets a leading '/', and the port must parse as a `u16` (the source
   * unwraps the parse, so any other port string aborts the program).
   */
  function GetAmqpServerUri(args: ConnectionArgs): (uri: AmqpUri)
    requires ParseU16(args.port).Some?
    ensures uri.scheme == Amqps <==> args.tls
    ensures uri.vhost == "/" + args.virtualHost
    ensures uri.port < 0x1_0000 && Some(uri.port) == ParseU16(args.port)
    ensures uri.username == args.user && uri.password == args.password && uri.host == args.host
  {
    AmqpUri(if args.tls then Amqps else Amqp, args.user, args.password, args.host,
            ParseU16(args.port).value, "/" + args.virtualHost)
  }

  // ---------------------------------------------------------------- consumer

  /** What `try_recv` on the stop channel reports. */
  datatype TryRecv = Received | Empty | Disconnected

  /** `stop_consumer`: stop when a stop message arrived or the poll loop hung up. */
  function StopConsumer(r: TryRecv): (stop: bool)
    ensures stop <==> r == Received || r == Disconnected
    ensures !stop <==> r == Empty
  {
    match r
    case Received => true
    case Disconnected => true
    case Empty => false
  }

  datatype ConsumerError = CouldNotHandleStatus(tag: nat)

  /** Tags of the decodable deliveries among `ds`: the ones acknowledged. */
  function AckedTags(ds: seq<Delivery>): seq<nat>
    decreases |ds|
  {
    if ds == [] then []
    else
      var d := ds[|ds| - 1];
      AckedTags(ds[..|ds| - 1]) + (if d.Delivered? && d.body.Encoded? then [d.tag] else [])
  }

  lemma AckedTagsSnoc(ds: seq<Delivery>, d: Delivery)
    ensures d.Delivered? && d.body.Encoded? ==> AckedTags(ds + [d]) == AckedTags(ds) + [d.tag]
    ensures !(d.Delivered? && d.body.Encoded?) ==> AckedTags(ds + [d]) == AckedTags(ds)
  {
    assert (ds + [d])[..|ds|] == ds;
    assert AckedTags(ds) + [] == AckedTags(ds);
  }

  /**
   * `start_consumer`: each delivered status is inserted under its container id and then
   * acknowledged; stream errors are skipped; after every item the stop channel is
   * polled. An undecodable body ends the consumer with an error, unacknowledged.
   * `signals[i]` is what the stop channel reports after item `i`.
   */
  method StartConsumer(statuses: Entries, deliveries: seq<Delivery>, signals: seq<TryRecv>)
    returns (merged: Entries, acked: seq<nat>, processed: nat, result: Result<(), ConsumerError>)
    requires |signals| == |deliveries|
    ensures processed <= |deliveries|
    ensures merged == MergeAll(statuses, StatusesOf(deliveries[..processed]))
    ensures acked == AckedTags(deliveries[..processed])
    ensures forall j :: 0 <= j < processed - 1 ==> !StopConsumer(signals[j]) && !IsMalformed(deliveries[j])
    ensures result.Err? ==> processed > 0 && IsMalformed(deliveries[processed - 1])
    ensures result.Ok? ==> forall j :: 0 <= j < processed ==> !IsMalformed(deliveries[j])
    ensures result.Ok? ==> processed == |deliveries| || (processed > 0 && StopConsumer(signals[processed - 1]))
  {
    merged, acked, processed, result := statuses, [], 0, Ok(());
    while processed < |deliveries|
      invariant processed <= |deliveries|
      invariant merged == MergeAll(statuses, StatusesOf(deliveries[..processed]))
      invariant acked == AckedTags(deliveries[..processed])
      invariant forall j :: 0 <= j < processed ==> !StopConsumer(signals[j]) && !IsMalformed(deliveries[j])
    {
      var delivery := deliveries[processed];
      ghost var done := deliveries[..processed];
      assert deliveries[..processed + 1] == done + [delivery];
      StatusesOfSnoc(done, delivery);
      AckedTagsSnoc(done, delivery);
      processed := processed + 1;
      if delivery.Delivered? {
        if delivery.body.Malformed? {
          result := Err(CouldNotHandleStatus(delivery.tag));
          return;
        }
        var status := delivery.body.status;
        MergeAllSnoc(statuses, StatusesOf(done), status);
        merged := Insert(merged, status.dockerContainerId, status);
        acked := acked + [delivery.tag];
      }
      if StopConsumer(signals[processed - 1]) {
        return;
      }
    }
  }

  // ---------------------------------------------------------------- renderer

  /** Column titles of the header printed before the first poll. */
  const StatusTitles: seq<string> := [" #"] + WorkerTitles

  /** One row per worker in key order, prefixed with its 1-based position. */
  function IndexedRows(es: Entries): (rows: seq<TermEvent>)
    ensures |rows| == |es|
  {
    seq(|es|, i requires 0 <= i < |es| => Row([NatToString(i + 1)] + WorkerColumns(es[i].0, es[i].1)))
  }

  /**
   * What `print_worker_statuses` writes: the rows, then enough cleared lines to reach
   * `max(n, maxDisplayed)` lines, then (in watch mode, if anything was written) a
   * move back up over those lines.
   */
  function StatusFrame(es: Entries, maxDisplayed: nat, keepWatching: bool): seq<TermEvent> {
    var lines := Max(|es|, maxDisplayed);
    IndexedRows(es) + Blanks(lines - |es|) + MoveBack(lines, keepWatching)
  }

  /** `print_worker_statuses`, with `cursor_position` counting every line written. */
  method PrintWorkerStatuses(es: Entries, maxDisplayed: nat, keepWatching: bool)
    returns (out: seq<TermEvent>, cursorPosition: nat)
    ensures out == StatusFrame(es, maxDisplayed, keepWatching)
    ensures cursorPosition == Max(|es|, maxDisplayed)
  {
    var nbWorkers := |es|;
    var nbDisplayedLines := Max(nbWorkers, maxDisplayed);
    var emptyLines := nbDisplayedLines - nbWorkers;
    out, cursorPosition := [], 0;
    var workerIndex := 0;
    while workerIndex < nbWorkers
      invariant workerIndex <= nbWorkers && cursorPosition == workerIndex
      invariant out == IndexedRows(es)[..workerIndex]
    {
      var (workerId, processStatus) := es[workerIndex];
      out := out + [Row([NatToString(workerIndex + 1)] + WorkerColumns(workerId, processStatus))];
      cursorPosition := cursorPosition + 1;
      workerIndex := workerIndex + 1;
    }
    var l := 0;
    while l < emptyLines
      invariant l <= emptyLines && cursorPosition == nbWorkers + l
      invariant out == IndexedRows(es) + Blanks(l)
    {
      out := out + [ClearLine];
      cursorPosition := cursorPosition + 1;
      l := l + 1;
    }
    if cursorPosition > 0 && keepWatching {
      out := out + [MoveUp(AsU16(cursorPosition))];
    }
  }

  /**
   * The rows of a frame: one per worker, in ascending key order, whose first column
   * reads as the 1-based position, second column is the worker id, and last column is
   * the job's status or "-".
   */
  lemma StatusFrameRows(es: Entries, maxDisplayed: nat, keepWatching: bool, i: nat)
    requires Sorted(es) && i < |es|
    ensures var frame := StatusFrame(es, maxDisplayed, keepWatching);
      frame[i].Row? && |frame[i].fields| == 9 &&
      DigitsValue(frame[i].fields[0]) == i + 1 &&
      frame[i].fields[1] == es[i].0 &&
      (forall j :: i < j < |es| ==> Less(frame[i].fields[1], frame[j].fields[1])) &&
      frame[i].fields[8] == (if es[i].1.job.Some? then es[i].1.job.value else "-")
  {
    NatToStringRoundTrip(i + 1);
  }

  /**
   * The line arithmetic of a frame: `max(n, m) - n` cleared lines follow the `n` rows,
   * so rows plus cleared lines make `max(n, m)`; the cursor moves back up only in watch
   * mode with at least one line written, by exactly the lines written (as long as that
   * fits the `u16` the move is cast to).
   */
  lemma {:induction false} StatusFrameLines(es: Entries, maxDisplayed: nat, keepWatching: bool)
    ensures var frame := StatusFrame(es, maxDisplayed, keepWatching);
      var lines := Max(|es|, maxDisplayed);
      LinesWritten(frame) == lines &&
      (forall i :: |es| <= i < lines ==> frame[i] == ClearLine) &&
      (forall i :: 0 <= i < lines ==> !frame[i].MoveUp?) &&
      frame[lines..] == MoveBack(lines, keepWatching) &&
      (lines > 0 && keepWatching && lines < 0x1_0000 ==> frame[lines..] == [MoveUp(LinesWritten(frame))])
  {
    var lines := Max(|es|, maxDisplayed);
    var body := IndexedRows(es) + Blanks(lines - |es|);
    assert StatusFrame(es, maxDisplayed, keepWatching) == body + MoveBack(lines, keepWatching);
    LinesWrittenNoMove(body);
    LinesWrittenAppend(body, MoveBack(lines, keepWatching));
  }

  // ---------------------------------------------------------------- poll loop

  /** The statuses merged while the poll loop sleeps in cycle `c` (none beyond the observed ones). */
  function Window(windows: seq<seq<ProcessStatus>>, c: nat): seq<ProcessStatus> {
    if c < |windows| then windows[c] else []
  }

  /** The snapshot rendered in cycle `c`: the map is empty when the cycle begins. */
  function CycleSnapshot(windows: seq<seq<ProcessStatus>>, c: nat): Entries {
    MergeAll([], Window(windows, c))
  }

  /** `max_displayed_workers` after `c` cycles. */
  function MaxDisplayedAfter(windows: seq<seq<ProcessStatus>>, c: nat): nat {
    if c == 0 then 0 else Max(MaxDisplayedAfter(windows, c - 1), |CycleSnapshot(windows, c - 1)|)
  }

  /** Everything the first `c` cycles write to the terminal. */
  function CyclesOutput(windows: seq<seq<ProcessStatus>>, c: nat, keepWatching: bool): seq<TermEvent> {
    if c == 0 then []
    else CyclesOutput(windows, c - 1, keepWatching)
         + StatusFrame(CycleSnapshot(windows, c - 1), MaxDisplayedAfter(windows, c - 1), keepWatching)
  }

  /** A one-shot run does one cycle; a watch run is observed for one cycle per window. */
  function CycleCount(windows: seq<seq<ProcessStatus>>, keepWatching: bool): nat {
    if keepWatching then |windows| else 1
  }

  /**
   * Cycle `c` appends one frame of its own snapshot after whatever was printed before
   * (`header`), and raises the counter to that snapshot's size.
   */
  lemma CycleStep(windows: seq<seq<ProcessStatus>>, c: nat, keepWatching: bool, header: seq<TermEvent>)
    ensures header + CyclesOutput(windows, c + 1, keepWatching)
      == header + CyclesOutput(windows, c, keepWatching)
         + StatusFrame(MergeAll([], Window(windows, c)), MaxDisplayedAfter(windows, c), keepWatching)
    ensures MaxDisplayedAfter(windows, c + 1)
      == Max(MaxDisplayedAfter(windows, c), |MergeAll([], Window(windows, c))|)
  {
    var frame := StatusFrame(MergeAll([], Window(windows, c)), MaxDisplayedAfter(windows, c), keepWatching);
    assert CyclesOutput(windows, c + 1, keepWatching) == CyclesOutput(windows, c, keepWatching) + frame;
    assert header + (CyclesOutput(windows, c, keepWatching) + frame)
        == header + CyclesOutput(windows, c, keepWatching) + frame;
  }

  datatype PollError = StopSignalFailed

  /**
   * One iteration of the poll loop: publish one status request with the given headers,
   * let the consumer merge `window` into the (empty) snapshot while the loop sleeps,
   * render it, raise `max_displayed_workers` to the number of rows rendered, and clear
   * the snapshot.
   */
  method PollCycle(headers: HeaderTable, window: seq<ProcessStatus>, maxDisplayedWorkers: nat, keepWatching: bool)
    returns (request: Publish, frame: seq<TermEvent>, newMax: nat, workerStatuses: Entries)
    ensures request == StatusRequest(headers)
    ensures frame == StatusFrame(MergeAll([], window), maxDisplayedWorkers, keepWatching)
    ensures newMax == Max(maxDisplayedWorkers, |MergeAll([], window)|) && newMax >= maxDisplayedWorkers
    ensures workerStatuses == []
  {
    request := StatusRequest(headers);
    workerStatuses := [];
    // the consumer merges this cycle's replies while the loop sleeps
    workerStatuses := MergeAll(workerStatuses, window);
    var cursor;
    frame, cursor := PrintWorkerStatuses(workerStatuses, maxDisplayedWorkers, keepWatching);
    newMax := Max(maxDisplayedWorkers, |workerStatuses|);
    workerStatuses := [];
  }

  /**
   * The cycles of the poll loop of `get_worker_status`: per cycle publish one status
   * request with the same headers, let the consumer merge that cycle's window, render,
   * raise `max_displayed_workers` to the number of workers rendered, and clear the
   * snapshot. `terminal` holds what was printed before the first cycle (the header).
   */
  method PollCycles(headers: HeaderTable, windows: seq<seq<ProcessStatus>>, cycles: nat,
                    keepWatching: bool, header: seq<TermEvent>)
    returns (published: seq<Publish>, terminal: seq<TermEvent>, maxDisplayedWorkers: nat)
    ensures |published| == cycles
    ensures forall i :: 0 <= i < cycles ==> published[i] == StatusRequest(headers)
    ensures terminal == header + CyclesOutput(windows, cycles, keepWatching)
    ensures maxDisplayedWorkers == MaxDisplayedAfter(windows, cycles)
  {
    maxDisplayedWorkers := 0;
    terminal := header;
    published := [];
    var c := 0;
    while c < cycles
      invariant c <= cycles && |published| == c
      invariant forall i :: 0 <= i < c ==> published[i] == StatusRequest(headers)
      invariant terminal == header + CyclesOutput(windows, c, keepWatching)
      invariant maxDisplayedWorkers == MaxDisplayedAfter(windows, c)
    {
      var request, frame, newMax, cleared := PollCycle(headers, Window(windows, c), maxDisplayedWorkers, keepWatching);
      CycleStep(windows, c, keepWatching, header);
      published := published + [request];
      terminal := terminal + frame;
      maxDisplayedWorkers := newMax;
      c := c + 1;
    }
  }

  /**
   * The poll loop of `get_worker_status` (after connecting and declaring the topology):
   * print the header, run one cycle (one-shot) or one per observed window (watch mode),
   * and in a one-shot run signal the consumer to stop, which fails when the consumer has
   * already exited.
   */
  method GetWorkerStatus(workerId: Option<string>, keepWatching: bool,
                         windows: seq<seq<ProcessStatus>>, consumerRunning: bool)
    returns (published: seq<Publish>, terminal: seq<TermEvent>, maxDisplayedWorkers: nat,
             stopSent: bool, result: Result<(), PollError>)
    ensures |published| == CycleCount(windows, keepWatching)
    ensures forall i :: 0 <= i < |published| ==> published[i] == StatusRequest(GetRequestHeaders(workerId))
    ensures terminal == [Row(StatusTitles)] + CyclesOutput(windows, |published|, keepWatching)
    ensures maxDisplayedWorkers == MaxDisplayedAfter(windows, |published|)
    ensures stopSent <==> !keepWatching && consumerRunning
    ensures result.Err? <==> !keepWatching && !consumerRunning
  {
    var headers := GetRequestHeaders(workerId);
    published, terminal, maxDisplayedWorkers :=
      PollCycles(headers, windows, CycleCount(windows, keepWatching), keepWatching, [Row(StatusTitles)]);
    stopSent, result := false, Ok(());
    if !keepWatching {
      if consumerRunning {
        stopSent := true;
      } else {
        result := Err(StopSignalFailed);
      }
    }
  }

  /** The counter never decreases from one cycle to a later one. */
  lemma {:induction false} MaxDisplayedMonotone(windows: seq<seq<ProcessStatus>>, c: nat, d: nat)
    requires c <= d
    ensures MaxDisplayedAfter(windows, c) <= MaxDisplayedAfter(windows, d)
    decreases d
  {
    if c < d { MaxDisplayedMonotone(windows, c, d - 1); }
  }

  /** After `d` cycles the counter covers the row count of every cycle rendered so far. */
  lemma {:induction false} MaxDisplayedCoversCycles(windows: seq<seq<ProcessStatus>>, c: nat, d: nat)
    requires c < d
    ensures |CycleSnapshot(windows, c)| <= MaxDisplayedAfter(windows, d)
  {
    MaxDisplayedMonotone(windows, c + 1, d);
  }

  /**
   * A one-shot run renders a single frame with no cleared lines and no cursor move:
   * the header followed by one row per distinct worker that replied; with no replies,
   * just the header.
   */
  lemma OneShotOutput(windows: seq<seq<ProcessStatus>>)
    ensures var snapshot := CycleSnapshot(windows, 0);
      [Row(StatusTitles)] + CyclesOutput(windows, CycleCount(windows, false), false)
        == [Row(StatusTitles)] + IndexedRows(snapshot)
    ensures Window(windows, 0) == [] ==>
      [Row(StatusTitles)] + CyclesOutput(windows, CycleCount(windows, false), false) == [Row(StatusTitles)]
  {
    var snapshot := CycleSnapshot(windows, 0);
    assert StatusFrame(snapshot, 0, false) == IndexedRows(snapshot) + [] + [];
  }
}
