/**
 * The status snapshot: a `BTreeMap<String, ProcessStatus>` keyed by the reporting
 * worker's `docker_container_id`. It is represented as its in-order iteration, a
 * sequence of entries strictly ascending by key, and `ToMap` gives its map view.
 */
module Snapshot {
  import opened Wrappers

  /** The fields of `mcai_worker_sdk::processor::ProcessStatus` that the monitor reads. */
  datatype ProcessStatus = ProcessStatus(
    dockerContainerId: string,
    usedMemory: nat,
    totalMemory: nat,
    usedSwap: nat,
    totalSwap: nat,
    numberOfProcessors: nat,
    activity: string,          // the `{:?}` rendering of the worker's activity
    job: Option<string>)       // the last job's status string, if a job result is present

  /** Strict lexicographic order on strings: the key order of a `BTreeMap<String, _>`. */
  predicate Less(a: string, b: string) {
    if a == [] then b != []
    else if b == [] then false
    else a[0] < b[0] || (a[0] == b[0] && Less(a[1..], b[1..]))
  }

  lemma {:induction false} LessIrreflexive(a: string)
    ensures !Less(a, a)
  {
    if a != [] { LessIrreflexive(a[1..]); }
  }

  lemma {:induction false} LessTransitive(a: string, b: string, c: string)
    requires Less(a, b) && Less(b, c)
    ensures Less(a, c)
  {
    if a != [] && b != [] && c != [] && a[0] == b[0] == c[0] {
      LessTransitive(a[1..], b[1..], c[1..]);
    }
  }

  lemma {:induction false} LessTotal(a: string, b: string)
    requires a != b
    ensures Less(a, b) || Less(b, a)
  {
    if a != [] && b != [] && a[0] == b[0] {
      LessTotal(a[1..], b[1..]);
    }
  }

  type Entry = (string, ProcessStatus)
  type Entries = seq<Entry>

  /** Keys strictly ascending, hence unique. */
  predicate Sorted(es: Entries) {
    forall i, j :: 0 <= i < j < |es| ==> Less(es[i].0, es[j].0)
  }

  function KeySet(es: Entries): set<string> {
    set i | 0 <= i < |es| :: es[i].0
  }

  /** The map view of the entries. */
  function ToMap(es: Entries): map<string, ProcessStatus> {
    if es == [] then map[] else ToMap(es[1..])[es[0].0 := es[0].1]
  }

  /** The map's keys are exactly the entries' keys. */
  lemma {:induction false} ToMapKeys(es: Entries)
    ensures ToMap(es).Keys == KeySet(es)
  {
    if es != [] {
      ToMapKeys(es[1..]);
      assert KeySet(es) == KeySet(es[1..]) + {es[0].0} by {
        forall k | k in KeySet(es) ensures k in KeySet(es[1..]) + {es[0].0} {
          var i :| 0 <= i < |es| && es[i].0 == k;
          if i > 0 { assert es[1..][i - 1].0 == k; }
        }
      }
    }
  }

  /** With unique keys the map has exactly one key per entry. */
  lemma {:induction false} ToMapSize(es: Entries)
    requires Sorted(es)
    ensures |ToMap(es)| == |es|
  {
    if es != [] {
      ToMapSize(es[1..]);
      forall i | 0 <= i < |es[1..]| ensures es[1..][i].0 != es[0].0 {
        assert Less(es[0].0, es[i + 1].0);
        LessIrreflexive(es[0].0);
      }
      ToMapKeys(es[1..]);
      assert es[0].0 !in KeySet(es[1..]);
    }
  }

  /** Each entry's value is what the map view holds under its key. */
  lemma {:induction false} ToMapAt(es: Entries, i: nat)
    requires Sorted(es) && i < |es|
    ensures es[i].0 in ToMap(es) && ToMap(es)[es[i].0] == es[i].1
  {
    if i > 0 {
      ToMapAt(es[1..], i - 1);
      assert Less(es[0].0, es[i].0);
      LessIrreflexive(es[0].0);
    }
  }

  /**
   * `BTreeMap::insert(k, v)`: the entry for `k` is replaced in place, or a new entry
   * is added at its key position. `InsertSpec` states what it achieves.
   */
  function Insert(es: Entries, k: string, v: ProcessStatus): Entries {
    if es == [] then [(k, v)]
    else if es[0].0 == k then [(k, v)] + es[1..]
    else if Less(k, es[0].0) then [(k, v)] + es
    else [es[0]] + Insert(es[1..], k, v)
  }

  /** Last write wins: the inserted key maps to `v` and every other key keeps its value. */
  lemma {:induction false} InsertToMap(es: Entries, k: string, v: ProcessStatus)
    ensures ToMap(Insert(es, k, v)) == ToMap(es)[k := v]
  {
    if es == [] {
    } else if es[0].0 == k {
      assert ([(k, v)] + es[1..])[1..] == es[1..];
    } else if Less(k, es[0].0) {
      assert ([(k, v)] + es)[1..] == es;
    } else {
      InsertToMap(es[1..], k, v);
      var tail := Insert(es[1..], k, v);
      assert ([es[0]] + tail)[1..] == tail;
    }
  }

  /** Inserting keeps the keys strictly ascending. */
  lemma {:induction false} InsertSorted(es: Entries, k: string, v: ProcessStatus)
    requires Sorted(es)
    ensures Sorted(Insert(es, k, v))
  {
    if es == [] {
    } else if es[0].0 == k {
    } else if Less(k, es[0].0) {
      forall j | 0 < j < |es| ensures Less(k, es[j].0) { LessTransitive(k, es[0].0, es[j].0); }
    } else {
      LessTotal(k, es[0].0);
      InsertSorted(es[1..], k, v);
      InsertToMap(es[1..], k, v);
      var tail := Insert(es[1..], k, v);
      ToMapKeys(tail);
      ToMapKeys(es[1..]);
      forall j | 0 <= j < |tail| ensures Less(es[0].0, tail[j].0) {
        assert tail[j].0 in KeySet(tail);
        if tail[j].0 != k {
          assert tail[j].0 in KeySet(es[1..]);
          var m :| 0 <= m < |es[1..]| && es[1..][m].0 == tail[j].0;
        }
      }
    }
  }

  /** The snapshot grows by one entry exactly when the key was absent. */
  lemma {:induction false} InsertSize(es: Entries, k: string, v: ProcessStatus)
    requires Sorted(es)
    ensures |Insert(es, k, v)| == if k in ToMap(es) then |es| else |es| + 1
  {
    if es == [] {
    } else if es[0].0 == k {
    } else if Less(k, es[0].0) {
      forall i | 0 <= i < |es| ensures es[i].0 != k {
        if i > 0 { LessTransitive(k, es[0].0, es[i].0); }
        LessIrreflexive(k);
      }
      assert k !in KeySet(es);
      ToMapKeys(es);
    } else {
      InsertSize(es[1..], k, v);
      assert k in ToMap(es) <==> k in ToMap(es[1..]);
    }
  }

  /** The three facts about one insertion together. */
  lemma InsertSpec(es: Entries, k: string, v: ProcessStatus)
    requires Sorted(es)
    ensures Sorted(Insert(es, k, v))
    ensures ToMap(Insert(es, k, v)) == ToMap(es)[k := v]
    ensures |Insert(es, k, v)| == if k in ToMap(es) then |es| else |es| + 1
  {
    InsertToMap(es, k, v);
    InsertSorted(es, k, v);
    InsertSize(es, k, v);
  }

  /** The snapshot after merging `statuses` one after the other, each under its container id. */
  function MergeAll(es: Entries, statuses: seq<ProcessStatus>): Entries
    decreases |statuses|
  {
    if statuses == [] then es
    else
      var last := statuses[|statuses| - 1];
      Insert(MergeAll(es, statuses[..|statuses| - 1]), last.dockerContainerId, last)
  }

  /** Merging one more status is one more insertion. */
  lemma MergeAllSnoc(es: Entries, statuses: seq<ProcessStatus>, s: ProcessStatus)
    ensures MergeAll(es, statuses + [s]) == Insert(MergeAll(es, statuses), s.dockerContainerId, s)
  {
    assert (statuses + [s])[..|statuses|] == statuses;
  }

  lemma {:induction false} MergeAllSorted(es: Entries, statuses: seq<ProcessStatus>)
    requires Sorted(es)
    ensures Sorted(MergeAll(es, statuses))
    decreases |statuses|
  {
    if statuses != [] {
      var last := statuses[|statuses| - 1];
      MergeAllSorted(es, statuses[..|statuses| - 1]);
      InsertSpec(MergeAll(es, statuses[..|statuses| - 1]), last.dockerContainerId, last);
    }
  }

  /** The container ids that `statuses` report under. */
  function Ids(statuses: seq<ProcessStatus>): set<string>
    decreases |statuses|
  {
    if statuses == [] then {}
    else Ids(statuses[..|statuses| - 1]) + {statuses[|statuses| - 1].dockerContainerId}
  }

  /** `statuses[i]` is the last status in `statuses` reported under `id`. */
  predicate LastReport(statuses: seq<ProcessStatus>, id: string, i: nat) {
    i < |statuses| && statuses[i].dockerContainerId == id &&
    forall j :: i < j < |statuses| ==> statuses[j].dockerContainerId != id
  }

  /** After any sequence of merges the keys are the old keys plus every reported id. */
  lemma {:induction false} MergeAllKeys(es: Entries, statuses: seq<ProcessStatus>)
    requires Sorted(es)
    ensures ToMap(MergeAll(es, statuses)).Keys == ToMap(es).Keys + Ids(statuses)
    decreases |statuses|
  {
    if statuses != [] {
      var init := statuses[..|statuses| - 1];
      var last := statuses[|statuses| - 1];
      MergeAllKeys(es, init);
      MergeAllSorted(es, init);
      InsertSpec(MergeAll(es, init), last.dockerContainerId, last);
    }
  }

  /** An id that no merged status reports keeps the value it had. */
  lemma {:induction false} MergeAllKeepsUnreported(es: Entries, statuses: seq<ProcessStatus>, id: string)
    requires Sorted(es) && id !in Ids(statuses) && id in ToMap(es)
    ensures id in ToMap(MergeAll(es, statuses))
    ensures ToMap(MergeAll(es, statuses))[id] == ToMap(es)[id]
    decreases |statuses|
  {
    if statuses != [] {
      var init := statuses[..|statuses| - 1];
      var last := statuses[|statuses| - 1];
      MergeAllKeepsUnreported(es, init, id);
      MergeAllSorted(es, init);
      InsertSpec(MergeAll(es, init), last.dockerContainerId, last);
    }
  }

  /** Last write wins: an id maps to the last status reported under it. */
  lemma {:induction false} MergeAllLastWriteWins(es: Entries, statuses: seq<ProcessStatus>, id: string, i: nat)
    requires Sorted(es) && LastReport(statuses, id, i)
    ensures id in ToMap(MergeAll(es, statuses))
    ensures ToMap(MergeAll(es, statuses))[id] == statuses[i]
    decreases |statuses|
  {
    var init := statuses[..|statuses| - 1];
    var last := statuses[|statuses| - 1];
    MergeAllSorted(es, init);
    InsertSpec(MergeAll(es, init), last.dockerContainerId, last);
    if i < |statuses| - 1 {
      assert LastReport(init, id, i) by {
        assert init[i] == statuses[i];
        forall j | i < j < |init| ensures init[j].dockerContainerId != id { assert init[j] == statuses[j]; }
      }
      MergeAllLastWriteWins(es, init, id, i);
    }
  }

  /** Merging never loses a key, so the snapshot never shrinks. */
  lemma {:induction false} MergeAllGrows(es: Entries, statuses: seq<ProcessStatus>)
    requires Sorted(es)
    ensures |MergeAll(es, statuses)| >= |es|
    ensures ToMap(es).Keys <= ToMap(MergeAll(es, statuses)).Keys
    decreases |statuses|
  {
    if statuses != [] {
      var init := statuses[..|statuses| - 1];
      var last := statuses[|statuses| - 1];
      MergeAllGrows(es, init);
      MergeAllSorted(es, init);
      InsertSpec(MergeAll(es, init), last.dockerContainerId, last);
      ToMapSize(MergeAll(es, init));
    }
  }
}
