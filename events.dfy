/**
 * The observable trace of a sync: the calls made on the device, the progress
 * and completion events raised by iPhoneSync.Sync, and the message boxes and
 * queue steps of MainWindow, in the order they happen.
 */
module Events {
  import opened Results

  datatype Event =
    | SourceMissing(directory: string)          // "Source Directory Does not exist" message
    | Dequeued(device: nat)                     // a job taken off the queue
    | CreateDirectory(folder: string)           // iPhone.CreateDirectory requested
    | CreateDirectoryFailed(folder: string)     // "Create directory failed" message
    | Progress(percent: int, currentFile: Option<string>)  // ProgressChanged raised
    | CopyFile(local: string, remote: string)   // iPhone.CopyFile requested
    | SyncCompleted                             // SyncCompleted raised
    | Drained                                   // button re-enabled, list cleared, "Completed Sync Job."

  /** A trace entry raised from inside a device sync, not by the window or its queue. */
  predicate SyncEvent(e: Event) {
    !e.SourceMissing? && !e.Dequeued? && !e.Drained?
  }

  predicate AllSyncEvents(es: seq<Event>) {
    forall i :: 0 <= i < |es| ==> SyncEvent(es[i])
  }

  lemma AllSyncEventsConcat(a: seq<Event>, b: seq<Event>)
    requires AllSyncEvents(a) && AllSyncEvents(b)
    ensures AllSyncEvents(a + b)
  {
    forall i | 0 <= i < |a + b| ensures SyncEvent((a + b)[i]) {
      if i >= |a| {
        assert (a + b)[i] == b[i - |a|];
      }
    }
  }

  /** Number of occurrences of `e` in `es`. */
  function Count(es: seq<Event>, e: Event): nat {
    if es == [] then 0 else (if es[0] == e then 1 else 0) + Count(es[1..], e)
  }

  /** The percentages of the Progress events, in order. */
  function ProgressValues(es: seq<Event>): seq<int> {
    if es == [] then []
    else (if es[0].Progress? then [es[0].percent] else []) + ProgressValues(es[1..])
  }

  /** The local files handed to CopyFile, in order. */
  function CopiedFiles(es: seq<Event>): seq<string> {
    if es == [] then []
    else (if es[0].CopyFile? then [es[0].local] else []) + CopiedFiles(es[1..])
  }

  /** The devices taken off the queue, in order. */
  function DequeuedDevices(es: seq<Event>): seq<nat> {
    if es == [] then []
    else (if es[0].Dequeued? then [es[0].device] else []) + DequeuedDevices(es[1..])
  }

  /**
   * The value a job's Progress property holds after the progress handler has
   * stored the percentage of every Progress event of `es`, starting from `prior`.
   */
  function LastProgress(es: seq<Event>, prior: int): (p: int)
    ensures ProgressValues(es) == [] ==> p == prior
    ensures ProgressValues(es) != [] ==> p == ProgressValues(es)[|ProgressValues(es)| - 1]
  {
    if es == [] then prior
    else LastProgress(es[1..], if es[0].Progress? then es[0].percent else prior)
  }

  lemma AppendAssoc(a: seq<Event>, b: seq<Event>, c: seq<Event>)
    ensures (a + b) + c == a + (b + c)
  {
  }

  /** A trace of sync events holds no dequeue and no drain. */
  lemma {:induction false} NoQueueEvents(es: seq<Event>)
    requires AllSyncEvents(es)
    ensures DequeuedDevices(es) == [] && Count(es, Drained) == 0
  {
    if es != [] {
      assert SyncEvent(es[0]);
      assert AllSyncEvents(es[1..]) by {
        forall i | 0 <= i < |es[1..]| ensures SyncEvent(es[1..][i]) {
          assert es[1..][i] == es[i + 1];
        }
      }
      NoQueueEvents(es[1..]);
    }
  }

  lemma {:induction false} CountConcat(a: seq<Event>, b: seq<Event>, e: Event)
    ensures Count(a + b, e) == Count(a, e) + Count(b, e)
  {
    if a != [] {
      assert (a + b)[1..] == a[1..] + b;
      CountConcat(a[1..], b, e);
    } else {
      assert a + b == b;
    }
  }

  lemma {:induction false} ProgressValuesConcat(a: seq<Event>, b: seq<Event>)
    ensures ProgressValues(a + b) == ProgressValues(a) + ProgressValues(b)
  {
    if a != [] {
      assert (a + b)[1..] == a[1..] + b;
      ProgressValuesConcat(a[1..], b);
    } else {
      assert a + b == b;
    }
  }

  lemma {:induction false} CopiedFilesConcat(a: seq<Event>, b: seq<Event>)
    ensures CopiedFiles(a + b) == CopiedFiles(a) + CopiedFiles(b)
  {
    if a != [] {
      assert (a + b)[1..] == a[1..] + b;
      CopiedFilesConcat(a[1..], b);
    } else {
      assert a + b == b;
    }
  }

  lemma {:induction false} DequeuedDevicesConcat(a: seq<Event>, b: seq<Event>)
    ensures DequeuedDevices(a + b) == DequeuedDevices(a) + DequeuedDevices(b)
  {
    if a != [] {
      assert (a + b)[1..] == a[1..] + b;
      DequeuedDevicesConcat(a[1..], b);
    } else {
      assert a + b == b;
    }
  }
}
