/**
 * The main window's job queue: a click enqueues every listed device in list
 * order, and BeginSync dequeues one job, connects it, runs its sync and,
 * from the job's completion handler, either starts the next job or
 * re-enables the button and clears the list. The SyncCompleted handler
 * that BeginSync installs calls BeginSync again; here BeginSync calls
 * itself in the same place, and is proved against the chain specification
 * ChainOver, whose properties are the lemmas below.
 */
module SyncQueue {
  import opened Results
  import opened Paths
  import opened Events
  import opened DeviceSync

  /**
   * The source directory as the file system reports it while a click is
   * processed: whether it exists, its own name and its files in enumeration order.
   */
  datatype Source = Source(present: bool, name: string, files: seq<string>)

  /** The values a click copies from the text boxes and the settings. */
  datatype Settings = Settings(source: string, target: string, bundle: string)

  /** The devices of the jobs, in queue order. */
  function Devices(jobs: seq<PhoneSync>): (ds: seq<Device>)
    ensures |ds| == |jobs|
    ensures forall i :: 0 <= i < |jobs| ==> ds[i] == jobs[i].device
  {
    if jobs == [] then [] else [jobs[0].device] + Devices(jobs[1..])
  }

  /** The ids of the devices, in order. */
  function Ids(ds: seq<Device>): seq<nat> {
    if ds == [] then [] else [ds[0].id] + Ids(ds[1..])
  }

  /** Whether every file of the source can be placed below `target`. */
  predicate AllFilesMap(s: Settings, fs: Source)
    requires Enumerated(fs.files)
  {
    forall j :: 0 <= j < |fs.files| ==> RemoteFolder(s.target, fs.name, fs.files[j]).Ok?
  }

  /** The sync each device would run over the source. */
  function Runs(ds: seq<Device>, s: Settings, fs: Source): (rs: seq<Run>)
    requires Enumerated(fs.files)
    ensures |rs| == |ds|
    ensures forall i :: 0 <= i < |ds| ==> rs[i] == SyncRun(ds[i], fs.name, s.target, fs.files)
  {
    if ds == [] then [] else [SyncRun(ds[0], fs.name, s.target, fs.files)] + Runs(ds[1..], s, fs)
  }

  /** What the queue relies on about a device sync: it raises only sync events and, when it completes, ends with its only SyncCompleted. */
  predicate Sane(r: Run) {
    AllSyncEvents(r.events)
    && (r.failure.None? ==> |r.events| >= 1 && r.events[|r.events| - 1] == SyncCompleted && Count(r.events, SyncCompleted) == 1)
  }

  predicate SaneRuns(rs: seq<Run>) {
    forall i :: 0 <= i < |rs| ==> Sane(rs[i])
  }

  /** Every device sync is sane, and each completes exactly when every file maps. */
  lemma RunsAreSane(ds: seq<Device>, s: Settings, fs: Source)
    requires Enumerated(fs.files)
    ensures SaneRuns(Runs(ds, s, fs))
    ensures forall i :: 0 <= i < |ds| ==> (Runs(ds, s, fs)[i].failure.None? <==> AllFilesMap(s, fs))
  {
    var rs := Runs(ds, s, fs);
    forall i | 0 <= i < |ds|
      ensures Sane(rs[i]) && (rs[i].failure.None? <==> AllFilesMap(s, fs))
    {
      SyncRunRaisesSyncEvents(ds[i], fs.name, s.target, fs.files);
      SyncStopsAtFirstThrow(ds[i], fs.name, s.target, fs.files);
      if rs[i].failure.None? {
        SyncCompletes(ds[i], fs.name, s.target, fs.files);
      }
    }
  }

  /** One BeginSync: its trace, whether it took a job off the queue, whether that job raised SyncCompleted. */
  datatype Begin = Begin(events: seq<Event>, dequeued: bool, completed: bool)

  /**
   * BeginSync on a queue holding the devices `ds`, whose syncs would be
   * `rs`: the source check comes first, then the dequeue, the connection
   * for `s.bundle` and the sync.
   */
  function BeginStep(ds: seq<Device>, rs: seq<Run>, s: Settings, present: bool): Begin
    requires |rs| == |ds|
  {
    if !present then Begin([SourceMissing(s.source)], false, false)
    else if ds == [] then Begin([], false, false)
    else if !ds[0].grantsAccess(s.bundle) then Begin([Dequeued(ds[0].id)], true, false)
    else Begin([Dequeued(ds[0].id)] + rs[0].events, true, rs[0].failure.None?)
  }

  /** The whole chain of BeginSync calls one click starts. */
  datatype Chained = Chained(events: seq<Event>, dequeued: nat, completed: nat, drained: bool)

  /**
   * The chain started on a queue holding `ds`: each completed job starts the
   * next one while the queue is non-empty; the job that empties it drains.
   */
  function ChainOver(ds: seq<Device>, rs: seq<Run>, s: Settings, present: bool): (c: Chained)
    requires |rs| == |ds|
    ensures c.completed <= c.dequeued <= |ds|
    ensures c.dequeued <= c.completed + 1
    ensures c.drained ==> ds != [] && c.completed == c.dequeued == |ds|
    ensures !present ==> c.events == [SourceMissing(s.source)] && c.dequeued == 0 && !c.drained
    decreases |ds|
  {
    var b := BeginStep(ds, rs, s, present);
    if !b.completed then Chained(b.events, if b.dequeued then 1 else 0, 0, false)
    else if |ds| == 1 then Chained(b.events + [Drained], 1, 1, true)
    else
      var rest := ChainOver(ds[1..], rs[1..], s, present);
      Chained(b.events + rest.events, 1 + rest.dequeued, 1 + rest.completed, rest.drained)
  }

  /** The chain a click over the listed devices `ds` starts. */
  function Chain(ds: seq<Device>, s: Settings, fs: Source): Chained
    requires Enumerated(fs.files)
  {
    ChainOver(ds, Runs(ds, s, fs), s, fs.present)
  }

  /**
   * One BeginSync dequeues the head device exactly when the source exists
   * and the queue is non-empty and logs that first; everything after it
   * comes from the sync; it completes exactly when the device grants access
   * and its sync completes, and then ends with its only SyncCompleted.
   */
  lemma BeginStepTrace(ds: seq<Device>, rs: seq<Run>, s: Settings, present: bool)
    requires |rs| == |ds| && SaneRuns(rs)
    ensures var b := BeginStep(ds, rs, s, present);
      (b.dequeued <==> present && ds != [])
      && (b.completed <==> present && ds != [] && ds[0].grantsAccess(s.bundle) && rs[0].failure.None?)
      && (b.dequeued ==> |b.events| >= 1 && b.events[0] == Dequeued(ds[0].id) && AllSyncEvents(b.events[1..]))
      && DequeuedDevices(b.events) == (if b.dequeued then [ds[0].id] else [])
      && Count(b.events, Drained) == 0
      && (b.completed ==> b.events[|b.events| - 1] == SyncCompleted && Count(b.events, SyncCompleted) == 1)
  {
    var b := BeginStep(ds, rs, s, present);
    if present && ds != [] {
      var head := [Dequeued(ds[0].id)];
      assert head[1..] == [];
      if ds[0].grantsAccess(s.bundle) {
        assert Sane(rs[0]);
        assert b.events[1..] == rs[0].events;
        NoQueueEvents(rs[0].events);
        DequeuedDevicesConcat(head, rs[0].events);
        CountConcat(head, rs[0].events, Drained);
        CountConcat(head, rs[0].events, SyncCompleted);
      } else {
        assert b.events[1..] == [];
      }
    } else if !present {
      var missing := [SourceMissing(s.source)];
      assert missing[1..] == [];
    }
  }

  /** At most one drain ever happens, and it is the last entry of the trace. */
  lemma {:induction false} DrainsAtMostOnce(ds: seq<Device>, rs: seq<Run>, s: Settings, present: bool)
    requires |rs| == |ds| && SaneRuns(rs)
    ensures var c := ChainOver(ds, rs, s, present);
      Count(c.events, Drained) == (if c.drained then 1 else 0)
      && (c.drained ==> c.events[|c.events| - 1] == Drained)
    decreases |ds|
  {
    var b := BeginStep(ds, rs, s, present);
    BeginStepTrace(ds, rs, s, present);
    if b.completed {
      if |ds| == 1 {
        var drain := [Drained];
        assert drain[1..] == [];
        CountConcat(b.events, drain, Drained);
      } else {
        var rest := ChainOver(ds[1..], rs[1..], s, present);
        DrainsAtMostOnce(ds[1..], rs[1..], s, present);
        CountConcat(b.events, rest.events, Drained);
      }
    }
  }

  /** Jobs leave the queue in the order the devices were listed. */
  lemma {:induction false} DequeuesInListOrder(ds: seq<Device>, rs: seq<Run>, s: Settings, present: bool)
    requires |rs| == |ds| && SaneRuns(rs)
    ensures var c := ChainOver(ds, rs, s, present);
      c.dequeued <= |ds| && DequeuedDevices(c.events) == Ids(ds[..c.dequeued])
    decreases |ds|
  {
    var c := ChainOver(ds, rs, s, present);
    var b := BeginStep(ds, rs, s, present);
    BeginStepTrace(ds, rs, s, present);
    if b.dequeued {
      assert ds[..1][1..] == [];
      assert Ids(ds[..1]) == [ds[0].id] + Ids([]);
    } else {
      assert ds[..0] == [];
    }
    if b.completed {
      if |ds| == 1 {
        var drain := [Drained];
        assert drain[1..] == [];
        DequeuedDevicesConcat(b.events, drain);
      } else {
        var rest := ChainOver(ds[1..], rs[1..], s, present);
        DequeuesInListOrder(ds[1..], rs[1..], s, present);
        DequeuedDevicesConcat(b.events, rest.events);
        assert ds[..c.dequeued][1..] == ds[1..][..rest.dequeued];
      }
    }
  }

  /**
   * The chain drains exactly when the source exists, some device is queued,
   * every device grants access and every sync completes; then all N jobs
   * are dequeued and each raises SyncCompleted once.
   */
  lemma {:induction false} FullCycle(ds: seq<Device>, rs: seq<Run>, s: Settings, present: bool)
    requires |rs| == |ds| && SaneRuns(rs)
    ensures ChainOver(ds, rs, s, present).drained
        <==> present && ds != [] && forall i :: 0 <= i < |ds| ==> ds[i].grantsAccess(s.bundle) && rs[i].failure.None?
    ensures ChainOver(ds, rs, s, present).drained ==>
      ChainOver(ds, rs, s, present).dequeued == |ds| && Count(ChainOver(ds, rs, s, present).events, SyncCompleted) == |ds|
    decreases |ds|
  {
    var b := BeginStep(ds, rs, s, present);
    BeginStepTrace(ds, rs, s, present);
    if b.completed {
      if |ds| == 1 {
        var drain := [Drained];
        assert drain[1..] == [];
        CountConcat(b.events, drain, SyncCompleted);
      } else {
        var rest := ChainOver(ds[1..], rs[1..], s, present);
        FullCycle(ds[1..], rs[1..], s, present);
        CountConcat(b.events, rest.events, SyncCompleted);
        if !rest.drained {
          var i :| 0 <= i < |ds[1..]| && !(ds[1..][i].grantsAccess(s.bundle) && rs[1..][i].failure.None?);
          assert !(ds[i + 1].grantsAccess(s.bundle) && rs[i + 1].failure.None?);
        } else {
          forall i | 0 <= i < |ds| ensures ds[i].grantsAccess(s.bundle) && rs[i].failure.None? {
            if i > 0 {
              assert ds[i] == ds[1..][i - 1] && rs[i] == rs[1..][i - 1];
            }
          }
        }
      }
    } else if present && ds != [] {
      assert !(ds[0].grantsAccess(s.bundle) && rs[0].failure.None?);
    }
  }

  /** Every dequeue in `es` but the first directly follows a SyncCompleted. */
  predicate Serial(es: seq<Event>) {
    forall i :: 0 < i < |es| && es[i].Dequeued? ==> es[i - 1] == SyncCompleted
  }

  /** Jobs run one after another: every dequeue but the first directly follows a SyncCompleted. */
  lemma {:induction false} JobsRunSerially(ds: seq<Device>, rs: seq<Run>, s: Settings, present: bool)
    requires |rs| == |ds| && SaneRuns(rs)
    ensures Serial(ChainOver(ds, rs, s, present).events)
    decreases |ds|
  {
    var c := ChainOver(ds, rs, s, present);
    var b := BeginStep(ds, rs, s, present);
    BeginStepTrace(ds, rs, s, present);
    var n := |b.events|;
    assert forall i :: 0 < i < n ==> !b.events[i].Dequeued? by {
      forall i | 0 < i < n ensures !b.events[i].Dequeued? {
        assert b.dequeued;
        assert b.events[i] == b.events[1..][i - 1];
        assert SyncEvent(b.events[1..][i - 1]);
      }
    }
    if !b.completed {
      assert c.events == b.events;
    } else if |ds| == 1 {
      assert c.events == b.events + [Drained];
      forall i | 0 < i < |c.events| ensures c.events[i].Dequeued? ==> c.events[i - 1] == SyncCompleted {
        if i < n {
          assert c.events[i] == b.events[i];
        } else {
          assert c.events[i] == Drained;
        }
      }
    } else {
      var rest := ChainOver(ds[1..], rs[1..], s, present);
      assert c.events == b.events + rest.events;
      JobsRunSerially(ds[1..], rs[1..], s, present);
      assert Serial(rest.events);
      forall i | 0 < i < |c.events| ensures c.events[i].Dequeued? ==> c.events[i - 1] == SyncCompleted {
        if i < n {
          assert c.events[i] == b.events[i];
        } else if i == n {
          assert c.events[i - 1] == b.events[n - 1];
        } else {
          var k := i - n;
          assert 0 < k < |rest.events|;
          assert c.events[i] == rest.events[k] && c.events[i - 1] == rest.events[k - 1];
        }
      }
    }
  }

  /**
   * What a click over the listed devices `ds` logs: jobs dequeued in list
   * order, one at a time, at most one drain and it comes last, and a drain
   * exactly when the source exists, some device is listed, every device
   * grants access and every file maps; then every job completes once.
   */
  lemma ClickTrace(ds: seq<Device>, s: Settings, fs: Source)
    requires Enumerated(fs.files)
    ensures var c := Chain(ds, s, fs);
      DequeuedDevices(c.events) == Ids(ds[..c.dequeued])
      && (forall i :: 0 < i < |c.events| && c.events[i].Dequeued? ==> c.events[i - 1] == SyncCompleted)
      && Count(c.events, Drained) == (if c.drained then 1 else 0)
      && (c.drained ==> c.events[|c.events| - 1] == Drained)
      && (c.drained <==> fs.present && ds != [] && AllFilesMap(s, fs)
                         && forall i :: 0 <= i < |ds| ==> ds[i].grantsAccess(s.bundle))
      && (c.drained ==> c.dequeued == |ds| && Count(c.events, SyncCompleted) == |ds|)
  {
    var rs := Runs(ds, s, fs);
    RunsAreSane(ds, s, fs);
    DequeuesInListOrder(ds, rs, s, fs.present);
    JobsRunSerially(ds, rs, s, fs.present);
    DrainsAtMostOnce(ds, rs, s, fs.present);
    FullCycle(ds, rs, s, fs.present);
  }

  lemma DevicesTail(jobs: seq<PhoneSync>)
    requires jobs != []
    ensures Devices(jobs)[1..] == Devices(jobs[1..])
  {
  }

  /** A Dequeued entry in front of a trace leaves the stored progress as the trace alone does. */
  lemma LastProgressAfterDequeue(id: nat, es: seq<Event>, prior: int)
    ensures LastProgress([Dequeued(id)] + es, prior) == LastProgress(es, prior)
  {
    assert ([Dequeued(id)] + es)[1..] == es;
  }

  /** The job at the head of a queue, as a frame. */
  function Head(jobs: seq<PhoneSync>): set<PhoneSync> {
    if jobs == [] then {} else {jobs[0]}
  }

  /** What the main window shows and holds: the device list, the queue, whether a job runs, the button, the trace. */
  datatype Window = Window(listed: seq<PhoneSync>, pending: seq<PhoneSync>, active: bool, buttonEnabled: bool, log: seq<Event>)

  /**
   * The listed jobs are distinct, the queue is what is left of them once
   * the first ones were dequeued, and the button stays disabled while a
   * job runs.
   */
  predicate Coherent(w: Window) {
    Distinct(w.listed) && IsSuffix(w.pending, w.listed) && (w.active ==> !w.buttonEnabled)
  }

  predicate Distinct(jobs: seq<PhoneSync>) {
    forall i, j :: 0 <= i < j < |jobs| ==> jobs[i] != jobs[j]
  }

  predicate IsSuffix(tail: seq<PhoneSync>, jobs: seq<PhoneSync>) {
    |tail| <= |jobs| && tail == jobs[|jobs| - |tail|..]
  }

  lemma SuffixTail(tail: seq<PhoneSync>, jobs: seq<PhoneSync>)
    requires IsSuffix(tail, jobs) && tail != []
    ensures IsSuffix(tail[1..], jobs)
  {
    assert tail[1..] == jobs[|jobs| - |tail| + 1..];
  }

  /**
   * The window after one BeginSync on its queue, whose jobs would sync as
   * `rs` (and, when the queue empties, the drain it ends with).
   */
  function AfterBegin(w: Window, rs: seq<Run>, s: Settings, present: bool): Window
    requires |rs| == |w.pending|
  {
    var b := BeginStep(Devices(w.pending), rs, s, present);
    var drains := b.completed && |w.pending| == 1;
    Window(if drains then [] else w.listed,
           if b.dequeued then w.pending[1..] else w.pending,
           b.dequeued && !b.completed,
           w.buttonEnabled || drains,
           w.log + b.events + (if drains then [Drained] else []))
  }

  /** The window after the whole chain of BeginSync calls started on its queue. */
  function AfterChain(w: Window, rs: seq<Run>, s: Settings, present: bool): Window
    requires |rs| == |w.pending| <= |w.listed|
  {
    var c := ChainOver(Devices(w.pending), rs, s, present);
    Window(if c.drained then [] else w.listed,
           w.pending[c.dequeued..],
           c.dequeued > c.completed,
           w.buttonEnabled || c.drained,
           w.log + c.events)
  }

  /** `rs` holds, job by job, the sync each of `jobs` runs with the settings `s` on the source `fs`. */
  predicate Planned(rs: seq<Run>, jobs: seq<PhoneSync>, s: Settings, fs: Source)
    requires Enumerated(fs.files)
  {
    |rs| == |jobs|
    && forall i {:trigger rs[i]} :: 0 <= i < |jobs| ==> rs[i] == SyncRun(jobs[i].device, fs.name, s.target, fs.files)
  }

  lemma PlannedRuns(jobs: seq<PhoneSync>, s: Settings, fs: Source)
    requires Enumerated(fs.files)
    ensures Planned(Runs(Devices(jobs), s, fs), jobs, s, fs)
  {
  }

  lemma PlannedTail(rs: seq<Run>, jobs: seq<PhoneSync>, s: Settings, fs: Source)
    requires Enumerated(fs.files) && Planned(rs, jobs, s, fs) && jobs != []
    ensures Planned(rs[1..], jobs[1..], s, fs)
  {
    forall i | 0 <= i < |jobs| - 1 ensures rs[1..][i] == SyncRun(jobs[1..][i].device, fs.name, s.target, fs.files) {
      assert rs[1..][i] == rs[i + 1];
    }
  }

  /** With the source present, BeginSync dequeues the head job, and the sync runs when the device grants access. */
  lemma HeadStep(jobs: seq<PhoneSync>, rs: seq<Run>, s: Settings, fs: Source)
    requires Enumerated(fs.files) && Planned(rs, jobs, s, fs) && fs.present && jobs != []
    ensures var d := jobs[0].device;
      var r := SyncRun(d, fs.name, s.target, fs.files);
      BeginStep(Devices(jobs), rs, s, fs.present)
        == if d.grantsAccess(s.bundle) then Begin([Dequeued(d.id)] + r.events, true, r.failure.None?)
           else Begin([Dequeued(d.id)], true, false)
  {
    assert rs[0] == SyncRun(jobs[0].device, fs.name, s.target, fs.files);
  }

  /** BeginSync keeps the window coherent. */
  lemma BeginKeepsCoherent(w: Window, rs: seq<Run>, s: Settings, present: bool)
    requires |rs| == |w.pending| && Coherent(w) && !w.buttonEnabled
    ensures Coherent(AfterBegin(w, rs, s, present))
  {
    var b := BeginStep(Devices(w.pending), rs, s, present);
    var w' := AfterBegin(w, rs, s, present);
    if b.dequeued {
      assert w'.pending == w.pending[1..];
      if b.completed && |w.pending| == 1 {
        assert w'.listed == [] && w'.pending == [];
      } else {
        assert w'.listed == w.listed;
        SuffixTail(w.pending, w.listed);
      }
    } else {
      assert w'.pending == w.pending && w'.listed == w.listed;
    }
  }

  /** The chain on a queue is its first BeginSync followed, when that one starts another, by the chain on the rest. */
  lemma ChainOfQueue(jobs: seq<PhoneSync>, rs: seq<Run>, s: Settings, present: bool)
    requires |rs| == |jobs|
    ensures var b := BeginStep(Devices(jobs), rs, s, present);
      var c := ChainOver(Devices(jobs), rs, s, present);
      if !b.completed then c == Chained(b.events, if b.dequeued then 1 else 0, 0, false)
      else if |jobs| == 1 then c == Chained(b.events + [Drained], 1, 1, true)
      else
        var rest := ChainOver(Devices(jobs[1..]), rs[1..], s, present);
        c == Chained(b.events + rest.events, 1 + rest.dequeued, 1 + rest.completed, rest.drained)
  {
    if jobs != [] {
      DevicesTail(jobs);
    }
  }

  /** A BeginSync that starts no other ends the chain: the window it leaves is the chain's. */
  lemma ChainStops(w: Window, rs: seq<Run>, s: Settings, present: bool)
    requires |rs| == |w.pending| <= |w.listed|
    requires !(BeginStep(Devices(w.pending), rs, s, present).completed && |w.pending| > 1)
    ensures AfterBegin(w, rs, s, present) == AfterChain(w, rs, s, present)
  {
    var b := BeginStep(Devices(w.pending), rs, s, present);
    var w' := AfterBegin(w, rs, s, present);
    ChainOfQueue(w.pending, rs, s, present);
    if b.dequeued {
      assert w'.pending == w.pending[1..];
      if b.completed {
        AppendAssoc(w.log, b.events, [Drained]);
      } else {
        assert w'.log == w.log + b.events;
      }
    } else {
      assert w.pending[0..] == w.pending;
      assert w'.log == w.log + b.events;
    }
  }

  /**
   * A BeginSync that starts another leaves the list as it was, the next
   * job not yet running and the button disabled, and the chain's outcome
   * where it was.
   */
  lemma ChainContinues(w: Window, rs: seq<Run>, s: Settings, present: bool)
    requires |rs| == |w.pending| <= |w.listed| && !w.buttonEnabled
    requires BeginStep(Devices(w.pending), rs, s, present).completed && |w.pending| > 1
    ensures var w' := AfterBegin(w, rs, s, present);
      w'.listed == w.listed && w'.pending == w.pending[1..] && !w'.active && !w'.buttonEnabled
      && AfterChain(w', rs[1..], s, present) == AfterChain(w, rs, s, present)
  {
    var b := BeginStep(Devices(w.pending), rs, s, present);
    var w' := AfterBegin(w, rs, s, present);
    ChainOfQueue(w.pending, rs, s, present);
    var rest := ChainOver(Devices(w.pending[1..]), rs[1..], s, present);
    var c := ChainOver(Devices(w.pending), rs, s, present);
    assert w'.pending == w.pending[1..] && w'.log == w.log + b.events;
    assert w.pending[1..][rest.dequeued..] == w.pending[c.dequeued..];
    AppendAssoc(w.log, b.events, rest.events);
  }

  /** A queue just filled with distinct listed jobs, none running and the button off, is coherent. */
  lemma FilledCoherent(jobs: seq<PhoneSync>, log: seq<Event>)
    requires Distinct(jobs)
    ensures Coherent(Window(jobs, jobs, false, false, log))
  {
    assert jobs[0..] == jobs;
  }

  /** The jobs after the head are jobs of the queue. */
  lemma TailMembers(jobs: seq<PhoneSync>)
    requires jobs != []
    ensures forall o :: o in jobs[1..] ==> o in jobs
  {
  }

  /** The main window's sync engine. */
  class SyncController {
    var listed: seq<PhoneSync>      // the jobs shown in the device list
    var pending: seq<PhoneSync>     // the queue of jobs still to sync, head first
    var active: bool                // a dequeued job has not raised SyncCompleted
    var buttonEnabled: bool         // the Sync Devices button can be clicked
    var settings: Settings          // source, target and bundle copied by the last click
    var log: seq<Event>

    function View(): Window
      reads this
    {
      Window(listed, pending, active, buttonEnabled, log)
    }

    predicate Valid()
      reads this
    {
      Coherent(View())
    }

    /** The window once device discovery has listed `jobs`: the button is enabled when some device was found. */
    constructor (jobs: seq<PhoneSync>)
      requires Distinct(jobs)
      ensures Valid()
      ensures View() == Window(jobs, [], false, jobs != [], [])
    {
      listed := jobs;
      pending := [];
      active := false;
      buttonEnabled := jobs != [];
      settings := Settings("", "", "");
      log := [];
    }

    /** Enqueues every listed job, in list order, into a fresh queue. */
    method FillQueue()
      modifies this`pending
      ensures pending == listed
    {
      var queue := [];
      for k := 0 to |listed|
        invariant queue == listed[..k]
      {
        queue := queue + [listed[k]];
      }
      pending := queue;
    }

    /** Takes the head job off the queue and marks it running. */
    method Dequeue() returns (job: PhoneSync)
      requires pending != []
      modifies this`pending, this`active, this`log
      ensures job == old(pending)[0] && pending == old(pending)[1..] && active
      ensures log == old(log) + [Dequeued(job.device.id)]
    {
      job := pending[0];
      pending := pending[1..];
      active := true;
      log := log + [Dequeued(job.device.id)];
    }

    /**
     * Runs the sync of a connected job, logging what it raises and storing
     * each reported percentage in the job's progress.
     */
    method RunJob(job: PhoneSync, fs: Source) returns (completed: bool)
      requires Enumerated(fs.files)
      modifies this`log, job`progress
      ensures var r := SyncRun(job.device, fs.name, settings.target, fs.files);
        log == old(log) + r.events && completed == r.failure.None?
        && job.progress == LastProgress(r.events, old(job.progress))
    {
      var events, failure := job.Sync(fs.name, fs.files, settings.target);
      log := log + events;
      job.progress := LastProgress(events, job.progress);
      completed := failure.None?;
    }

    /** The completion handler's last branch: re-enable the button, clear the list, report the job done. */
    method Drain()
      modifies this`buttonEnabled, this`listed, this`log
      ensures buttonEnabled && listed == [] && log == old(log) + [Drained]
    {
      buttonEnabled := true;
      listed := [];
      log := log + [Drained];
    }

    /**
     * One BeginSync call up to its completion handler's decision: checks the
     * source, dequeues one job, connects it, runs its sync and, on
     * completion, either asks for the next BeginSync (`next`) or drains.
     * `rs` holds the syncs the queued jobs would run.
     */
    method BeginOnce(fs: Source, ghost rs: seq<Run>) returns (next: bool)
      requires Valid() && Enumerated(fs.files) && !active && !buttonEnabled && Planned(rs, pending, settings, fs)
      modifies this, if fs.present then Head(pending) else {}
      ensures Valid()
      ensures View() == AfterBegin(old(View()), rs, settings, fs.present) && settings == old(settings)
      ensures var b := BeginStep(Devices(old(pending)), rs, settings, fs.present);
        (next <==> b.completed && |old(pending)| > 1)
        && (b.dequeued ==> old(pending)[0].progress == LastProgress(b.events, old(pending[0].progress)))
        && (b.completed ==> old(pending)[0].progress == 100)
    {
      BeginKeepsCoherent(View(), rs, settings, fs.present);
      next := false;
      if !fs.present {
        log := log + [SourceMissing(settings.source)];
      } else if pending != [] {
        HeadStep(pending, rs, settings, fs);
        ghost var prior := pending[0].progress;
        ghost var r := SyncRun(pending[0].device, fs.name, settings.target, fs.files);
        LastProgressAfterDequeue(pending[0].device.id, r.events, prior);
        if r.failure.None? {
          CompletedSyncLeavesProgressAt100(pending[0].device, fs.name, settings.target, fs.files, prior);
        }
        next := Work(fs);
      }
    }

    /** The worker's body: dequeue, connect for the bundle, sync, and the completion handler. */
    method Work(fs: Source) returns (next: bool)
      requires Valid() && Enumerated(fs.files) && !active && !buttonEnabled && pending != []
      modifies this, pending[0]
      ensures settings == old(settings)
      ensures var job := old(pending)[0];
        var r := SyncRun(job.device, fs.name, settings.target, fs.files);
        var grants := job.device.grantsAccess(settings.bundle);
        var done := grants && r.failure.None?;
        var drains := done && |old(pending)| == 1;
        View() == Window(if drains then [] else old(listed), old(pending)[1..], !done, drains,
                         old(log) + (if grants then [Dequeued(job.device.id)] + r.events else [Dequeued(job.device.id)])
                           + (if drains then [Drained] else []))
        && next == (done && |old(pending)| > 1)
        && job.progress == (if grants then LastProgress(r.events, old(job.progress)) else old(job.progress))
    {
      ghost var before := log;
      ghost var queue := pending;
      next := false;
      var job := Dequeue();
      ghost var id := job.device.id;
      if job.device.grantsAccess(settings.bundle) {
        ghost var r := SyncRun(job.device, fs.name, settings.target, fs.files);
        var completed := RunJob(job, fs);
        AppendAssoc(before, [Dequeued(id)], r.events);
        if completed {
          next := Complete();
          if next {
            assert View() == Window(old(listed), queue[1..], false, false, before + ([Dequeued(id)] + r.events));
          } else {
            assert View() == Window([], queue[1..], false, true, before + ([Dequeued(id)] + r.events) + [Drained]);
          }
        } else {
          assert View() == Window(old(listed), queue[1..], true, false, before + ([Dequeued(id)] + r.events));
        }
      } else {
        assert View() == Window(old(listed), queue[1..], true, false, before + [Dequeued(id)]);
      }
    }

    /** The SyncCompleted handler: start the next job while the queue is non-empty, otherwise drain. */
    method Complete() returns (next: bool)
      requires active
      modifies this`active, this`buttonEnabled, this`listed, this`log
      ensures !active && next == (pending != [])
      ensures next ==> buttonEnabled == old(buttonEnabled) && listed == old(listed) && log == old(log)
      ensures !next ==> buttonEnabled && listed == [] && log == old(log) + [Drained]
    {
      active := false;
      next := |pending| > 0;
      if !next {
        Drain();
      }
    }

    /**
     * BeginSync together with the calls its completion handlers make: each
     * job that raises SyncCompleted while the queue is non-empty starts the
     * next one, so the window ends as the chain over its queue leaves it.
     */
    method BeginSync(fs: Source, ghost rs: seq<Run>)
      requires Valid() && Enumerated(fs.files) && !active && !buttonEnabled && Planned(rs, pending, settings, fs)
      modifies this, pending
      ensures Valid() && settings == old(settings)
      ensures View() == AfterChain(old(View()), rs, settings, fs.present)
      decreases |pending|
    {
      ghost var w := View();
      var next := BeginOnce(fs, rs);
      if next {
        ChainContinues(w, rs, settings, fs.present);
        PlannedTail(rs, w.pending, settings, fs);
        TailMembers(w.pending);
        BeginSync(fs, rs[1..]);
      } else {
        ChainStops(w, rs, settings, fs.present);
      }
    }

    /**
     * SyncDevices_Click: disables the button, enqueues the listed jobs in
     * list order, copies the settings and calls BeginSync.
     */
    method SyncDevicesClick(s: Settings, fs: Source)
      requires Valid() && buttonEnabled && Enumerated(fs.files)
      modifies this, listed
      ensures Valid() && settings == s
      ensures View() == AfterChain(Window(old(listed), old(listed), false, false, old(log)), Runs(Devices(old(listed)), s, fs), s, fs.present)
    {
      Prepare(s, fs);
      BeginSync(fs, Runs(Devices(pending), s, fs));
    }

    /** The click up to its BeginSync call: the button goes off, the queue holds the listed jobs, the settings are copied. */
    method Prepare(s: Settings, fs: Source)
      requires Valid() && buttonEnabled && Enumerated(fs.files)
      modifies this
      ensures Valid() && settings == s && !active && !buttonEnabled
      ensures View() == Window(old(listed), old(listed), false, false, old(log))
      ensures Planned(Runs(Devices(listed), s, fs), pending, s, fs)
    {
      ghost var jobs := listed;
      buttonEnabled := false;
      FillQueue();
      settings := s;
      PlannedRuns(pending, s, fs);
      assert View() == Window(jobs, jobs, false, false, old(log));
      FilledCoherent(jobs, log);
    }
  }
}
