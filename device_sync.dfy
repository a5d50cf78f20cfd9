/**
 * iPhoneSync.Sync: the per-device loop that mirrors the enumerated source
 * files onto the device and reports progress, followed by the final
 * progress event of 100 and the completion event.
 */
module DeviceSync {
  import opened Results
  import opened Paths
  import opened Events

  /**
   * The device as the sync engine sees it. The transport is foreign code, so
   * its answers are oracles: whether the app-sandbox connection for a bundle
   * identifier is granted, and whether a folder creation request succeeds.
   * The result of CopyFile is never inspected, so it has no oracle.
   */
  datatype Device = Device(id: nat, grantsAccess: string -> bool, createsFolder: string -> bool)

  /** Enumerated files are full paths, so each has a directory part. */
  predicate Enumerated(files: seq<string>) {
    forall i :: 0 <= i < |files| ==> HasDirectory(files[i])
  }

  /**
   * The percentage iPhoneSync.Sync reports before copying file `i` of
   * `count`: the floor of i * 100 / count, taken exactly here, where Sync
   * divides and truncates in double precision.
   */
  function Percent(i: nat, count: nat): (p: nat)
    requires i < count
    ensures p < 100
  {
    assert i * 100 < count * 100;
    DivBelow(i * 100, count, 100);
    i * 100 / count
  }

  lemma DivBelow(a: nat, c: nat, b: nat)
    requires 0 < c && a < c * b
    ensures a / c < b
  {
  }

  lemma DivMonotone(a: nat, b: nat, c: nat)
    requires a <= b && 0 < c
    ensures a / c <= b / c
  {
    var qa, qb := a / c, b / c;
    assert c * qa <= a && b < c * qb + c;
    MulCancel(c, qa, qb + 1);
  }

  lemma MulCancel(c: nat, x: nat, y: nat)
    requires 0 < c && c * x < c * y
    ensures x < y
  {
    if x >= y {
      MulMonotone(c, y, x);
    }
  }

  lemma MulMonotone(c: nat, x: nat, y: nat)
    requires x <= y
    ensures c * x <= c * y
  {
  }

  /** Progress never goes down as the loop advances. */
  lemma PercentMonotone(i: nat, j: nat, count: nat)
    requires i <= j < count
    ensures Percent(i, count) <= Percent(j, count)
  {
    DivMonotone(i * 100, j * 100, count);
  }

  /** Where a sync stopped because Substring threw for file `index`. */
  datatype SyncFailure = SyncFailure(index: nat, error: MapError)

  /** The events a run produced and, when it threw, where. */
  datatype Run = Run(events: seq<Event>, failure: Option<SyncFailure>)

  /** Where one local file goes on the device. */
  datatype Placement = Placement(folder: string, remote: string)

  /** The remote folder and remote file of `file` (lines 158 and 164), or the Substring failure. */
  function Place(target: string, root: string, file: string): (r: Result<Placement, MapError>)
    requires HasDirectory(file)
  {
    match RemoteFolder(target, root, file)
    case Err(e) => Err(e)
    case Ok(folder) => Ok(Placement(folder, RemoteFile(folder, file)))
  }

  /** The placement of every enumerated file, in enumeration order. */
  function Placements(target: string, root: string, files: seq<string>): (ps: seq<Result<Placement, MapError>>)
    requires Enumerated(files)
    ensures |ps| == |files|
    ensures forall i :: 0 <= i < |files| ==> ps[i] == Place(target, root, files[i])
  {
    seq(|files|, i requires 0 <= i < |files| && Enumerated(files) => Place(target, root, files[i]))
  }

  /**
   * A file gets a placement exactly when its remote folder can be computed.
   * Then the folder is that remote folder, neither path holds a backslash,
   * and the remote file lies below the folder and ends with the file's name.
   */
  lemma PlacementsMap(target: string, root: string, files: seq<string>)
    requires Enumerated(files)
    ensures var ps := Placements(target, root, files);
      forall i :: 0 <= i < |files| ==>
        (ps[i].Ok? <==> RemoteFolder(target, root, files[i]).Ok?)
        && (ps[i].Ok? ==>
              ps[i].value.folder == RemoteFolder(target, root, files[i]).value
              && '\\' !in ps[i].value.folder && '\\' !in ps[i].value.remote
              && HasPrefix(ps[i].value.remote, ps[i].value.folder)
              && HasSuffix(ps[i].value.remote, FileName(files[i])))
  {
    var ps := Placements(target, root, files);
    forall i | 0 <= i < |files| && ps[i].Ok?
      ensures '\\' !in ps[i].value.remote && HasPrefix(ps[i].value.remote, ps[i].value.folder)
        && HasSuffix(ps[i].value.remote, FileName(files[i]))
    {
      RemoteFileEndsWithName(ps[i].value.folder, files[i]);
      RemoteFileBelowFolder(ps[i].value.folder, files[i]);
    }
  }

  /**
   * Loop body for file `i` of `count` placed at `p`: request its folder
   * (with a warning when the device refuses), announce it with the
   * pre-copy percentage, copy it.
   */
  function FileBlock(d: Device, p: Placement, file: string, i: nat, count: nat): seq<Event>
    requires i < count
  {
    var requested := [CreateDirectory(p.folder)];
    var checked := if d.createsFolder(p.folder) then requested else requested + [CreateDirectoryFailed(p.folder)];
    checked + [Progress(Percent(i, count), Some(p.remote))] + [CopyFile(file, p.remote)]
  }

  /** The first `k` iterations of the loop over `files`, whose placements are `ps`. */
  function Steps(d: Device, ps: seq<Result<Placement, MapError>>, files: seq<string>, k: nat): Run
    requires k <= |files| == |ps|
    decreases k
  {
    if k == 0 then Run([], None)
    else
      var prev := Steps(d, ps, files, k - 1);
      if prev.failure.Some? then prev
      else match ps[k - 1]
        case Err(e) => Run(prev.events, Some(SyncFailure(k - 1, e)))
        case Ok(p) => Run(prev.events + FileBlock(d, p, files[k - 1], k - 1, |files|), None)
  }

  /** The loop ended normally: Progress(100) with no current file, then SyncCompleted. */
  function Finish(r: Run): Run {
    if r.failure.Some? then r
    else Run(r.events + [Progress(100, None), SyncCompleted], None)
  }

  /** A whole sync of `files` from the source directory named `root` into `target`. */
  function SyncRun(d: Device, root: string, target: string, files: seq<string>): Run
    requires Enumerated(files)
  {
    Finish(Steps(d, Placements(target, root, files), files, |files|))
  }

  /** Once a file has thrown, later iterations never run. */
  lemma {:induction false} StepsStayFailed(d: Device, ps: seq<Result<Placement, MapError>>, files: seq<string>, k: nat, m: nat)
    requires k <= m <= |files| == |ps|
    requires Steps(d, ps, files, k).failure.Some?
    ensures Steps(d, ps, files, m) == Steps(d, ps, files, k)
    decreases m
  {
    if m > k {
      StepsStayFailed(d, ps, files, k, m - 1);
    }
  }

  /** How many files the loop got through: all of them, or up to the one that threw. */
  function Reached(r: Run, k: nat): nat {
    if r.failure.Some? then r.failure.value.index else k
  }

  lemma FileBlockFacts(d: Device, p: Placement, file: string, i: nat, count: nat)
    requires i < count
    ensures CopiedFiles(FileBlock(d, p, file, i, count)) == [file]
    ensures ProgressValues(FileBlock(d, p, file, i, count)) == [Percent(i, count)]
    ensures Count(FileBlock(d, p, file, i, count), SyncCompleted) == 0
  {
    var requested := [CreateDirectory(p.folder)];
    var checked := if d.createsFolder(p.folder) then requested else requested + [CreateDirectoryFailed(p.folder)];
    var announce := [Progress(Percent(i, count), Some(p.remote))];
    var copy := [CopyFile(file, p.remote)];
    assert requested[1..] == [] && announce[1..] == [] && copy[1..] == [];
    if !d.createsFolder(p.folder) {
      var warned := [CreateDirectoryFailed(p.folder)];
      assert warned[1..] == [];
      CopiedFilesConcat(requested, warned);
      ProgressValuesConcat(requested, warned);
      CountConcat(requested, warned, SyncCompleted);
    }
    assert CopiedFiles(checked) == [] && ProgressValues(checked) == [] && Count(checked, SyncCompleted) == 0;
    CopiedFilesConcat(checked, announce);
    ProgressValuesConcat(checked, announce);
    CountConcat(checked, announce, SyncCompleted);
    CopiedFilesConcat(checked + announce, copy);
    ProgressValuesConcat(checked + announce, copy);
    CountConcat(checked + announce, copy, SyncCompleted);
  }

  /** The loop stops exactly at the first file whose placement throws. */
  lemma {:induction false} StepsFailure(d: Device, ps: seq<Result<Placement, MapError>>, files: seq<string>, k: nat)
    requires k <= |files| == |ps|
    ensures Steps(d, ps, files, k).failure.None? <==> forall j :: 0 <= j < k ==> ps[j].Ok?
    ensures var r := Steps(d, ps, files, k);
      r.failure.Some? ==>
        r.failure.value.index < k && ps[r.failure.value.index] == Err(r.failure.value.error)
        && forall j :: 0 <= j < r.failure.value.index ==> ps[j].Ok?
    decreases k
  {
    if k > 0 {
      StepsFailure(d, ps, files, k - 1);
    }
  }

  /** The loop hands every file it reaches to CopyFile, in list order, and completes nothing. */
  lemma {:induction false} StepsCopies(d: Device, ps: seq<Result<Placement, MapError>>, files: seq<string>, k: nat)
    requires k <= |files| == |ps|
    ensures var r := Steps(d, ps, files, k);
      Reached(r, k) <= k && CopiedFiles(r.events) == files[..Reached(r, k)]
      && Count(r.events, SyncCompleted) == 0
    decreases k
  {
    if k > 0 {
      StepsCopies(d, ps, files, k - 1);
      var prev := Steps(d, ps, files, k - 1);
      if prev.failure.None? && ps[k - 1].Ok? {
        FileBlockFacts(d, ps[k - 1].value, files[k - 1], k - 1, |files|);
        CopiesExtend(prev.events, FileBlock(d, ps[k - 1].value, files[k - 1], k - 1, |files|), files, k - 1);
      }
    }
  }

  /** Appending the block of file `m` to a trace that copied `files[..m]` copies `files[..m + 1]`. */
  lemma CopiesExtend(prev: seq<Event>, block: seq<Event>, files: seq<string>, m: nat)
    requires m < |files|
    requires CopiedFiles(prev) == files[..m] && Count(prev, SyncCompleted) == 0
    requires CopiedFiles(block) == [files[m]] && Count(block, SyncCompleted) == 0
    ensures CopiedFiles(prev + block) == files[..m + 1] && Count(prev + block, SyncCompleted) == 0
  {
    CopiedFilesConcat(prev, block);
    CountConcat(prev, block, SyncCompleted);
    assert files[..m + 1] == files[..m] + [files[m]];
  }

  /** The first `m` progress values are the pre-copy percentages of files 0 .. m - 1 of `n`. */
  predicate PercentsUpTo(pv: seq<int>, m: nat, n: nat) {
    m <= n && |pv| == m && forall j :: 0 <= j < m ==> pv[j] == Percent(j, n)
  }

  /** Before copying file `j` the loop reports floor(j * 100 / count). */
  lemma {:induction false} StepsProgress(d: Device, ps: seq<Result<Placement, MapError>>, files: seq<string>, k: nat)
    requires k <= |files| == |ps|
    ensures var r := Steps(d, ps, files, k);
      Reached(r, k) <= k && PercentsUpTo(ProgressValues(r.events), Reached(r, k), |files|)
    decreases k
  {
    if k > 0 {
      StepsProgress(d, ps, files, k - 1);
      var prev := Steps(d, ps, files, k - 1);
      if prev.failure.None? && ps[k - 1].Ok? {
        FileBlockFacts(d, ps[k - 1].value, files[k - 1], k - 1, |files|);
        PercentsExtend(prev.events, FileBlock(d, ps[k - 1].value, files[k - 1], k - 1, |files|), k - 1, |files|);
      }
    }
  }

  /** Appending the block of file `m` extends the percentages by Percent(m, n). */
  lemma PercentsExtend(prev: seq<Event>, block: seq<Event>, m: nat, n: nat)
    requires m < n
    requires PercentsUpTo(ProgressValues(prev), m, n)
    requires ProgressValues(block) == [Percent(m, n)]
    ensures PercentsUpTo(ProgressValues(prev + block), m + 1, n)
  {
    ProgressValuesConcat(prev, block);
  }

  /** Everything a file's block raises comes from the sync itself. */
  lemma FileBlockRaisesSyncEvents(d: Device, p: Placement, file: string, i: nat, count: nat)
    requires i < count
    ensures AllSyncEvents(FileBlock(d, p, file, i, count))
  {
  }

  lemma {:induction false} StepsRaiseSyncEvents(d: Device, ps: seq<Result<Placement, MapError>>, files: seq<string>, k: nat)
    requires k <= |files| == |ps|
    ensures AllSyncEvents(Steps(d, ps, files, k).events)
    decreases k
  {
    if k > 0 {
      StepsRaiseSyncEvents(d, ps, files, k - 1);
      var prev := Steps(d, ps, files, k - 1);
      if prev.failure.None? && ps[k - 1].Ok? {
        FileBlockRaisesSyncEvents(d, ps[k - 1].value, files[k - 1], k - 1, |files|);
        AllSyncEventsConcat(prev.events, FileBlock(d, ps[k - 1].value, files[k - 1], k - 1, |files|));
      }
    }
  }

  /** A device sync logs no SourceMissing, Dequeued or Drained entry: those belong to the window and its queue. */
  lemma SyncRunRaisesSyncEvents(d: Device, root: string, target: string, files: seq<string>)
    requires Enumerated(files)
    ensures AllSyncEvents(SyncRun(d, root, target, files).events)
  {
    var r := Steps(d, Placements(target, root, files), files, |files|);
    StepsRaiseSyncEvents(d, Placements(target, root, files), files, |files|);
    if r.failure.None? {
      AllSyncEventsConcat(r.events, [Progress(100, None), SyncCompleted]);
    }
  }

  /**
   * A sync completes exactly when every file's remote folder can be
   * computed; otherwise it stops at the first file for which Substring throws.
   */
  lemma SyncStopsAtFirstThrow(d: Device, root: string, target: string, files: seq<string>)
    requires Enumerated(files)
    ensures SyncRun(d, root, target, files).failure.None?
        <==> forall j :: 0 <= j < |files| ==> RemoteFolder(target, root, files[j]).Ok?
    ensures var f := SyncRun(d, root, target, files).failure;
      f.Some? ==>
        f.value.index < |files|
        && RemoteFolder(target, root, files[f.value.index]) == Err(f.value.error)
        && forall j :: 0 <= j < f.value.index ==> RemoteFolder(target, root, files[j]).Ok?
  {
    var ps := Placements(target, root, files);
    StepsFailure(d, ps, files, |files|);
    forall j | 0 <= j < |files| ensures ps[j].Ok? <==> RemoteFolder(target, root, files[j]).Ok? {
    }
  }

  /**
   * A completed sync of F files reports F + 1 progress values, floor(j * 100 / F)
   * before file j and finally 100 with no current file, then completes once;
   * it copies every file in list order. With no files the trace is only
   * Progress(100) and SyncCompleted.
   */
  lemma SyncCompletes(d: Device, root: string, target: string, files: seq<string>)
    requires Enumerated(files)
    requires SyncRun(d, root, target, files).failure.None?
    ensures var es := SyncRun(d, root, target, files).events;
      |ProgressValues(es)| == |files| + 1
      && (forall j :: 0 <= j < |files| ==> ProgressValues(es)[j] == Percent(j, |files|))
      && ProgressValues(es)[|files|] == 100
      && |es| >= 2 && es[|es| - 2..] == [Progress(100, None), SyncCompleted]
      && Count(es, SyncCompleted) == 1
      && CopiedFiles(es) == files
      && (files == [] ==> es == [Progress(100, None), SyncCompleted])
  {
    var ps := Placements(target, root, files);
    var r := Steps(d, ps, files, |files|);
    StepsCopies(d, ps, files, |files|);
    StepsProgress(d, ps, files, |files|);
    var tail := [Progress(100, None), SyncCompleted];
    assert tail[1..] == [SyncCompleted];
    ProgressValuesConcat(r.events, tail);
    CopiedFilesConcat(r.events, tail);
    CountConcat(r.events, tail, SyncCompleted);
    assert files[..|files|] == files;
  }

  /** A sync that throws copies only the files before the failing one and never completes. */
  lemma SyncThrows(d: Device, root: string, target: string, files: seq<string>)
    requires Enumerated(files)
    requires SyncRun(d, root, target, files).failure.Some?
    ensures var r := SyncRun(d, root, target, files);
      r.failure.value.index < |files|
      && CopiedFiles(r.events) == files[..r.failure.value.index]
      && |ProgressValues(r.events)| == r.failure.value.index
      && Count(r.events, SyncCompleted) == 0
  {
    var ps := Placements(target, root, files);
    StepsFailure(d, ps, files, |files|);
    StepsCopies(d, ps, files, |files|);
    StepsProgress(d, ps, files, |files|);
  }

  /** Every value lies in [0, 100] and no value is smaller than one before it. */
  predicate ProgressSeries(pv: seq<int>) {
    (forall a :: 0 <= a < |pv| ==> 0 <= pv[a] <= 100)
    && forall a, b :: 0 <= a <= b < |pv| ==> pv[a] <= pv[b]
  }

  /** Every reported progress value lies in [0, 100] and they never decrease. */
  lemma ProgressNeverDecreases(d: Device, root: string, target: string, files: seq<string>)
    requires Enumerated(files)
    ensures ProgressSeries(ProgressValues(SyncRun(d, root, target, files).events))
  {
    if SyncRun(d, root, target, files).failure.None? {
      CompletedProgress(d, root, target, files);
    } else {
      ThrownProgress(d, root, target, files);
    }
  }

  lemma CompletedProgress(d: Device, root: string, target: string, files: seq<string>)
    requires Enumerated(files)
    requires SyncRun(d, root, target, files).failure.None?
    ensures ProgressSeries(ProgressValues(SyncRun(d, root, target, files).events))
  {
    SyncCompletes(d, root, target, files);
    PercentSeriesMonotone(ProgressValues(SyncRun(d, root, target, files).events), |files|, |files|);
  }

  lemma ThrownProgress(d: Device, root: string, target: string, files: seq<string>)
    requires Enumerated(files)
    requires SyncRun(d, root, target, files).failure.Some?
    ensures ProgressSeries(ProgressValues(SyncRun(d, root, target, files).events))
  {
    var r := SyncRun(d, root, target, files);
    SyncThrows(d, root, target, files);
    StepsProgress(d, Placements(target, root, files), files, |files|);
    PercentSeriesMonotone(ProgressValues(r.events), r.failure.value.index, |files|);
  }

  /** The percentages of the first `reached` files, possibly followed by the final 100. */
  lemma PercentSeriesMonotone(pv: seq<int>, reached: nat, n: nat)
    requires reached <= n
    requires |pv| == reached || (reached == n && |pv| == n + 1 && pv[n] == 100)
    requires forall j :: 0 <= j < reached ==> pv[j] == Percent(j, n)
    ensures ProgressSeries(pv)
  {
    forall a | 0 <= a < |pv| ensures 0 <= pv[a] <= 100 {
      if a < reached {
        assert pv[a] == Percent(a, n);
      }
    }
    forall a, b | 0 <= a <= b < |pv| ensures pv[a] <= pv[b] {
      if b < reached {
        PercentMonotone(a, b, n);
      } else if a < reached {
        assert pv[a] == Percent(a, n);
      }
    }
  }

  /**
   * The device's answers to CreateDirectory do not change how far the sync
   * gets, what it copies or what progress it reports: a refused folder is
   * only a warning.
   */
  lemma FolderRefusalDoesNotStopSync(d1: Device, d2: Device, root: string, target: string, files: seq<string>)
    requires Enumerated(files)
    ensures SyncRun(d1, root, target, files).failure == SyncRun(d2, root, target, files).failure
    ensures CopiedFiles(SyncRun(d1, root, target, files).events) == CopiedFiles(SyncRun(d2, root, target, files).events)
    ensures ProgressValues(SyncRun(d1, root, target, files).events) == ProgressValues(SyncRun(d2, root, target, files).events)
  {
    var ps := Placements(target, root, files);
    StepsIgnoreFolderAnswers(d1, d2, ps, files, |files|);
    var r1, r2 := Steps(d1, ps, files, |files|), Steps(d2, ps, files, |files|);
    var tail := [Progress(100, None), SyncCompleted];
    CopiedFilesConcat(r1.events, tail);
    CopiedFilesConcat(r2.events, tail);
    ProgressValuesConcat(r1.events, tail);
    ProgressValuesConcat(r2.events, tail);
  }

  lemma {:induction false} StepsIgnoreFolderAnswers(d1: Device, d2: Device, ps: seq<Result<Placement, MapError>>, files: seq<string>, k: nat)
    requires k <= |files| == |ps|
    ensures Steps(d1, ps, files, k).failure == Steps(d2, ps, files, k).failure
    ensures CopiedFiles(Steps(d1, ps, files, k).events) == CopiedFiles(Steps(d2, ps, files, k).events)
    ensures ProgressValues(Steps(d1, ps, files, k).events) == ProgressValues(Steps(d2, ps, files, k).events)
    decreases k
  {
    if k > 0 {
      StepsIgnoreFolderAnswers(d1, d2, ps, files, k - 1);
      var prev1, prev2 := Steps(d1, ps, files, k - 1), Steps(d2, ps, files, k - 1);
      if prev1.failure.None? && ps[k - 1].Ok? {
        var p := ps[k - 1].value;
        var b1 := FileBlock(d1, p, files[k - 1], k - 1, |files|);
        var b2 := FileBlock(d2, p, files[k - 1], k - 1, |files|);
        FileBlockFacts(d1, p, files[k - 1], k - 1, |files|);
        FileBlockFacts(d2, p, files[k - 1], k - 1, |files|);
        CopiedFilesConcat(prev1.events, b1);
        CopiedFilesConcat(prev2.events, b2);
        ProgressValuesConcat(prev1.events, b1);
        ProgressValuesConcat(prev2.events, b2);
      }
    }
  }

  /** A completed sync leaves the job's Progress property at 100. */
  lemma CompletedSyncLeavesProgressAt100(d: Device, root: string, target: string, files: seq<string>, prior: int)
    requires Enumerated(files)
    requires SyncRun(d, root, target, files).failure.None?
    ensures LastProgress(SyncRun(d, root, target, files).events, prior) == 100
  {
    SyncCompletes(d, root, target, files);
  }

  /** One synchronisation job: a device handle and its Progress property. */
  class PhoneSync {
    const device: Device
    var progress: int

    constructor (device: Device)
      ensures this.device == device && progress == 0
    {
      this.device := device;
      progress := 0;
    }

    /** iPhoneSync.Sync over the enumerated `files` of the source directory named `root`. */
    method Sync(root: string, files: seq<string>, target: string) returns (events: seq<Event>, failure: Option<SyncFailure>)
      requires Enumerated(files)
      ensures Run(events, failure) == SyncRun(device, root, target, files)
    {
      ghost var ps := Placements(target, root, files);
      events, failure := [], None;
      var i := 0;
      while i < |files|
        invariant 0 <= i <= |files|
        invariant Steps(device, ps, files, i) == Run(events, None)
      {
        var block, error := SyncFile(root, target, files[i], i, |files|);
        if error.Some? {
          failure := Some(SyncFailure(i, error.value));
          StepsStayFailed(device, ps, files, i + 1, |files|);
          return;
        }
        events := events + block;
        i := i + 1;
      }
      events := events + [Progress(100, None)];
      events := events + [SyncCompleted];
    }

    /**
     * The body of the loop for `file`, number `i` of `count`: the events it
     * emits, or the exception Substring throws for it.
     */
    method SyncFile(root: string, target: string, file: string, i: nat, count: nat)
      returns (events: seq<Event>, error: Option<MapError>)
      requires i < count && HasDirectory(file)
      ensures Place(target, root, file).Err? ==> events == [] && error == Some(Place(target, root, file).error)
      ensures Place(target, root, file).Ok? ==> error == None && events == FileBlock(device, Place(target, root, file).value, file, i, count)
    {
      var folder := RemoteFolder(target, root, file);
      if folder.Err? {
        return [], Some(folder.error);
      }
      events, error := [CreateDirectory(folder.value)], None;
      if !device.createsFolder(folder.value) {
        events := events + [CreateDirectoryFailed(folder.value)];
      }
      var remote := RemoteFile(folder.value, file);
      events := events + [Progress(Percent(i, count), Some(remote))];
      events := events + [CopyFile(file, remote)];
      assert Place(target, root, file) == Ok(Placement(folder.value, remote));
    }
  }
}
