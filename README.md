# MultiSync sync engine

MultiSync mirrors a local source directory onto every connected iPhone. It
copies the files into the sandboxed storage of one application, identified
by its bundle identifier, and reports progress per device. This project
models the engine behind the window's "Sync Devices" button and proves
properties of the model. The engine has three parts:

- **the device sync** (`iPhoneSync.Sync`). This is a loop over the
  enumerated source files. For each file it maps the file to a remote folder
  and a remote file, asks the device to create the folder (a refusal is only
  a warning), reports the pre-copy percentage and copies the file. After the
  loop it reports 100 and raises `SyncCompleted` once.
- **the remote path mapping**. It finds the first occurrence of the source
  directory's name in the file path. It takes the directory name after that
  occurrence and one separator, joins it onto the target directory with
  `Path.Combine`, and turns every `\` into `/`. It then joins the file name
  on and normalises again. When the file sits directly in the source
  directory the start index lies past the directory name and `Substring`
  throws. The model gives that case an explicit error value (`MapError`).
- **the job queue**. A click disables the button, enqueues every listed
  device in list order, copies the settings and calls `BeginSync`.
  `BeginSync` shows a message and stops when the source directory is
  missing. Otherwise it dequeues one job, connects it to the application's
  sandbox and runs its sync. The job's `SyncCompleted` handler calls
  `BeginSync` again while the queue is non-empty. When the queue is empty it
  re-enables the button, clears the device list and reports "Completed Sync
  Job.". The worker's progress handler stores every reported percentage in
  the job's `Progress` property.

Modules:

- `Results`: `Option` and `Result`.
- `Paths`: the mapping as pure functions on strings. It includes models of
  `String.IndexOf`, `FileInfo.DirectoryName`, `Path.GetFileName`,
  `Path.Combine` and `String.Replace`.
- `Events`: the observable trace and its projections (copied files,
  progress values, dequeued devices, the stored progress).
- `DeviceSync`: the class `PhoneSync`, standing for the source's
  `iPhoneSync`. Its `Sync` method has the source's loop and is proved to
  produce the run the function `SyncRun` specifies.
- `SyncQueue`: the class `SyncController`, holding the window's list, queue,
  button and trace.
  - `BeginSync` calls itself from the completion branch, as the source's
    completion handler does.
  - `BeginSync` is proved to leave the window as the chain specification
    `ChainOver` says.
  - The lemmas about `ChainOver` state what a click does as a whole.

The device is a value carrying oracles:
- whether the connection for a bundle identifier is granted
  (`ConnectViaHouseArrest` throws otherwise);
- whether a folder creation succeeds.

The file system is an input. During one click the source directory either
exists or not, and has a fixed name and file sequence. An exception inside
the background worker ends that worker silently. In the model, the job stays
running, nothing more is logged and the queue halts.

`Path.Combine` is modelled as the .NET Framework behaves, minus its
invalid-character checks:
- an empty part yields the other one;
- a rooted second part replaces the first;
- otherwise `\` is inserted unless the first part already ends in `\`, `/`
  or `:`.

## Model

| member | source | states |
|---|---|---|
| Paths.IndexOf | MultiSync/MainWindow.xaml.cs:158 | `file.IndexOf(root)`: -1 exactly when `root` occurs nowhere in the path. Otherwise it is the first index where it occurs. |
| Paths.IndexOfIs | MultiSync/MainWindow.xaml.cs:158 | An occurrence with none before it is the index `IndexOf` returns. |
| Paths.DirectoryName | MultiSync/MainWindow.xaml.cs:158 | The directory name is a proper prefix of the path. The path has a separator right after it and none later. |
| Paths.FileName | MultiSync/MainWindow.xaml.cs:164 | `Path.GetFileName` is a suffix of the path containing no `\`, `/` or `:`. A shorter name is preceded by one of those. |
| Paths.Combine | MultiSync/MainWindow.xaml.cs:158 | `Path.Combine(a, b)` ends with `b` and adds at most one character. A rooted `b` is the result. Otherwise the result is `a + b` or `a\b`, and it is `a\b` exactly when both parts are non-empty and `a` does not end in `\`, `/` or `:`. |
| Paths.ToDeviceSeparators | MultiSync/MainWindow.xaml.cs:158 | `Replace(@"\", "/")` keeps the length and leaves no backslash. Each `\` becomes `/` and every other character stays. |
| Paths.RemoteFolder | MultiSync/MainWindow.xaml.cs:158 | The remote folder exists exactly when the start index `IndexOf(root)` plus the length of `root` plus one is at most the directory name's length. Otherwise it is the `Substring` failure with that index and length. A remote folder has no backslash. |
| Paths.RemoteFile | MultiSync/MainWindow.xaml.cs:164 | Definition of the remote file: the file name joined onto the remote folder, normalised. Its properties are `RemoteFileEndsWithName`, `RemoteFileBelowFolder` and `RemoteFileJoins`. |
| Paths.RemoteFileEndsWithName | MultiSync/MainWindow.xaml.cs:164 | The remote file has no backslash and ends with the local file's name. |
| Paths.RemoteFileBelowFolder | MultiSync/MainWindow.xaml.cs:164 | The remote file starts with its remote folder. |
| Paths.RemoteFileJoins | MultiSync/MainWindow.xaml.cs:164 | Below a non-empty folder not ending in a separator or `:`, the remote file is the normalised folder, `/` and the file name. |
| Paths.MirrorsRelativeDirectory | MultiSync/MainWindow.xaml.cs:158-164 | Take a file `prefix\root\rel\name` whose first occurrence of `root` follows `prefix`. Its remote folder is `target/rel` and its remote file is `target/rel/name`, with forward slashes. |
| Paths.MapsExampleFile | MultiSync/MainWindow.xaml.cs:158-164 | `C:\a\root\sub\file.txt` with source directory `root` and target `/Dest` maps to folder `/Dest/sub` and file `/Dest/sub/file.txt`. |
| Paths.RemoteFolderAt | MultiSync/MainWindow.xaml.cs:158 | For a file `dir\name` whose first occurrence of `root` is at `k`, the remote folder is the part of `dir` after that occurrence and one separator, joined onto the target and normalised. |
| Paths.EarlierMatchMisplaces | MultiSync/MainWindow.xaml.cs:158 | The first occurrence can lie inside an earlier folder name: `C:\myroot\root\f.txt`, directly in the source directory `root`, maps to `/Dest/root` instead of throwing. |
| Paths.EarlierMatchDropsTarget | MultiSync/MainWindow.xaml.cs:158 | A match inside `root2` leaves the rooted relative part `\root\sub`, which replaces the target: `C:\root2\root\sub\f.txt` maps to `/root/sub`. |
| Paths.FileInRootFails | MultiSync/MainWindow.xaml.cs:158 | A file directly inside the source directory makes `Substring` throw. The start index is one past the directory name's length. |
| DeviceSync.Percent | MultiSync/MainWindow.xaml.cs:165 | The percentage reported before file `i` of `count` lies in [0, 100). |
| DeviceSync.PercentMonotone | MultiSync/MainWindow.xaml.cs:165 | The pre-copy percentage never decreases as `i` grows. |
| DeviceSync.Placements | MultiSync/MainWindow.xaml.cs:155-164 | Definition: the placement of each enumerated file, in enumeration order. Its properties are `PlacementsMap`. |
| DeviceSync.PlacementsMap | MultiSync/MainWindow.xaml.cs:155-164 | File i is placed exactly when its remote folder exists. The placement is that folder and a remote file with no backslash that starts with the folder and ends with the file's name. |
| DeviceSync.FileBlock | MultiSync/MainWindow.xaml.cs:159-166 | Definition of one iteration's events. Its properties are `SyncFile`, `StepsCopies`, `StepsProgress` and `FolderRefusalDoesNotStopSync`. |
| DeviceSync.Steps | MultiSync/MainWindow.xaml.cs:155-167 | Definition of the loop's first k iterations. Its properties are `StepsFailure`, `StepsCopies` and `StepsProgress`. |
| DeviceSync.SyncRun | MultiSync/MainWindow.xaml.cs:151-171 | Definition of a whole sync. Its properties are `SyncStopsAtFirstThrow`, `SyncCompletes`, `SyncThrows`, `ProgressNeverDecreases`, `FolderRefusalDoesNotStopSync` and `SyncRunRaisesSyncEvents`. |
| DeviceSync.StepsFailure | MultiSync/MainWindow.xaml.cs:155-158 | The first k iterations finish exactly when the first k files all map. Otherwise the loop stopped at the first file that throws. |
| DeviceSync.StepsCopies | MultiSync/MainWindow.xaml.cs:155-166 | The loop hands every file it reaches to `CopyFile`, in list order, and completes nothing. |
| DeviceSync.StepsProgress | MultiSync/MainWindow.xaml.cs:155-165 | Before file j the loop reports floor(j * 100 / count), once per file reached. |
| DeviceSync.SyncStopsAtFirstThrow | MultiSync/MainWindow.xaml.cs:151-171 | A sync completes exactly when every file's remote folder can be computed. Otherwise it fails at the first file for which `Substring` throws, with that exception. |
| DeviceSync.SyncCompletes | MultiSync/MainWindow.xaml.cs:155-170 | A completed sync of F files reports F + 1 percentages: floor(j * 100 / F) before file j, then 100 with no current file. It then raises `SyncCompleted` exactly once, as the last entry, and copies every file in list order. With no files the trace is `Progress(100)`, `SyncCompleted`. |
| DeviceSync.SyncThrows | MultiSync/MainWindow.xaml.cs:155-167 | A sync that throws copies and reports only the files before the failing one, and never completes. |
| DeviceSync.ProgressNeverDecreases | MultiSync/MainWindow.xaml.cs:165-169 | Every reported percentage lies in [0, 100] and none is smaller than one reported before it. |
| DeviceSync.FolderRefusalDoesNotStopSync | MultiSync/MainWindow.xaml.cs:159-166 | The device's answers to `CreateDirectory` change neither whether the sync completes nor what it copies or reports. |
| DeviceSync.SyncRunRaisesSyncEvents | MultiSync/MainWindow.xaml.cs:151-171 | A device sync logs no `SourceMissing`, `Dequeued` or `Drained` entry: those belong to the window and its queue. |
| DeviceSync.CompletedSyncLeavesProgressAt100 | MultiSync/MainWindow.xaml.cs:110-113 | Storing every percentage of a completed sync, as the progress handler does, leaves `Progress` at 100, the final report of line 169. |
| DeviceSync.PhoneSync.constructor | MultiSync/MainWindow.xaml.cs:129-133 | A new job holds its device and progress 0. |
| DeviceSync.PhoneSync.Sync | MultiSync/MainWindow.xaml.cs:151-171 | The loop's trace and failure are the run `SyncRun` specifies, whose properties are the lemmas above. |
| DeviceSync.PhoneSync.SyncFile | MultiSync/MainWindow.xaml.cs:157-166 | One iteration emits no event and returns the `Substring` failure when the file does not map. Otherwise it emits `CreateDirectory`, a warning if refused, `Progress` with the remote file, and `CopyFile`. |
| Events.LastProgress | MultiSync/MainWindow.xaml.cs:110-113 | After the handler stores each reported percentage, `Progress` holds the last one, or its old value when none was reported. |
| SyncQueue.Devices | MultiSync/MainWindow.xaml.cs:63-67 | The devices of the queued jobs, one per job, in queue order. |
| SyncQueue.Runs | MultiSync/MainWindow.xaml.cs:107 | Each queued device's sync over the source, in queue order. |
| SyncQueue.RunsAreSane | MultiSync/MainWindow.xaml.cs:151-171 | Each device sync raises only sync events. When it completes, it ends with its only `SyncCompleted`, and it completes exactly when every file maps. |
| SyncQueue.ChainOver | MultiSync/MainWindow.xaml.cs:76-120 | The chain of `BeginSync` calls completes at most as many jobs as it dequeues, and dequeues at most one beyond those. A drain means every queued job was dequeued and completed. A missing source only shows the message. |
| SyncQueue.BeginStep | MultiSync/MainWindow.xaml.cs:79-107 | Definition of what one `BeginSync` call logs and whether it dequeues and completes. Its properties are `BeginStepTrace`. |
| SyncQueue.BeginStepTrace | MultiSync/MainWindow.xaml.cs:79-107 | One `BeginSync` call. It dequeues exactly when the source exists and the queue is non-empty, and logs the dequeue first, and everything after it comes from the sync. It completes exactly when the device grants access and the sync completes, and then ends with its only `SyncCompleted`. |
| SyncQueue.DrainsAtMostOnce | MultiSync/MainWindow.xaml.cs:90-104 | A chain drains at most once, and the drain is its last entry. |
| SyncQueue.DequeuesInListOrder | MultiSync/MainWindow.xaml.cs:63-83 | The jobs are dequeued in the order the devices were listed. |
| SyncQueue.FullCycle | MultiSync/MainWindow.xaml.cs:90-104 | The chain drains exactly when the source exists, the queue is non-empty and every device grants access and completes. Then all N jobs are dequeued and `SyncCompleted` is raised N times. |
| SyncQueue.JobsRunSerially | MultiSync/MainWindow.xaml.cs:90-95 | Jobs run one after another: every dequeue but the first directly follows a `SyncCompleted`. |
| SyncQueue.ClickTrace | MultiSync/MainWindow.xaml.cs:59-120 | The trace of a click has jobs dequeued in list order, one at a time, and at most one drain, which comes last. It drains exactly when the source exists, some device is listed, every device grants access and every file maps. Then every job completes once. |
| SyncQueue.BeginKeepsCoherent | MultiSync/MainWindow.xaml.cs:76-120 | `BeginSync` keeps the listed jobs distinct and the queue a suffix of them, and the button stays disabled while a job runs. |
| SyncQueue.ChainStops | MultiSync/MainWindow.xaml.cs:90-104 | A `BeginSync` that starts no other leaves the window as the whole chain does. |
| SyncQueue.ChainContinues | MultiSync/MainWindow.xaml.cs:92-95 | A `BeginSync` whose job completes with jobs left starts the next one. The list stays put, the button stays disabled, no job is left running, and the chain over the rest ends where the whole chain ends. |
| SyncQueue.SyncController.constructor | MultiSync/MainWindow.xaml.cs:41-57 | After device discovery: the jobs are listed, nothing is queued, and the button is enabled exactly when a device was found. |
| SyncQueue.SyncController.FillQueue | MultiSync/MainWindow.xaml.cs:63-67 | The fresh queue holds the listed jobs in list order. |
| SyncQueue.SyncController.Dequeue | MultiSync/MainWindow.xaml.cs:83 | Dequeue returns the head job and leaves the rest of the queue in order. The job is marked running. |
| SyncQueue.SyncController.RunJob | MultiSync/MainWindow.xaml.cs:84-113 | The job's sync events are logged. The job's `Progress` ends at the last reported percentage. The result says whether `SyncCompleted` was raised. |
| SyncQueue.SyncController.Complete | MultiSync/MainWindow.xaml.cs:90-104 | The completion handler asks for the next `BeginSync` exactly when the queue is non-empty. Otherwise it re-enables the button, clears the list and logs the drain. |
| SyncQueue.SyncController.Drain | MultiSync/MainWindow.xaml.cs:96-104 | Re-enables the button, clears the list, logs "Completed Sync Job.". |
| SyncQueue.SyncController.Work | MultiSync/MainWindow.xaml.cs:81-108 | The worker dequeues the head and connects for the bundle. When granted, it syncs, and on completion it chains or drains. The new window and the head's progress are stated for each outcome. |
| SyncQueue.SyncController.BeginOnce | MultiSync/MainWindow.xaml.cs:76-120 | One `BeginSync` leaves the window as `BeginStep` says and keeps it coherent. It asks for another exactly when its job completed with jobs left. It changes only the head job's progress, which ends at its last report, or at 100 when the job completed. |
| SyncQueue.SyncController.BeginSync | MultiSync/MainWindow.xaml.cs:76-120 | `BeginSync` with its completion handlers' re-entries leaves the window as the chain `ChainOver` over its queue does, and keeps it coherent. |
| SyncQueue.SyncController.Prepare | MultiSync/MainWindow.xaml.cs:59-72 | Before its `BeginSync` call, a click leaves the button disabled, the queue equal to the device list in list order, no job running and the trace untouched. The settings are the click's, and the window stays coherent. |
| SyncQueue.SyncController.SyncDevicesClick | MultiSync/MainWindow.xaml.cs:59-74 | A click leaves the window as the chain over the listed devices, enqueued in list order, with the click's settings. The properties of that chain are `ClickTrace`. |

## Left out

- Window_Loaded, the `RecentFileUpdated` event and the most-recent-file text (lines 32-38 and 87) are presentation. Each `Progress` trace entry still carries the current file.
- FindDevices_Click, `iPhoneManager` and device discovery are foreign device transport. Only their result is modelled: the `SyncController` constructor takes the discovered jobs.
- Message boxes are entries of the trace:
  - `SourceMissing` for the missing source directory;
  - `CreateDirectoryFailed` for a refused folder;
  - the "Completed Sync Job." box as part of `Drained`.
- `Dispatcher.BeginInvoke` is treated as immediate: the button and the list change when the drain happens.
- `BackgroundWorker` threading is modelled sequentially. The nested `BeginSync` runs as a direct call from the completion branch. The progress reports are stored once the sync has returned, in the order they were made. That order is guaranteed only for the first job, whose worker is started on the window's thread. Every later worker is started from the previous worker's `DoWork`, on a pool thread. Its `ReportProgress` then runs the handler of lines 110-113 on pool threads, in no guaranteed order, so the last stored value need not be the last one reported.
- DeviceSync.CompletedSyncLeavesProgressAt100: `Progress` ends at 100 only when the reports are stored in order. That holds for the first job; for jobs 2 to N the source does not guarantee it.
- SyncQueue.SyncController.RunJob: the job's `Progress` ends at the last reported percentage only under in-order delivery, which holds for the first job only.
- SyncQueue.SyncController.BeginOnce: a completed job holds 100 only under in-order delivery of its reports, which holds for the first job only.
- `INotifyPropertyChanged` is presentation.
- Settings are parameters: the source and target text boxes and `Settings.Default`.
- The MobileDevice library is foreign code.
  - `ConnectViaHouseArrest` is the device oracle `grantsAccess`; a refusal throws and halts the queue.
  - `CreateDirectory` is the device oracle `createsFolder`. It is a function of the folder alone, so the device answers every request for the same folder the same way, across files and jobs. A device whose answer changes over time is not modelled.
  - `CopyFile`'s result is never read, so it has no oracle.
- File-system I/O is an input fixed for the whole click:
  - `Directory.Exists`, which the source re-checks in every `BeginSync`;
  - `DirectoryInfo.Name`;
  - the order of `Directory.EnumerateFiles`.
- DeviceSync.Percent: the source computes the percentage in double precision and truncates it. The model uses the exact floor of i * 100 / count, which can differ by one where rounding makes a product fall just below an integer.
- Paths.IndexOf: `String.IndexOf(string)` is culture-sensitive in .NET. It is modelled as an ordinal search.
- Paths.DirectoryName: `FileInfo` first expands the path to a full path (resolving `.`, `..` and relative paths), and a drive root keeps its separator. The model takes everything before the last separator of the path as given.
- Paths.Combine: the `ArgumentException` for invalid path characters is not modelled, and neither is `Path.GetFileName`'s.
- SyncQueue.SyncController.BeginSync: the chain-level facts about the jobs' progress are not stated on the whole chain. These are that every completed job holds 100 and that jobs never dequeued keep their progress. They are stated per call, on `BeginOnce`, whose frame shows that only the head job can change.
- SyncQueue.SyncController.SyncDevicesClick: a click with an empty device list is not excluded. The button can be enabled with an empty list after a drain. Then `Dequeue` throws inside the worker and nothing is logged, as in the source.
