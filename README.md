# HostingFolderPython, modelled in Dafny

A desktop control panel starts a small Flask file server as a child process.
It shows the server's output and lists the client addresses that connected.
It can also block and unblock those addresses. This project models the logic
behind that panel. The model has four parts, and the parts share three flat
text files: the blocklist, the connected-IP log and the served-folder setting.

- **Blocklist and settings store** (`file_utils.dfy`, module `FileUtils`).
  - The blocklist text becomes a set of addresses. Each line is stripped, and
    blank lines and `#` lines are skipped.
  - Adding an address appends one line. Removing one rewrites the file without
    its lines.
  - The connected-IP log is read and truncated.
  - The served folder is saved as the text of its resolved path, then loaded
    back.
  - Files are strings held by a `FileSystem` object (`disk.dfy`). The object
    has a map from paths to contents and a set of directories. The text
    machinery lives in `text.dfy`: `str.strip`, iteration over a file's lines,
    the first space-separated token, and code-point order for `sorted`.
- **Server supervisor** (`server_manager.dfy`, module `ServerManagement`).
  - Every operation of `ServerManager` is a pure transition on a
    `ManagerState` snapshot: `StartStep`, `StopStep`, `SetServedFolderStep`
    and the others. The lemmas about the supervisor are stated on these
    transitions.
  - The class `ServerManager` holds the same fields and updates them in place.
    Each method is proved to move its state exactly as its transition says.
  - The child process is `Alive` or `Exited(code)`. How a start or a
    termination turns out is a parameter.
  - The two pipe-reader threads are a loop over a pipe's lines, `ReadPipe`,
    plus an arbitrary interleaving of the two results, `Merge`.
- **Per-request logging and blocking, and the file guard** (`flask_server.dfy`,
  module `FlaskServer`).
  - The served folder is chosen from the environment variable.
  - A `RequestGate` object holds the session set of addresses already
    logged. Every request is logged first, then checked against the
    blocklist.
  - Open and download requests go through a guard that keeps them inside
    the served folder.
- **Device list** (`device_frame.dfy`, module `DeviceList`).
  - The listbox is a `seq<string>` and its selection a `set<nat>`.
  - A refresh is specified by the pure `Refresh` view. The view holds the
    sorted addresses, each with a ` (Blocked)` mark where it applies, the
    re-selected indices and the state of the two buttons.
  - The block and unblock buttons count the calls that changed the file.

Paths are lists of components below `/`, in `paths.dfy`. `Resolve` is
`pathlib`'s lexical `resolve()`: symbolic links are not part of this model.

Where the code and its documentation disagree, the model follows the code:

- The served-folder choice tests whether the folder *name* equals the default
  name `files` (`server/flask_server.py:16`). It does not test whether the
  variable is set. An explicit `FLASK_SERVE_FOLDER=files` therefore also
  resolves against the project root (`FlaskServer.ServedDirDefault`). In the
  repository's layout the project root and `config.BASE_DIR` are the same
  directory, so the two readings agree there.
- Messages from the server's output only reach the log sink when
  `process_log_queue` runs (`core/server_manager.py:183-194`). A line the
  child prints before it dies during start-up is queued, not delivered,
  when `start` returns.
- `is_running` stays true after the child exits on its own. `get_status`
  then reads "Exited (c)", yet `start` refuses to run
  (`ServerManagement.ExitedChildBlocksStart`).
- A start that fails after the launch clears the handle, so `get_status`
  reads "Stopped", not "Exited" (`ServerManagement.FailedStartLeavesStopped`).

## Model

| member | source | states |
|---|---|---|
| FileUtils.GetBlockedIps | common/file_utils.py:31-40 | a missing file reads as the empty set; otherwise the result is the set of stripped lines that are neither blank nor `#` comments |
| FileUtils.GetConnectedIps | common/file_utils.py:82-92 | a missing file reads as the empty set; otherwise the result is the set of stripped non-blank lines, with no comment filtering |
| FileUtils.ConnectedIpsOfAppend | common/file_utils.py:82-92 | appending `ip\n` to a log that is empty or newline-terminated adds exactly `ip` to what the log lists, for an address that is non-empty, stripped and without line breaks |
| FileUtils.BlockedIpsOfParts | common/file_utils.py:37 | when the first text ends with a newline (or is empty), the blocklist of two texts joined is the union of their blocklists |
| FileUtils.BlockedIpsOfOneLine | common/file_utils.py:37 | a single line contributes its stripped text exactly when that text is non-empty and does not start with `#` |
| FileUtils.BlockedIpsOfLine | common/file_utils.py:37 | the line `ip\n` written for a storable address parses back to exactly `{ip}` |
| FileUtils.BlockedIpsOfCommentLine | common/file_utils.py:37 | a line whose stripped text starts with `#` contributes no address, whatever whitespace surrounds the comment |
| FileUtils.BlockedIpsOfBlankLine | common/file_utils.py:37 | a line of whitespace only, the bare line break included, contributes no address |
| FileUtils.BlockedIpsSkipsCommentsAndBlanks | common/file_utils.py:37 | a comment line, an address line and a blank line together parse to exactly that address |
| FileUtils.AppendedEntryIsBlocked | common/file_utils.py:49-53 | appending `ip\n` to a file that is empty or newline-terminated adds exactly `ip` to its blocklist |
| FileUtils.KeptLinesMembers | common/file_utils.py:70-72 | a line survives the filter exactly when it was in the file and its stripped text is not the address, so comment lines survive |
| FileUtils.KeptLinesWellFormed | common/file_utils.py:70-72 | the surviving lines of a file still form a file's lines: every one but possibly the last ends with a line break |
| FileUtils.RemovedLines | common/file_utils.py:66-75 | the rewritten file consists of the surviving lines, verbatim and in their old order |
| FileUtils.RemovedBlocked | common/file_utils.py:66-75 | the rewritten blocklist is the old one without the address, duplicate lines of it included |
| FileUtils.RemovedAppendReady | common/file_utils.py:70-75 | a file that was empty or ended with a line break still does after a removal, so a later add lands on a line of its own |
| FileUtils.FilterLines | common/file_utils.py:67-72 | the loop keeps exactly the lines whose stripped text is not the address, in order |
| FileUtils.AddBlockedIp | common/file_utils.py:42-56 | returns true iff the address was not listed and the file can be opened for appending; then exactly `ip\n` is appended and the blocklist gains the address, otherwise nothing changes |
| FileUtils.RemoveBlockedIp | common/file_utils.py:58-80 | returns true iff the address was listed and the file can be rewritten; then the file is the surviving lines and the blocklist loses the address, otherwise nothing changes; a file that was empty or newline-terminated stays so, so adds and removes chain |
| FileUtils.ClearConnectedIpsLog | common/file_utils.py:94-101 | the log becomes empty when it can be opened for writing, and then reads as the empty set; otherwise nothing changes |
| FileUtils.SaveServedFolderSetting | common/file_utils.py:105-114 | creates the setting's directory, then writes the text of the resolved folder; loading it back gives that folder while it is still a directory |
| FileUtils.LoadServedFolderSetting | common/file_utils.py:116-140 | nothing for a missing file, an empty stripped text, or a text that does not name a directory; otherwise the stripped text, which names a directory |
| FileUtils.LoadSavedFolder | common/file_utils.py:116-136 | a setting holding a folder's text loads as that folder exactly when it is still a directory |
| FileUtils.TrailingSpaceIsLost | common/file_utils.py:123 | a folder whose name ends in whitespace is saved but loads as the folder without that character, because the stripped text drops it |
| FileUtils.EnsureFileExists | common/file_utils.py:18-27 | an existing file keeps its content; a missing one is created empty when possible; a second call changes nothing |
| FileUtils.EnsureDirsExist | common/file_utils.py:9-15 | the directory and its ancestors exist afterwards unless a file is in the way; a second call changes nothing |
| Text.Strip | common/file_utils.py:37 | the result has no leading or trailing whitespace, and a text without either is left as it is |
| Text.StripCutsWhitespace | common/file_utils.py:37 | `strip()` gives a slice of the input with only whitespace before and after it, so it removes the leading and trailing whitespace and nothing else |
| Text.StripLeftCuts | common/file_utils.py:37 | `lstrip()` leaves the suffix after the input's leading whitespace |
| Text.StripRightCuts | common/file_utils.py:37 | `rstrip()` leaves the prefix before the input's trailing whitespace |
| Text.StripTrailingSpace | common/file_utils.py:123 | a stripped text followed by one whitespace character strips back to itself |
| Text.LinesJoin | common/file_utils.py:70-75 | writing back every line read from a file reproduces the file |
| Text.ConcatLines | common/file_utils.py:74-75 | lines that each end with a newline, except possibly the last, are read back as the same lines after being written |
| Text.FirstToken | gui/frames/device_frame.py:37 | the result is the longest space-free prefix of the text |
| Text.SortedSet | gui/frames/device_frame.py:91 | the result holds each element of the set exactly once, in strictly ascending code-point order |
| Paths.ResolveRender | core/server_manager.py:46 | the text of a resolved path resolves back to that path from any directory |
| Paths.ResolveDescends | server/flask_server.py:92 | a relative name without `..` resolves inside the directory it is joined to |
| ServerManagement.StatusOf | core/server_manager.py:129-136 | "Running" exactly for a live child, "Exited (c)" exactly for a child that exited with `c`, "Stopped" exactly when there is no handle |
| ServerManagement.StartStep | core/server_manager.py:31-92 | the transition of `start`: refusal while running, refusal without the script, otherwise the three announcements and the launch |
| ServerManagement.LaunchStep | core/server_manager.py:44-92 | the transition of the launch and grace check: a spawn error, a child gone after the grace period (both cleaned up), or a running child |
| ServerManagement.StopProcessStep | core/server_manager.py:100-120 | the transition of `_stop_process` for no child, an exited child, and a live child that exits, is killed, or cannot be signalled |
| ServerManagement.StopStep | core/server_manager.py:94-98 | the transition of `stop`: stop the process, clean up, clear the running flag, report |
| ServerManagement.ShutdownStep | core/server_manager.py:201-203 | the transition of `shutdown`: a stop and its own message |
| ServerManagement.SetServedFolderStep | core/server_manager.py:142-153 | the transition of `set_served_folder`: refused while running or for a non-directory, otherwise the folder is replaced |
| ServerManagement.ProcessLogQueueStep | core/server_manager.py:183-194 | the transition of `process_log_queue`: the queue is emptied into the sink |
| ServerManagement.Tagged | core/server_manager.py:158-168 | what a reader pushes for the lines it reads: each non-blank line, stripped and labelled with its pipe |
| ServerManagement.StartWhileRunning | core/server_manager.py:31-34 | a start while running only logs and returns false; nothing else changes, so nothing is launched, the log is not cleared and the folder is kept |
| ServerManagement.StartWithoutScript | core/server_manager.py:36-39 | without the server script a start logs the error and returns false before touching anything else |
| ServerManagement.StartSucceeds | core/server_manager.py:75-86 | a start returns true exactly when nothing was running, the script exists and the child outlives the grace check; it then holds the live child and both readers, and launched with the served folder |
| ServerManagement.FailedStartLeavesStopped | core/server_manager.py:76-92 | a start that fails after the launch attempt leaves no handle, no readers and nothing running, so the status reads "Stopped" |
| ServerManagement.StartKeepsValid | core/server_manager.py:31-92 | every start keeps the running flag and both reader references in step with the handle, and keeps the served folder |
| ServerManagement.StopProcessSignals | core/server_manager.py:100-120 | a live child gets the stop event and `terminate`, then `kill` when the wait times out, and ends exited; an exited child or no child gets no signal |
| ServerManagement.StopProcessFrame | core/server_manager.py:100-120 | stopping the process touches only the handle, the stop event, the signals sent and the log |
| ServerManagement.StopEndsStopped | core/server_manager.py:94-98 | `stop` always ends with no handle, no readers and nothing running, from any state, with "Server stopped." as the last log line |
| ServerManagement.StopTwice | core/server_manager.py:94-120 | a second `stop` changes nothing but the log, which gains the "no process" line and "Server stopped." |
| ServerManagement.ShutdownStops | core/server_manager.py:201-203 | a shutdown is a stop followed by its own log line |
| ServerManagement.SetServedFolderOnlyWhenStopped | core/server_manager.py:142-153 | the folder changes exactly when nothing runs and the new folder is a directory; only the folder and the log change |
| ServerManagement.ProcessLogQueueRelaysInOrder | core/server_manager.py:183-194 | the queue ends empty and the sink receives exactly the queued messages, oldest first; an empty queue changes nothing |
| ServerManagement.ExitedChildBlocksStart | core/server_manager.py:31-34 | after the child exits on its own the status reads "Exited (c)", yet `start` still refuses because `is_running` is true |
| ServerManagement.Relayed | core/server_manager.py:193-194 | one sink line per message, in the same order |
| ServerManagement.ReadPipe | core/server_manager.py:155-170 | the loop pushes the labelled, stripped, non-blank lines read before the stop event, in order |
| ServerManagement.TaggedAppend | core/server_manager.py:158-168 | reading two stretches of a pipe pushes what reading each pushes, one after the other |
| ServerManagement.TaggedMembers | core/server_manager.py:164-168 | a message is pushed exactly when some line of the pipe strips to its text |
| ServerManagement.TaggedLabelled | core/server_manager.py:168 | every pushed message carries its pipe's label |
| ServerManagement.MergePermutes | core/server_manager.py:62-74 | the queue filled by the two readers holds exactly the messages of both, each as often as it was pushed |
| ServerManagement.MergeKeepsEachPipe | core/server_manager.py:62-74 | however the two readers interleave, each pipe's messages stay in their own order in the queue |
| ServerManagement.ServerManager.constructor | core/server_manager.py:12-22 | a new supervisor has no child, no readers, nothing running and empty queue and log |
| ServerManagement.ServerManager.GetStatus | core/server_manager.py:129-136 | `StatusOf` on the current handle |
| ServerManagement.ServerManager.GetConnectedIpsFromLog | core/server_manager.py:197-199 | the addresses the connected-IP log under the base directory lists |
| ServerManagement.ServerManager.Start | core/server_manager.py:31-92 | the new state is the start transition's; the connected-IP log is cleared exactly when the start gets past both refusals and the log can be written |
| ServerManagement.ServerManager.LaunchChild | core/server_manager.py:44-92 | the launch, grace check and clean-up move the state as the launch transition says |
| ServerManagement.ServerManager.Stop | core/server_manager.py:94-98 | the new state is the stop transition's |
| ServerManagement.ServerManager.StopProcess | core/server_manager.py:100-120 | the new state is the process-stopping transition's |
| ServerManagement.ServerManager.CleanupProcessResources | core/server_manager.py:123-127 | the handle and both reader references are cleared, nothing else |
| ServerManagement.ServerManager.SetServedFolder | core/server_manager.py:142-153 | the new state and the result are the folder-setting transition's, with the directory test made on the filesystem |
| ServerManagement.ServerManager.ProcessLogQueue | core/server_manager.py:183-194 | the new state is the queue-processing transition's |
| ServerManagement.ServerManager.DrainLogQueue | core/server_manager.py:185-192 | returns the queued messages, oldest first, and leaves the queue empty |
| ServerManagement.ServerManager.Shutdown | core/server_manager.py:201-203 | the new state is the shutdown transition's |
| ServerManagement.ServerManager.ReadersDeliver | core/server_manager.py:155-170 | the queue gains an interleaving of what the two reader loops push |
| FlaskServer.FolderName | server/flask_server.py:15 | the value of `FLASK_SERVE_FOLDER`, or the default name `files` when it is not set |
| FlaskServer.ServedDir | server/flask_server.py:15-19 | the default name resolved against the project root, any other name against the base directory |
| FlaskServer.ServedDirDefault | server/flask_server.py:15-17 | without the variable, or with it set to the default name, the folder is the default folder under the project root |
| FlaskServer.ServedDirOfRendered | server/flask_server.py:15-19 | the absolute folder text the supervisor passes resolves to exactly that folder |
| FlaskServer.Startup | server/flask_server.py:20-33 | serving goes on only with both log files present and the folder a directory; no existing file changes; with the folder a directory, both log files present and the log directory makeable it always goes on; under the default name a missing folder is created and serving goes on, when the log directory and the folder can be made and neither log file lies on the folder's path |
| FlaskServer.LogIp | server/flask_server.py:44-49 | one call of `server_log_ip` on the session set: an address already seen changes nothing, a new one joins the set and gets the line `ip\n` |
| FlaskServer.Written | server/flask_server.py:44-49 | the addresses a run of requests writes to the log: those for which `LogIp` appends a line |
| FlaskServer.WrittenOncePerSession | server/flask_server.py:44-49 | within one session each address is written at most once, never one already seen, every new one is written, and the session set ends as the union of all addresses seen |
| FlaskServer.RequestGate.constructor | server/flask_server.py:39 | the session set starts empty |
| FlaskServer.RequestGate.ServerLogIp | server/flask_server.py:42-51 | the address joins the session set even if the write fails; `ip\n` is appended only on the address's first sight in the session, and the log then lists it; when every session address was listed and the log can be written, that stays true and the address is listed |
| FlaskServer.RequestGate.CheckBlocklistAndLogIp | server/flask_server.py:54-62 | the address is logged whatever the verdict, so with a writable log every requesting address, blocked or not, ends up listed in it; the request is refused exactly when the blocklist read at that moment lists it |
| FlaskServer.RequestGate.RunAsMain | server/flask_server.py:128-130 | the connected-IP log and the session set both start out empty, so every session address is listed in the log from the start |
| FlaskServer.Guard | server/flask_server.py:91-97 | the `try` block raises the `abort(404)` exactly when the resolved name is not an existing file inside the served folder, and otherwise sends that file |
| FlaskServer.Handled | server/flask_server.py:98-102 | the `except` clauses as written: `FileNotFoundError` gives 404 and every other exception, the guard's `abort(404)` included, gives 500 |
| FlaskServer.ServeFile | server/flask_server.py:89-117 | a file is sent exactly when the resolved name is an existing file inside the served folder; every refusal answers 500 |
| FlaskServer.ServeFileIntended | server/flask_server.py:89-117 | the same files are sent, and every refusal answers 404 |
| FlaskServer.RefusalAnswers500 | server/flask_server.py:93-102 | the route as written and as intended agree exactly on the files they send; a name that is no file answers 500 where 404 was intended |
| FlaskServer.OpenFile | server/flask_server.py:89-102 | `open_file`: the route with the file shown in the browser |
| FlaskServer.DownloadFile | server/flask_server.py:104-117 | `download_file`: the route with the file sent as a download |
| FlaskServer.NothingOutsideIsSent | server/flask_server.py:89-117 | neither route ever sends anything outside the served folder or anything that is not a file, and both accept the same names |
| FlaskServer.PlainNameServedIffFile | server/flask_server.py:92-95 | a relative name without `..` is served exactly when it names an existing file |
| FlaskServer.EscapeRefused | server/flask_server.py:92-95 | `../name` is refused even when that file exists next to the served folder: 500 as written, 404 as intended |
| DeviceList.Entries | gui/frames/device_frame.py:94-98 | one line per address, the address followed by ` (Blocked)` exactly when it is blocked |
| DeviceList.Refresh | gui/frames/device_frame.py:81-110 | no logged address gives the single placeholder line ("Server stopped." or "No connections logged yet.") and no selection; the buttons are enabled exactly when running and something is logged |
| DeviceList.DisplayRoundTrip | gui/frames/device_frame.py:94-98 | the first token of a shown line is its address, for an address without spaces |
| DeviceList.EntriesTokens | gui/frames/device_frame.py:94-98 | for addresses without spaces, every shown line gives back its address as its first token |
| DeviceList.EntriesMarked | gui/frames/device_frame.py:95-97 | a shown line carries the mark exactly when its address is blocked |
| DeviceList.SelectedUpToMembers | gui/frames/device_frame.py:31-38 | an address is reported exactly when it is the first token of a selected line |
| DeviceList.SelectedUpToAscending | gui/frames/device_frame.py:31-38 | selected lines whose tokens ascend are reported in ascending order |
| DeviceList.ReselectRoundTrip | gui/frames/device_frame.py:78-102 | re-selecting by address and reading the selection back gives the kept addresses among those shown |
| DeviceList.ReselectOrdered | gui/frames/device_frame.py:99-102 | the re-selected addresses are reported in ascending order |
| DeviceList.RefreshListsConnected | gui/frames/device_frame.py:90-98 | for logged addresses without spaces, after a refresh there is one line per logged address, its token the sorted address at that index, marked exactly when blocked |
| DeviceList.RefreshKeepsSelection | gui/frames/device_frame.py:78-102 | after a refresh exactly the previously selected addresses that are still logged are selected, reported in ascending order |
| DeviceList.Layout | gui/frames/device_frame.py:93-100 | the loop builds exactly the shown lines and the re-selected indices |
| DeviceList.BlockAll | gui/frames/device_frame.py:47-50 | the count is at most the number of addresses; when the file cannot be written nothing changes and the count is 0; when it can, the addresses are storable and the file is empty or ends with a line break, the blocklist gains exactly the addresses and the count is the number that were new |
| DeviceList.UnblockAll | gui/frames/device_frame.py:65-68 | when the file cannot be written nothing changes and the count is 0; otherwise the blocklist loses the addresses and the count is the number that were listed |
| DeviceList.DeviceFrame.constructor | gui/frames/device_frame.py:25-29 | the list starts empty with both buttons disabled |
| DeviceList.DeviceFrame.GetSelectedIps | gui/frames/device_frame.py:31-38 | the first token of each selected line, in index order |
| DeviceList.DeviceFrame.UpdateList | gui/frames/device_frame.py:74-110 | the new list, selection and buttons are the `Refresh` view of the logged addresses, the blocklist, the running flag and the previous selection |
| DeviceList.DeviceFrame.BlockSelected | gui/frames/device_frame.py:40-55 | nothing selected gives that notice; otherwise the notice is shown exactly when no append happened; a positive count refreshes the list through `update_ui` to the `Refresh` view, and the blocklist and count are those of `BlockAll` |
| DeviceList.DeviceFrame.UnblockSelected | gui/frames/device_frame.py:58-73 | as for blocking, with the count of removals: when the file can be written the blocklist loses exactly the selected addresses and the count is the number of them that were listed |

## Left out

- Input and output errors other than the two the model decides. A write fails
  when the target is a directory or its parent is not one. Making directories
  fails when a file is in the way. Decoding errors, permission errors and full
  disks are not part of this model.
- Universal newlines: a `\r` in a file is an ordinary character here, not a
  line break.
- The text of log messages: each message is a constructor of `Note`, without
  the process id or exception text. The sink stands for both the GUI callback
  and the fallback to standard error (`core/server_manager.py:24-29`).
- Threads, timing and the process itself. The child is `Alive` or
  `Exited(code)`. How a start ends (`Launch`) and how a termination ends
  (`Termination`) are parameters. The reader threads are `ReadPipe` with the
  number of lines read before the stop event. Their interleaving into the
  queue is the `picks` of `Merge`. The lock around the session set is not
  modelled, because each request is handled in one step.
- The pipe readers' own error messages (`core/server_manager.py:169-180`) and
  byte decoding: pipe lines arrive as decoded strings.
- `get_served_folder` (`core/server_manager.py:138-140`) reads a field, so it
  has no operation of its own.
- Flask routing, the index template, `send_from_directory`, the CSS route and
  `app.run`. `ServeFile` stands for the file that would be sent, and
  `send_from_directory` is taken not to raise once the guard has passed.
- `FlaskServer.Startup` takes the folder `ServedDir` chose and the folder
  name as inputs rather than reading the environment, and the start-up
  messages it prints are not modelled.
- Symbolic links: `Resolve` folds `.` and `..` without them.
- File-system states an operating system could not reach, such as a path that
  is both a file and a directory or a file whose parent is missing, are not
  excluded. Every contract holds for all states, so also for the reachable ones.
- The listbox's scrolling to the first selected line
  (`gui/frames/device_frame.py:103-104`), and all widget layout.
- gui/app.py, gui/frames/status_frame.py, gui/frames/log_frame.py,
  gui/frames/stats_frame.py, config.py and main.py are not part of this model.
  They are layout, timers, floating-point rate display and constants.
- FileUtils.LoadSavedFolder: holds only for folders whose text survives
  stripping. `FileUtils.TrailingSpaceIsLost` shows the folders for which it
  does not.
- FlaskServer.RequestGate.ServerLogIp: the log is shown to list the address
  only for addresses that are non-empty, stripped and without line breaks,
  and a log that is empty or ends with a line break.
- ServerManagement.StopProcessSignals: when signalling raises
  (`core/server_manager.py:115-116`), the model keeps the child as it was and
  records no signal.
- ServerManagement.Merge: its own contract states only the length; the
  content is stated by `MergePermutes` and `MergeKeepsEachPipe`.
- DeviceList.DeviceFrame.BlockSelected: its exact count and new blocklist carry the same restriction as `DeviceList.BlockAll` below, which it calls.
- DeviceList.BlockAll: the exact count and new blocklist are stated only for
  addresses that can be stored as lines of their own, and a file that is
  empty or ends with a newline; otherwise only the bound on the count.
- DeviceList.RefreshKeepsSelection: stated for addresses without spaces; an
  address with a space loses its selection, because only its first token is
  read back.
- DeviceList.RefreshListsConnected: stated for addresses without spaces, for
  the same reason.

## Findings

| source | as written | input that shows it | evidently intended | confidence | as-written member | corrected member |
|---|---|---|---|---|---|---|
| server/flask_server.py:89-117 | the guard's `abort(404)` is raised inside the `try`; its `HTTPException` is not a `FileNotFoundError`, so `except Exception` catches it and answers `abort(500)` | `GET /open/missing.txt`, or `GET /download/../x` | a refused name answers 404, the status the guard itself chooses | not executed; relies on werkzeug's `HTTPException` deriving from `Exception` | FlaskServer.RefusalAnswers500 | FlaskServer.ServeFileIntended |
