/** The supervisor of the HTTP server's child process: it launches the server
    script, tracks the child, relays the child's output into a log queue, and
    stops it. The child process, its pipes and its reader threads are outside
    the program; here they are an abstract child (alive, or exited with a code),
    the outcome of each launch and each termination given as a parameter, and
    the lines the pipes yield given as sequences. */
module ServerManagement {
  import opened Options
  import opened Text
  import opened Paths
  import opened Disk
  import opened Config
  import opened FileUtils

  // ---------------------------------------------------------------------
  // The child process and the outcomes the environment chooses

  /** What `poll()` reports about the child: still running, or its exit code. */
  datatype Child = Alive | Exited(code: int)

  /** What `get_status` reports: "Running", "Exited (code)" or "Stopped". */
  datatype Status = Running | ExitedWith(code: int) | Stopped

  /** How a launch attempt turns out: `Popen` raises, the child is already gone
      after the grace period, or it is still up. */
  datatype Launch = SpawnRaises | DiesDuringGrace(code: int) | StaysUp

  /** How stopping a live child turns out: it exits within the bounded wait after
      `terminate()`, it has to be killed, or signalling it raises. */
  datatype Termination = Graceful(code: int) | Killed(code: int) | SignalFails

  /** The signals sent to the child, in order. */
  datatype Signal = Term | Kill

  /** The messages the supervisor writes to its log sink, one per message in
      the source (their text formatting is not modelled). */
  datatype Note =
    | AlreadyRunning
    | ScriptNotFound(script: Path)
    | Starting
    | SpawningProcess(script: Path)
    | ServingFolder(folder: Path)
    | ProcessStarted
    | ExitedDuringStart(code: int)
    | ServerIsRunning
    | StartError
    | StoppingProcess
    | TerminatedGracefully
    | KillingProcess
    | ProcessKilled
    | TerminationError
    | AlreadyStopped(code: int)
    | NoProcess
    | ServerStopped
    | FolderLocked
    | NotADirectory(folder: Path)
    | FolderSet(folder: Path)
    | ShutDownComplete

  /** One call of the log sink: a message of the supervisor itself, or a line
      relayed from the log queue. */
  datatype LogLine = Say(note: Note) | Relay(text: string)

  /** The two pipes of the child. */
  datatype Pipe = Stdout | Stderr

  // ---------------------------------------------------------------------
  // The supervisor's state as a value, and what each operation does to it

  /** Every field of the supervisor, plus two records of its effects on the
      child: the signals sent, and the served-folder text handed to each child
      launched (through `FLASK_SERVE_FOLDER`). The reader-thread references are
      kept as whether they are set. */
  datatype ManagerState = ManagerState(
    servedFolder: Path,
    process: Option<Child>,
    isRunning: bool,
    stopEvent: bool,
    stdoutReader: bool,
    stderrReader: bool,
    logQueue: seq<string>,
    sink: seq<LogLine>,
    signals: seq<Signal>,
    launches: seq<string>)

  /** A freshly constructed supervisor. */
  function Initial(servedFolder: Path): ManagerState {
    ManagerState(servedFolder, None, false, false, false, false, [], [], [], [])
  }

  /** The supervisor's own view agrees with the child handle: it considers the
      server running exactly while it holds a handle, and the reader threads
      exist exactly then too. */
  predicate Valid(m: ManagerState) {
    && m.isRunning == m.process.Some?
    && m.stdoutReader == m.process.Some?
    && m.stderrReader == m.process.Some?
  }

  /** `get_status`, on the handle alone. */
  function StatusOf(process: Option<Child>): (r: Status)
    ensures r == Running <==> process == Some(Alive)
    ensures forall c :: r == ExitedWith(c) <==> process == Some(Exited(c))
    ensures r == Stopped <==> process == None
  {
    match process
    case None => Stopped
    case Some(Alive) => Running
    case Some(Exited(c)) => ExitedWith(c)
  }

  function Logged(m: ManagerState, n: Note): ManagerState {
    m.(sink := m.sink + [Say(n)])
  }

  /** `_cleanup_process_resources`: drops the handle and both reader references. */
  function Cleaned(m: ManagerState): ManagerState {
    m.(process := None, stdoutReader := false, stderrReader := false)
  }

  /** The spawn and the reader threads started after it. */
  function Spawned(m: ManagerState): ManagerState {
    var launched := m.(process := Some(Alive), launches := m.launches + [Render(m.servedFolder)]);
    Logged(launched, ProcessStarted).(stopEvent := false, stdoutReader := true, stderrReader := true)
  }

  /** `start`, given whether the server script is a file and how the launch
      turns out: the new state and the result. */
  function StartStep(m: ManagerState, script: Path, scriptPresent: bool, launch: Launch): (ManagerState, bool)
  {
    if m.isRunning then (Logged(m, AlreadyRunning), false)
    else if !scriptPresent then (Logged(m, ScriptNotFound(script)), false)
    else
      LaunchStep(Logged(Logged(Logged(m, Starting), SpawningProcess(script)), ServingFolder(m.servedFolder)), launch)
  }

  /** The launch itself and the check after the grace period. */
  function LaunchStep(m: ManagerState, launch: Launch): (ManagerState, bool)
  {
    match launch
    case SpawnRaises => (Cleaned(Logged(m, StartError)).(isRunning := false), false)
    case DiesDuringGrace(c) => (Cleaned(Logged(Spawned(m), ExitedDuringStart(c))).(isRunning := false), false)
    case StaysUp => (Logged(Spawned(m).(isRunning := true), ServerIsRunning), true)
  }

  /** `_stop_process`, given how the termination of a live child turns out. */
  function StopProcessStep(m: ManagerState, how: Termination): ManagerState
  {
    match m.process
    case None => Logged(m, NoProcess)
    case Some(Exited(c)) => Logged(m, AlreadyStopped(c))
    case Some(Alive) =>
      var signalled := Logged(m, StoppingProcess).(stopEvent := true);
      match how
      case Graceful(c) =>
        Logged(signalled.(signals := signalled.signals + [Term], process := Some(Exited(c))), TerminatedGracefully)
      case Killed(c) =>
        var timedOut := Logged(signalled.(signals := signalled.signals + [Term]), KillingProcess);
        Logged(timedOut.(signals := timedOut.signals + [Kill], process := Some(Exited(c))), ProcessKilled)
      case SignalFails => Logged(signalled, TerminationError)
  }

  /** `stop`: stop the child, clean up, and report, whatever the state was. */
  function StopStep(m: ManagerState, how: Termination): ManagerState {
    Logged(Cleaned(StopProcessStep(m, how)).(isRunning := false), ServerStopped)
  }

  /** `shutdown` */
  function ShutdownStep(m: ManagerState, how: Termination): ManagerState {
    Logged(StopStep(m, how), ShutDownComplete)
  }

  /** `set_served_folder`, given whether `folder` is a directory. */
  function SetServedFolderStep(m: ManagerState, folder: Path, isDir: bool): (ManagerState, bool)
  {
    if m.isRunning then (Logged(m, FolderLocked), false)
    else if !isDir then (Logged(m, NotADirectory(folder)), false)
    else (Logged(m.(servedFolder := folder), FolderSet(folder)), true)
  }

  /** The sink calls that relay queued lines, in order. */
  function Relayed(ms: seq<string>): (r: seq<LogLine>)
    ensures |r| == |ms|
    ensures forall i :: 0 <= i < |ms| ==> r[i] == Relay(ms[i])
  {
    if ms == [] then [] else Relayed(ms[..|ms| - 1]) + [Relay(ms[|ms| - 1])]
  }

  lemma RelayedStep(ms: seq<string>, i: nat)
    requires i < |ms|
    ensures Relayed(ms[..i + 1]) == Relayed(ms[..i]) + [Relay(ms[i])]
  {
    assert ms[..i + 1][..i] == ms[..i];
  }

  /** `process_log_queue` */
  function ProcessLogQueueStep(m: ManagerState): ManagerState {
    m.(logQueue := [], sink := m.sink + Relayed(m.logQueue))
  }

  // ---------------------------------------------------------------------
  // Properties of the operations

  /** A start while the supervisor considers the server running only logs: no
      launch, and nothing else changes. */
  lemma StartWhileRunning(m: ManagerState, script: Path, scriptPresent: bool, launch: Launch)
    requires m.isRunning
    ensures StartStep(m, script, scriptPresent, launch) == (m.(sink := m.sink + [Say(AlreadyRunning)]), false)
  {
  }

  /** Without the server script a start fails before anything but its message. */
  lemma StartWithoutScript(m: ManagerState, script: Path, launch: Launch)
    requires !m.isRunning
    ensures StartStep(m, script, false, launch) == (m.(sink := m.sink + [Say(ScriptNotFound(script))]), false)
  {
  }

  /** A start succeeds exactly when nothing was running, the script is there and
      the child outlives the grace period; the supervisor then holds the live
      child and its readers, and has launched it with the served folder. */
  lemma StartSucceeds(m: ManagerState, script: Path, scriptPresent: bool, launch: Launch)
    ensures StartStep(m, script, scriptPresent, launch).1 <==> !m.isRunning && scriptPresent && launch == StaysUp
    ensures var (n, ok) := StartStep(m, script, scriptPresent, launch);
            ok ==> n.isRunning && n.process == Some(Alive) && n.stdoutReader && n.stderrReader
                   && StatusOf(n.process) == Running && n.launches == m.launches + [Render(m.servedFolder)]
  {
  }

  /** A start that fails after the launch attempt leaves no handle, no readers
      and nothing running, so the status reads "Stopped" even when the child
      exited with a code. */
  lemma FailedStartLeavesStopped(m: ManagerState, script: Path, launch: Launch)
    requires !m.isRunning && launch != StaysUp
    ensures var n := StartStep(m, script, true, launch).0;
            n.process == None && !n.stdoutReader && !n.stderrReader && !n.isRunning
            && StatusOf(n.process) == Stopped
  {
  }

  /** Every start keeps the supervisor's view consistent, and none changes the
      served folder. */
  lemma StartKeepsValid(m: ManagerState, script: Path, scriptPresent: bool, launch: Launch)
    requires Valid(m)
    ensures Valid(StartStep(m, script, scriptPresent, launch).0)
    ensures StartStep(m, script, scriptPresent, launch).0.servedFolder == m.servedFolder
  {
  }

  /** `_stop_process` on a live child sets the stop event and, unless signalling
      raises, leaves the child exited: with `terminate` alone, or with `kill`
      after it. On an exited child or no child it sends nothing. */
  lemma StopProcessSignals(m: ManagerState, how: Termination)
    ensures var n := StopProcessStep(m, how);
            && (m.process == Some(Alive) ==> n.stopEvent)
            && (m.process == Some(Alive) && how.Graceful? ==>
                  n.process == Some(Exited(how.code)) && n.signals == m.signals + [Term])
            && (m.process == Some(Alive) && how.Killed? ==>
                  n.process == Some(Exited(how.code)) && n.signals == m.signals + [Term, Kill])
            && (m.process != Some(Alive) || how.SignalFails? ==>
                  n.signals == m.signals && n.process == m.process)
            && (m.process != Some(Alive) ==> n.stopEvent == m.stopEvent)
  {
  }

  /** `stop` always ends with no handle, no readers and nothing running, from any
      state, and keeps the served folder, the queue and the launches. */
  lemma StopEndsStopped(m: ManagerState, how: Termination)
    ensures var n := StopStep(m, how);
            && n.process == None && !n.stdoutReader && !n.stderrReader && !n.isRunning
            && StatusOf(n.process) == Stopped && Valid(n)
            && n.servedFolder == m.servedFolder && n.logQueue == m.logQueue && n.launches == m.launches
            && n.sink[|n.sink| - 1] == Say(ServerStopped)
  {
    StopProcessFrame(m, how);
  }

  /** `_stop_process` touches only the handle, the stop event, the signals and
      the log. */
  lemma StopProcessFrame(m: ManagerState, how: Termination)
    ensures var n := StopProcessStep(m, how);
            n == m.(process := n.process, stopEvent := n.stopEvent, signals := n.signals, sink := n.sink)
  {
    match m.process
    case None =>
    case Some(c) =>
      match c
      case Exited(_) =>
      case Alive =>
        match how
        case Graceful(_) =>
        case Killed(_) =>
        case SignalFails =>
  }

  /** Stopping twice is stopping once, except that the second call logs that
      there was no process, and that it stopped. */
  lemma StopTwice(m: ManagerState, first: Termination, second: Termination)
    ensures var once := StopStep(m, first);
            StopStep(once, second) == once.(sink := once.sink + [Say(NoProcess), Say(ServerStopped)])
  {
  }

  /** A shutdown is a stop followed by its own message. */
  lemma ShutdownStops(m: ManagerState, how: Termination)
    ensures var n := ShutdownStep(m, how);
            n.process == None && !n.isRunning && n.sink == StopStep(m, how).sink + [Say(ShutDownComplete)]
  {
  }

  /** The served folder changes exactly when the server is not running and the
      new folder is a directory; nothing but the folder and the log changes. */
  lemma SetServedFolderOnlyWhenStopped(m: ManagerState, folder: Path, isDir: bool)
    ensures var (n, ok) := SetServedFolderStep(m, folder, isDir);
            && (ok <==> !m.isRunning && isDir)
            && n.servedFolder == (if ok then folder else m.servedFolder)
            && n.(servedFolder := m.servedFolder, sink := m.sink) == m
  {
  }

  /** Processing the queue empties it and hands the sink exactly the queued
      lines, oldest first; with nothing queued it changes nothing. */
  lemma ProcessLogQueueRelaysInOrder(m: ManagerState)
    ensures var n := ProcessLogQueueStep(m);
            && n.logQueue == []
            && |n.sink| == |m.sink| + |m.logQueue|
            && n.sink[..|m.sink|] == m.sink
            && (forall i :: 0 <= i < |m.logQueue| ==> n.sink[|m.sink| + i] == Relay(m.logQueue[i]))
            && (m.logQueue == [] ==> n == m)
  {
    var n := ProcessLogQueueStep(m);
    if m.logQueue == [] {
      assert Relayed([]) == [];
      assert m.sink + [] == m.sink;
    }
    assert n.sink[..|m.sink|] == m.sink;
  }

  /** A child that exits on its own leaves the supervisor believing the server
      runs: the status already reads "Exited", yet `start` is refused. */
  lemma ExitedChildBlocksStart(m: ManagerState, code: int, script: Path, scriptPresent: bool, launch: Launch)
    requires Valid(m) && m.process == Some(Alive)
    ensures var d := m.(process := Some(Exited(code)));
            && Valid(d) && d.isRunning && StatusOf(d.process) == ExitedWith(code)
            && StartStep(d, script, scriptPresent, launch) == (Logged(d, AlreadyRunning), false)
  {
  }

  // ---------------------------------------------------------------------
  // The reader threads

  function Label(pipe: Pipe): string {
    match pipe
    case Stdout => "[STDOUT] "
    case Stderr => "[STDERR] "
  }

  predicate HasLabel(m: string, pipe: Pipe) {
    |Label(pipe)| <= |m| && m[..|Label(pipe)|] == Label(pipe)
  }

  /** What a reader pushes for the lines it reads: each line stripped and
      labelled with its pipe, blank lines dropped. */
  function Tagged(pipe: Pipe, lines: seq<string>): seq<string>
  {
    if lines == [] then [] else Tagged(pipe, lines[..|lines| - 1]) + Pushed(pipe, lines[|lines| - 1])
  }

  /** What a reader pushes for one line. */
  function Pushed(pipe: Pipe, line: string): seq<string> {
    if Strip(line) != [] then [Label(pipe) + Strip(line)] else []
  }

  /** `_read_pipe_thread`: reads the pipe's lines until its end or until the stop
      event is seen set, which happens before the `stopAfter`-th read. */
  method ReadPipe(lines: seq<string>, pipe: Pipe, stopAfter: nat) returns (pushed: seq<string>)
    ensures pushed == Tagged(pipe, lines[..if stopAfter < |lines| then stopAfter else |lines|])
  {
    pushed := [];
    var i := 0;
    while i < |lines| && i < stopAfter
      invariant 0 <= i <= |lines| && i <= stopAfter
      invariant pushed == Tagged(pipe, lines[..i])
    {
      var line := Strip(lines[i]);
      if line != [] {
        pushed := pushed + [Label(pipe) + line];
      }
      TaggedStep(pipe, lines, i);
      i := i + 1;
    }
  }

  lemma TaggedStep(pipe: Pipe, lines: seq<string>, i: nat)
    requires i < |lines|
    ensures Tagged(pipe, lines[..i + 1]) == Tagged(pipe, lines[..i]) + Pushed(pipe, lines[i])
  {
    assert lines[..i + 1][..i] == lines[..i];
  }

  /** Reading more lines only adds messages after the earlier ones. */
  lemma {:induction false} TaggedAppend(pipe: Pipe, a: seq<string>, b: seq<string>)
    ensures Tagged(pipe, a + b) == Tagged(pipe, a) + Tagged(pipe, b)
    decreases |b|
  {
    if b == [] {
      assert a + b == a;
    } else {
      var init, last := b[..|b| - 1], b[|b| - 1];
      assert (a + b)[..|a + b| - 1] == a + init && (a + b)[|a + b| - 1] == last;
      assert Tagged(pipe, a + b) == Tagged(pipe, a + init) + Pushed(pipe, last);
      TaggedAppend(pipe, a, init);
      assert Tagged(pipe, b) == Tagged(pipe, init) + Pushed(pipe, last);
    }
  }

  /** A reader's messages are exactly what it pushes for the lines it read: the
      labelled stripped forms of the non-blank ones. */
  lemma {:induction false} TaggedMembers(pipe: Pipe, lines: seq<string>)
    ensures forall msg :: msg in Tagged(pipe, lines) <==> exists l :: l in lines && msg in Pushed(pipe, l)
  {
    if lines != [] {
      var init, last := lines[..|lines| - 1], lines[|lines| - 1];
      TaggedMembers(pipe, init);
      assert lines == init + [last];
    }
  }

  /** Every message a reader pushes carries its pipe's label. */
  lemma {:induction false} TaggedLabelled(pipe: Pipe, lines: seq<string>)
    ensures forall i :: 0 <= i < |Tagged(pipe, lines)| ==> HasLabel(Tagged(pipe, lines)[i], pipe)
  {
    if lines != [] {
      var init, last := lines[..|lines| - 1], lines[|lines| - 1];
      TaggedLabelled(pipe, init);
      var t := Tagged(pipe, init);
      if Strip(last) != [] {
        var msg := Label(pipe) + Strip(last);
        assert msg[..|Label(pipe)|] == Label(pipe);
        assert forall i :: 0 <= i < |t| ==> (t + [msg])[i] == t[i];
      }
    }
  }

  /** One interleaving of the two readers' pushes into the shared queue; `picks`
      says, while both have messages left, whether standard output goes next. */
  function Merge(xs: seq<string>, ys: seq<string>, picks: seq<bool>): (r: seq<string>)
    ensures |r| == |xs| + |ys|
    decreases |xs| + |ys|
  {
    if xs == [] then ys
    else if ys == [] then xs
    else if picks != [] && !picks[0] then [ys[0]] + Merge(xs, ys[1..], picks[1..])
    else [xs[0]] + Merge(xs[1..], ys, if picks == [] then [] else picks[1..])
  }

  /** The queue receives every message of both readers, and nothing else. */
  lemma {:induction false} MergePermutes(xs: seq<string>, ys: seq<string>, picks: seq<bool>)
    ensures multiset(Merge(xs, ys, picks)) == multiset(xs) + multiset(ys)
    decreases |xs| + |ys|
  {
    if xs == [] {
      assert multiset(xs) == multiset{};
    } else if ys == [] {
      assert multiset(ys) == multiset{};
    } else if picks != [] && !picks[0] {
      var rest := Merge(xs, ys[1..], picks[1..]);
      MergePermutes(xs, ys[1..], picks[1..]);
      assert multiset([ys[0]] + rest) == multiset([ys[0]]) + multiset(rest);
      assert ys == [ys[0]] + ys[1..];
      assert multiset(ys) == multiset([ys[0]]) + multiset(ys[1..]);
    } else {
      var rest := Merge(xs[1..], ys, if picks == [] then [] else picks[1..]);
      MergePermutes(xs[1..], ys, if picks == [] then [] else picks[1..]);
      assert multiset([xs[0]] + rest) == multiset([xs[0]]) + multiset(rest);
      assert xs == [xs[0]] + xs[1..];
      assert multiset(xs) == multiset([xs[0]]) + multiset(xs[1..]);
    }
  }

  /** The queued messages of one pipe, in queue order. */
  function FromPipe(ms: seq<string>, pipe: Pipe): seq<string>
  {
    if ms == [] then []
    else (if HasLabel(ms[0], pipe) then [ms[0]] else []) + FromPipe(ms[1..], pipe)
  }

  lemma LabelsDiffer(m: string)
    ensures !(HasLabel(m, Stdout) && HasLabel(m, Stderr))
  {
    assert Label(Stdout)[4] != Label(Stderr)[4];
  }

  lemma {:induction false} FromPipeOfLabelled(ms: seq<string>, pipe: Pipe, other: Pipe)
    requires pipe != other
    requires forall i :: 0 <= i < |ms| ==> HasLabel(ms[i], pipe)
    ensures FromPipe(ms, pipe) == ms && FromPipe(ms, other) == []
  {
    if ms != [] {
      LabelsDiffer(ms[0]);
      FromPipeOfLabelled(ms[1..], pipe, other);
      assert ms == [ms[0]] + ms[1..];
    }
  }

  /** However the two readers interleave, the queue holds each pipe's messages
      in the order that pipe produced them. */
  lemma {:induction false} MergeKeepsEachPipe(xs: seq<string>, ys: seq<string>, picks: seq<bool>)
    requires forall i :: 0 <= i < |xs| ==> HasLabel(xs[i], Stdout)
    requires forall i :: 0 <= i < |ys| ==> HasLabel(ys[i], Stderr)
    ensures FromPipe(Merge(xs, ys, picks), Stdout) == xs
    ensures FromPipe(Merge(xs, ys, picks), Stderr) == ys
    decreases |xs| + |ys|
  {
    if xs == [] {
      FromPipeOfLabelled(ys, Stderr, Stdout);
    } else if ys == [] {
      FromPipeOfLabelled(xs, Stdout, Stderr);
    } else if picks != [] && !picks[0] {
      LabelsDiffer(ys[0]);
      MergeKeepsEachPipe(xs, ys[1..], picks[1..]);
      var r := Merge(xs, ys, picks);
      assert r[0] == ys[0] && r[1..] == Merge(xs, ys[1..], picks[1..]);
      assert FromPipe(r, Stdout) == FromPipe(r[1..], Stdout);
      assert FromPipe(r, Stderr) == [ys[0]] + FromPipe(r[1..], Stderr);
      assert ys == [ys[0]] + ys[1..];
    } else {
      LabelsDiffer(xs[0]);
      var rest := if picks == [] then [] else picks[1..];
      MergeKeepsEachPipe(xs[1..], ys, rest);
      var r := Merge(xs, ys, picks);
      assert r[0] == xs[0] && r[1..] == Merge(xs[1..], ys, rest);
      assert FromPipe(r, Stdout) == [xs[0]] + FromPipe(r[1..], Stdout);
      assert FromPipe(r, Stderr) == FromPipe(r[1..], Stderr);
      assert xs == [xs[0]] + xs[1..];
    }
  }

  // ---------------------------------------------------------------------
  // The supervisor object

  class ServerManager {
    const fs: FileSystem
    const baseDir: Path
    var servedFolder: Path
    var process: Option<Child>
    var isRunning: bool
    var stopEvent: bool
    var stdoutReader: bool
    var stderrReader: bool
    var logQueue: seq<string>
    var sink: seq<LogLine>
    var signals: seq<Signal>
    var launches: seq<string>

    function State(): ManagerState
      reads this
    {
      ManagerState(servedFolder, process, isRunning, stopEvent, stdoutReader, stderrReader,
                   logQueue, sink, signals, launches)
    }

    constructor (fs: FileSystem, baseDir: Path, servedFolder: Path)
      ensures this.fs == fs && this.baseDir == baseDir
      ensures State() == Initial(servedFolder)
    {
      this.fs := fs;
      this.baseDir := baseDir;
      this.servedFolder := servedFolder;
      process := None;
      isRunning := false;
      stopEvent := false;
      stdoutReader, stderrReader := false, false;
      logQueue, sink, signals, launches := [], [], [], [];
    }

    /** `get_status` */
    function GetStatus(): Status
      reads this
    {
      StatusOf(process)
    }

    /** `get_connected_ips_from_log` */
    function GetConnectedIpsFromLog(): set<string>
      reads this, fs
    {
      GetConnectedIps(fs, ConnectedIpsLogPath(baseDir))
    }

    /** `start`: the connected-IP log is cleared exactly when the start gets past
        its two early refusals. */
    method Start(launch: Launch) returns (ok: bool)
      modifies this, fs
      ensures State() == StartStep(old(State()), ServerScriptPath(baseDir),
                                   old(fs.IsFile(ServerScriptPath(baseDir))), launch).0
      ensures ok == StartStep(old(State()), ServerScriptPath(baseDir),
                              old(fs.IsFile(ServerScriptPath(baseDir))), launch).1
      ensures fs.dirs == old(fs.dirs)
      ensures fs.files == if !old(isRunning) && old(fs.IsFile(ServerScriptPath(baseDir)))
                                 && old(fs.CanOpenForWriting(ConnectedIpsLogPath(baseDir)))
                          then old(fs.files)[ConnectedIpsLogPath(baseDir) := []]
                          else old(fs.files)
    {
      if isRunning {
        sink := sink + [Say(AlreadyRunning)];
        return false;
      }
      var script := ServerScriptPath(baseDir);
      if !fs.IsFile(script) {
        sink := sink + [Say(ScriptNotFound(script))];
        return false;
      }
      sink := sink + [Say(Starting)];
      ClearConnectedIpsLog(fs, ConnectedIpsLogPath(baseDir));
      sink := sink + [Say(SpawningProcess(script))];
      sink := sink + [Say(ServingFolder(servedFolder))];
      ok := LaunchChild(launch);
    }

    /** The `try` block of `start`, after its announcements: the launch and the
        grace-period check, with the clean-up of a failure. */
    method LaunchChild(launch: Launch) returns (ok: bool)
      modifies this
      ensures State() == LaunchStep(old(State()), launch).0
      ensures ok == LaunchStep(old(State()), launch).1
    {
      ghost var announced := State();
      if launch == SpawnRaises {
        sink := sink + [Say(StartError)];
        CleanupProcessResources();
        isRunning := false;
        return false;
      }
      process := Some(Alive);
      launches := launches + [Render(servedFolder)];
      sink := sink + [Say(ProcessStarted)];
      stopEvent := false;
      stdoutReader, stderrReader := true, true;
      assert State() == Spawned(announced);
      if launch.DiesDuringGrace? {
        process := Some(Exited(launch.code));
        sink := sink + [Say(ExitedDuringStart(launch.code))];
        CleanupProcessResources();
        isRunning := false;
        return false;
      }
      isRunning := true;
      sink := sink + [Say(ServerIsRunning)];
      ok := true;
    }

    /** `stop` */
    method Stop(how: Termination)
      modifies this
      ensures State() == StopStep(old(State()), how)
    {
      StopProcess(how);
      CleanupProcessResources();
      isRunning := false;
      sink := sink + [Say(ServerStopped)];
    }

    /** `_stop_process` */
    method StopProcess(how: Termination)
      modifies this
      ensures State() == StopProcessStep(old(State()), how)
    {
      if process == Some(Alive) {
        sink := sink + [Say(StoppingProcess)];
        stopEvent := true;
        match how
        case Graceful(c) =>
          signals := signals + [Term];
          process := Some(Exited(c));
          sink := sink + [Say(TerminatedGracefully)];
        case Killed(c) =>
          signals := signals + [Term];
          sink := sink + [Say(KillingProcess)];
          signals := signals + [Kill];
          process := Some(Exited(c));
          sink := sink + [Say(ProcessKilled)];
        case SignalFails =>
          sink := sink + [Say(TerminationError)];
      } else if process.Some? {
        sink := sink + [Say(AlreadyStopped(process.value.code))];
      } else {
        sink := sink + [Say(NoProcess)];
      }
    }

    /** `_cleanup_process_resources` */
    method CleanupProcessResources()
      modifies this
      ensures State() == Cleaned(old(State()))
    {
      process := None;
      stdoutReader, stderrReader := false, false;
    }

    /** `set_served_folder` */
    method SetServedFolder(folder: Path) returns (ok: bool)
      modifies this
      ensures State() == SetServedFolderStep(old(State()), folder, fs.IsDir(folder)).0
      ensures ok == SetServedFolderStep(old(State()), folder, fs.IsDir(folder)).1
    {
      if isRunning {
        sink := sink + [Say(FolderLocked)];
        return false;
      }
      if !fs.IsDir(folder) {
        sink := sink + [Say(NotADirectory(folder))];
        return false;
      }
      servedFolder := folder;
      sink := sink + [Say(FolderSet(folder))];
      ok := true;
    }

    /** `process_log_queue`: drains the queue, then relays each message. */
    method ProcessLogQueue()
      modifies this
      ensures State() == ProcessLogQueueStep(old(State()))
    {
      var messages := DrainLogQueue();
      ghost var drained := State();
      var i := 0;
      while i < |messages|
        invariant 0 <= i <= |messages|
        invariant sink == drained.sink + Relayed(messages[..i])
        invariant servedFolder == drained.servedFolder && process == drained.process
        invariant isRunning == drained.isRunning && stopEvent == drained.stopEvent
        invariant stdoutReader == drained.stdoutReader && stderrReader == drained.stderrReader
        invariant logQueue == [] && signals == drained.signals && launches == drained.launches
      {
        RelayedStep(messages, i);
        sink := sink + [Relay(messages[i])];
        i := i + 1;
      }
      assert messages[..|messages|] == messages;
    }

    /** The first loop of `process_log_queue`: takes messages off the queue,
        oldest first, until it is empty. */
    method DrainLogQueue() returns (messages: seq<string>)
      modifies this
      ensures messages == old(logQueue)
      ensures State() == old(State()).(logQueue := [])
    {
      messages := [];
      while logQueue != []
        invariant messages + logQueue == old(logQueue)
        invariant State() == old(State()).(logQueue := logQueue)
        decreases |logQueue|
      {
        messages := messages + [logQueue[0]];
        logQueue := logQueue[1..];
      }
    }

    /** `shutdown` */
    method Shutdown(how: Termination)
      modifies this
      ensures State() == ShutdownStep(old(State()), how)
    {
      Stop(how);
      sink := sink + [Say(ShutDownComplete)];
    }

    /** The child exits on its own. */
    method ChildExits(code: int)
      requires process == Some(Alive)
      modifies this
      ensures State() == old(State()).(process := Some(Exited(code)))
    {
      process := Some(Exited(code));
    }

    /** The two reader threads push what they read from the child's pipes; the
        queue receives some interleaving of the two. */
    method ReadersDeliver(outLines: seq<string>, errLines: seq<string>, outStop: nat, errStop: nat, picks: seq<bool>)
      modifies this
      ensures State() == old(State()).(logQueue := old(logQueue) + Merge(
                Tagged(Stdout, outLines[..if outStop < |outLines| then outStop else |outLines|]),
                Tagged(Stderr, errLines[..if errStop < |errLines| then errStop else |errLines|]), picks))
    {
      var fromOut := ReadPipe(outLines, Stdout, outStop);
      var fromErr := ReadPipe(errLines, Stderr, errStop);
      logQueue := logQueue + Merge(fromOut, fromErr, picks);
    }
  }
}
