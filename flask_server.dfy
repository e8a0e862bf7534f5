/** The HTTP file server's own logic: which folder it serves, the per-request
    hook that logs each client address once per session and refuses blocked
    clients, and the guard that keeps file requests inside the served folder.
    Routing, templates and the sending of files are the web framework's. */
module FlaskServer {
  import opened Options
  import opened Text
  import opened Paths
  import opened Disk
  import opened Config
  import opened FileUtils

  // ---------------------------------------------------------------------
  // The served folder

  /** The folder name taken from `FLASK_SERVE_FOLDER`, or the default name when
      the variable is not set. */
  function FolderName(env: Option<string>): string {
    if env.Some? then env.value else DefaultFolderName
  }

  /** The served folder: the default name resolves against the project root
      (the parent of the server's directory), any other name against the base
      directory. */
  function ServedDir(env: Option<string>, projectRoot: Path, baseDir: Path): Path
  {
    var name := FolderName(env);
    if name == DefaultFolderName then Resolve(projectRoot, name) else Resolve(baseDir, name)
  }

  /** A text without `/` is a single piece. */
  lemma SplitName(a: string)
    requires '/' !in a
    ensures Split(a) == [a]
  {
    SplitAfterName(a, []);
    assert a + [] == a;
  }

  /** Without the variable the server serves the default folder of the project
      root; the variable set to the default name gives the same folder. */
  lemma ServedDirDefault(projectRoot: Path, baseDir: Path)
    ensures ServedDir(None, projectRoot, baseDir) == DefaultServePath(projectRoot)
    ensures ServedDir(Some(DefaultFolderName), projectRoot, baseDir) == DefaultServePath(projectRoot)
  {
    SplitName(DefaultFolderName);
    assert Walk(projectRoot, [DefaultFolderName]) == Walk(projectRoot + [DefaultFolderName], []);
  }

  /** The supervisor hands the server the text of a resolved folder; the server
      serves exactly that folder, wherever it was started. */
  lemma ServedDirOfRendered(p: Path, projectRoot: Path, baseDir: Path)
    requires Normal(p)
    ensures ServedDir(Some(Render(p)), projectRoot, baseDir) == p
  {
    assert Render(p)[0] == '/' != DefaultFolderName[0];
    ResolveRender(baseDir, p);
  }

  /** The start-up steps before serving, given the folder name and the served
      folder `ServedDir` chose: make the log directory, make sure both log files
      exist, create the folder when it is missing and the name is the default,
      and go on only if the folder is a directory. Any failure ends the process:
      a failed step of the first three raises, the last two exit with status 1. */
  method Startup(fs: FileSystem, folderName: string, fileDir: Path, baseDir: Path) returns (serving: bool)
    modifies fs
    ensures serving ==> fs.IsDir(fileDir)
    ensures serving ==> fs.Exists(ConnectedIpsLogPath(baseDir)) && fs.Exists(BlockedIpsFilePath(baseDir))
    ensures forall p :: p in old(fs.files) ==> p in fs.files && fs.files[p] == old(fs.files)[p]
    ensures (old(fs.IsDir(fileDir)) && old(fs.CanMakeDirs(LogDir(baseDir))) &&
             old(fs.Exists(ConnectedIpsLogPath(baseDir))) && old(fs.Exists(BlockedIpsFilePath(baseDir)))) ==> serving
    ensures (old(fs.CanMakeDirs(LogDir(baseDir))) && folderName == DefaultFolderName &&
             !old(fs.Exists(fileDir)) && old(fs.CanMakeDirs(fileDir)) &&
             ConnectedIpsLogPath(baseDir) !in Ancestry(fileDir) && BlockedIpsFilePath(baseDir) !in Ancestry(fileDir))
            ==> serving && fs.IsDir(fileDir)
  {
    ghost var files0 := fs.files;
    serving := false;
    var log := ConnectedIpsLogPath(baseDir);
    var blocked := BlockedIpsFilePath(baseDir);
    var ok := fs.MakeDirs(LogDir(baseDir));
    if ok {
      assert LogDir(baseDir)[..|LogDir(baseDir)|] == LogDir(baseDir);
      assert Parent(log) == Parent(blocked) == LogDir(baseDir);
      ok := fs.Touch(log);
    }
    ghost var files1 := fs.files;
    assert forall p :: p in files0 ==> p in files1 && files1[p] == files0[p];
    if ok {
      ok := fs.Touch(blocked);
    }
    assert forall p :: p in files1 ==> p in fs.files && fs.files[p] == files1[p];
    assert log !in Ancestry(fileDir) && blocked !in Ancestry(fileDir) && old(fs.CanMakeDirs(fileDir)) ==>
           fs.CanMakeDirs(fileDir);
    if ok && !fs.Exists(fileDir) && folderName == DefaultFolderName {
      ok := fs.MakeDirs(fileDir);
      assert fileDir != [] ==> fileDir[..|fileDir|] == fileDir;
    }
    serving := ok && fs.IsDir(fileDir);
  }

  // ---------------------------------------------------------------------
  // Logging each client once per session

  /** One call of `server_log_ip` on the session set `seen`: the new set and the
      text appended to the connected-IP log. */
  function LogIp(seen: set<string>, ip: string): (set<string>, string)
  {
    if ip in seen then (seen, []) else (seen + {ip}, ip + "\n")
  }

  /** The addresses written to the log by a run of requests, in order: those
      for which `LogIp` appends a line. */
  function Written(seen: set<string>, ips: seq<string>): seq<string>
    decreases |ips|
  {
    if ips == [] then []
    else
      var (after, text) := LogIp(seen, ips[0]);
      (if text != [] then [ips[0]] else []) + Written(after, ips[1..])
  }

  /** The session set after a run of requests. */
  function SessionAfter(seen: set<string>, ips: seq<string>): set<string>
    decreases |ips|
  {
    if ips == [] then seen else SessionAfter(LogIp(seen, ips[0]).0, ips[1..])
  }

  /** Within a session an address is written at most once, never one the
      session had already seen, and every new address is written. */
  lemma {:induction false} WrittenOncePerSession(seen: set<string>, ips: seq<string>)
    ensures forall i, j :: 0 <= i < j < |Written(seen, ips)| ==> Written(seen, ips)[i] != Written(seen, ips)[j]
    ensures forall w :: w in Written(seen, ips) <==> w in ips && w !in seen
    ensures SessionAfter(seen, ips) == seen + set w | w in ips
    decreases |ips|
  {
    if ips != [] {
      var ip, rest := ips[0], ips[1..];
      if ip in seen {
        WrittenOncePerSession(seen, rest);
        assert forall w :: w in ips <==> w == ip || w in rest;
      } else {
        var seen' := seen + {ip};
        WrittenOncePerSession(seen', rest);
        var tail := Written(seen', rest);
        assert ip !in tail;
        var ws := [ip] + tail;
        forall i, j | 0 <= i < j < |ws| ensures ws[i] != ws[j] {
          if i == 0 {
            assert ws[j] == tail[j - 1];
          } else {
            assert ws[i] == tail[i - 1] && ws[j] == tail[j - 1];
          }
        }
        assert forall w :: w in ips <==> w == ip || w in rest;
      }
    }
  }

  /** The verdict of the per-request hook. */
  datatype Verdict = Proceed | Forbidden

  /** The server process's own state: its session set of logged addresses, with
      the filesystem it logs to. */
  class RequestGate {
    const fs: FileSystem
    const baseDir: Path
    var loggedIpsSession: set<string>

    constructor (fs: FileSystem, baseDir: Path)
      ensures this.fs == fs && this.baseDir == baseDir && loggedIpsSession == {}
    {
      this.fs := fs;
      this.baseDir := baseDir;
      loggedIpsSession := {};
    }

    /** Every address of the session is listed in the connected-IP log, and
        the log can take another line. */
    predicate LogCovers()
      reads this, fs
    {
      && loggedIpsSession <= GetConnectedIps(fs, ConnectedIpsLogPath(baseDir))
      && AppendReady(fs.Content(ConnectedIpsLogPath(baseDir)))
    }

    /** `server_log_ip`: the address joins the session even when the write
        fails; the log is appended to only on the address's first sight, and
        then lists the address. */
    method ServerLogIp(ip: string)
      modifies this, fs
      ensures loggedIpsSession == LogIp(old(loggedIpsSession), ip).0
      ensures var log := ConnectedIpsLogPath(baseDir);
              fs.files == if LogIp(old(loggedIpsSession), ip).1 != [] && old(fs.CanOpenForWriting(log))
                          then old(fs.files)[log := old(fs.Content(log)) + LogIp(old(loggedIpsSession), ip).1]
                          else old(fs.files)
      ensures fs.dirs == old(fs.dirs)
      ensures var log := ConnectedIpsLogPath(baseDir);
              (old(fs.CanOpenForWriting(log)) && old(AppendReady(fs.Content(log))) && Loggable(ip)) ==>
                GetConnectedIps(fs, log) == old(GetConnectedIps(fs, log)) + (if ip in old(loggedIpsSession) then {} else {ip})
      ensures old(LogCovers()) && old(fs.CanOpenForWriting(ConnectedIpsLogPath(baseDir))) && Loggable(ip) ==>
                LogCovers() && ip in GetConnectedIps(fs, ConnectedIpsLogPath(baseDir))
    {
      var log := ConnectedIpsLogPath(baseDir);
      if ip !in loggedIpsSession {
        loggedIpsSession := loggedIpsSession + {ip};
        ghost var before := fs.Content(log);
        ghost var listed := GetConnectedIps(fs, log);
        ghost var writable := fs.CanOpenForWriting(log);
        var _ := fs.Append(log, ip + "\n");
        if writable && AppendReady(before) && Loggable(ip) {
          assert listed == ConnectedIps(before);
          ConnectedIpsOfAppend(before, ip);
          assert fs.Content(log) == before + (ip + "\n");
        }
      }
    }

    /** `check_blocklist_and_log_ip`: the address is logged first, whatever the
        verdict; the request is refused exactly when the blocklist read at that
        moment lists it. */
    method CheckBlocklistAndLogIp(ip: string) returns (verdict: Verdict)
      modifies this, fs
      ensures verdict == Forbidden <==> ip in old(GetBlockedIps(fs, BlockedIpsFilePath(baseDir)))
      ensures loggedIpsSession == old(loggedIpsSession) + {ip}
      ensures var log := ConnectedIpsLogPath(baseDir);
              fs.files == if ip !in old(loggedIpsSession) && old(fs.CanOpenForWriting(log))
                          then old(fs.files)[log := old(fs.Content(log)) + (ip + "\n")]
                          else old(fs.files)
      ensures fs.dirs == old(fs.dirs)
      ensures old(LogCovers()) && old(fs.CanOpenForWriting(ConnectedIpsLogPath(baseDir))) && Loggable(ip) ==>
                LogCovers() && ip in GetConnectedIps(fs, ConnectedIpsLogPath(baseDir))
    {
      ServerLogIp(ip);
      assert ConnectedIpsLogPath(baseDir) != BlockedIpsFilePath(baseDir) by {
        assert ConnectedIpsLogPath(baseDir)[|baseDir| + 1] == "connected_ips.log";
        assert BlockedIpsFilePath(baseDir)[|baseDir| + 1] == "blocked_ips.txt";
      }
      var blocked := GetBlockedIps(fs, BlockedIpsFilePath(baseDir));
      verdict := if ip in blocked then Forbidden else Proceed;
    }

    /** Running the server script: the connected-IP log and the session set both
        start out empty. */
    method RunAsMain()
      modifies this, fs
      ensures loggedIpsSession == {}
      ensures var log := ConnectedIpsLogPath(baseDir);
              fs.files == if old(fs.CanOpenForWriting(log)) then old(fs.files)[log := []] else old(fs.files)
      ensures fs.dirs == old(fs.dirs)
      ensures old(fs.CanOpenForWriting(ConnectedIpsLogPath(baseDir))) ==> LogCovers()
    {
      ClearConnectedIpsLog(fs, ConnectedIpsLogPath(baseDir));
      loggedIpsSession := {};
    }
  }

  // ---------------------------------------------------------------------
  // File requests

  /** What a file request gets: the file (shown in the browser, or as a
      download), or an HTTP error status. */
  datatype Reply = SendFile(path: Path, attachment: bool) | ErrorStatus(code: int)

  /** An exception raised inside a file route's `try`: the `HTTPException` of
      `abort(code)`, or a `FileNotFoundError`. */
  datatype Raised = HttpError(code: int) | FileMissing

  /** How the `try` block of a file route ends: with a reply, or by raising. */
  datatype Attempt = Returned(reply: Reply) | Threw(error: Raised)

  /** The `try` block of `open_file` and `download_file`: the requested name is
      resolved under the served folder, and anything but an existing file inside
      that folder is refused with `abort(404)`; otherwise the file is sent. */
  function Guard(fs: FileSystem, fileDir: Path, filename: string, attachment: bool): (a: Attempt)
    reads fs
    ensures a.Threw? <==> !(fs.IsFile(Resolve(fileDir, filename)) && Within(fileDir, Resolve(fileDir, filename)))
    ensures a.Threw? ==> a.error == HttpError(404)
    ensures a.Returned? ==> a.reply == SendFile(Resolve(fileDir, filename), attachment)
  {
    var requested := Resolve(fileDir, filename);
    if !fs.IsFile(requested) || !Within(fileDir, requested) then Threw(HttpError(404))
    else Returned(SendFile(requested, attachment))
  }

  /** The `except` clauses of a file route as written: `FileNotFoundError` gives
      404, and `except Exception` catches every other exception, the
      `HTTPException` of the guard's `abort(404)` included, and gives 500. */
  function Handled(a: Attempt): Reply {
    match a
    case Returned(reply) => reply
    case Threw(FileMissing) => ErrorStatus(404)
    case Threw(HttpError(_)) => ErrorStatus(500)
  }

  /** The `except` clauses as evidently intended: an HTTP error raised by the
      guard keeps its status. */
  function HandledIntended(a: Attempt): Reply {
    match a
    case Returned(reply) => reply
    case Threw(FileMissing) => ErrorStatus(404)
    case Threw(HttpError(code)) => ErrorStatus(code)
  }

  /** A file route as written: a file is sent exactly when the resolved name is
      an existing file inside the served folder; every refusal answers 500. */
  function ServeFile(fs: FileSystem, fileDir: Path, filename: string, attachment: bool): (r: Reply)
    reads fs
    ensures r.SendFile? <==> fs.IsFile(Resolve(fileDir, filename)) && Within(fileDir, Resolve(fileDir, filename))
    ensures r.SendFile? ==> r.path == Resolve(fileDir, filename) && r.attachment == attachment
    ensures !r.SendFile? ==> r == ErrorStatus(500)
  {
    Handled(Guard(fs, fileDir, filename, attachment))
  }

  /** A file route as evidently intended: the same files are sent, and every
      refusal answers 404. */
  function ServeFileIntended(fs: FileSystem, fileDir: Path, filename: string, attachment: bool): (r: Reply)
    reads fs
    ensures r.SendFile? <==> fs.IsFile(Resolve(fileDir, filename)) && Within(fileDir, Resolve(fileDir, filename))
    ensures r.SendFile? ==> r.path == Resolve(fileDir, filename) && r.attachment == attachment
    ensures !r.SendFile? ==> r == ErrorStatus(404)
  {
    HandledIntended(Guard(fs, fileDir, filename, attachment))
  }

  /** The routes as written and as intended differ exactly on refusals: the
      guard's 404 is answered as 500. */
  lemma RefusalAnswers500(fs: FileSystem, fileDir: Path, filename: string, attachment: bool)
    ensures ServeFile(fs, fileDir, filename, attachment) == ServeFileIntended(fs, fileDir, filename, attachment)
            <==> ServeFile(fs, fileDir, filename, attachment).SendFile?
    ensures !fs.IsFile(Resolve(fileDir, filename)) ==>
              ServeFile(fs, fileDir, filename, attachment) == ErrorStatus(500) &&
              ServeFileIntended(fs, fileDir, filename, attachment) == ErrorStatus(404)
  {
  }

  /** `open_file` */
  function OpenFile(fs: FileSystem, fileDir: Path, filename: string): Reply
    reads fs
  {
    ServeFile(fs, fileDir, filename, false)
  }

  /** `download_file` */
  function DownloadFile(fs: FileSystem, fileDir: Path, filename: string): Reply
    reads fs
  {
    ServeFile(fs, fileDir, filename, true)
  }

  /** Nothing outside the served folder is ever sent, by either route, and both
      routes accept the same names. */
  lemma NothingOutsideIsSent(fs: FileSystem, fileDir: Path, filename: string)
    ensures OpenFile(fs, fileDir, filename).SendFile? ==>
              Within(fileDir, OpenFile(fs, fileDir, filename).path) && fs.IsFile(OpenFile(fs, fileDir, filename).path)
    ensures DownloadFile(fs, fileDir, filename).SendFile? ==>
              Within(fileDir, DownloadFile(fs, fileDir, filename).path) && fs.IsFile(DownloadFile(fs, fileDir, filename).path)
    ensures OpenFile(fs, fileDir, filename).SendFile? <==> DownloadFile(fs, fileDir, filename).SendFile?
  {
  }

  /** A relative name without `..` never leaves the folder, so it is served
      exactly when it names an existing file. */
  lemma PlainNameServedIffFile(fs: FileSystem, fileDir: Path, filename: string)
    requires !IsAbsolute(filename) && ".." !in Split(filename)
    ensures OpenFile(fs, fileDir, filename).SendFile? <==> fs.IsFile(Resolve(fileDir, filename))
  {
    ResolveDescends(fileDir, filename);
  }

  /** Climbing out of the folder is refused even when the file exists:
      `../name` names a sibling of the folder, not something inside it. The
      route answers 500 where 404 was intended. */
  lemma EscapeRefused(fs: FileSystem, fileDir: Path, name: string)
    requires fileDir != [] && IsComponent(name) && fileDir[|fileDir| - 1] != name
    ensures OpenFile(fs, fileDir, "../" + name) == ErrorStatus(500)
    ensures ServeFileIntended(fs, fileDir, "../" + name, false) == ErrorStatus(404)
  {
    var request := "../" + name;
    assert Split(request) == ["..", name] by {
      var after := "/" + name;
      assert request == ".." + after;
      SplitName(name);
      assert after[0] == '/' && after[1..] == name;
      assert Split(after) == [[]] + [name];
      SplitAfterName("..", after);
      assert Split(after)[0] == [] && Split(after)[1..] == [name];
      assert ".." + [] == "..";
    }
    var up := Parent(fileDir);
    assert Resolve(fileDir, request) == up + [name] by {
      assert !IsAbsolute(request);
      assert Walk(fileDir, ["..", name]) == Walk(up, [name]);
      assert Walk(up, [name]) == Walk(up + [name], []);
    }
    var r := up + [name];
    assert r[|fileDir| - 1] == name;
  }
}
