/** The flat-file store: the IP blocklist, the connected-IP log and the
    served-folder setting. Reading a file is a function of its content; every
    operation that writes is a method over the filesystem. An `OSError` is caught
    by the source and only reported, so here it leaves the files as they were. */
module FileUtils {
  import opened Text
  import opened Paths
  import opened Disk
  import opened Options

  // ---------------------------------------------------------------------
  // The blocklist and the connected-IP log, read

  /** A blocklist entry: a stripped line that is neither empty nor a `#` comment. */
  predicate IsEntry(t: string) {
    t != [] && t[0] != '#'
  }

  /** The addresses a blocklist file's content lists. */
  function BlockedIps(content: string): set<string>
  {
    set l | l in Lines(content) && IsEntry(Strip(l)) :: Strip(l)
  }

  /** The addresses a connected-IP log's content lists: no comments here. */
  function ConnectedIps(content: string): set<string>
  {
    set l | l in Lines(content) && Strip(l) != [] :: Strip(l)
  }

  /** `get_blocked_ips`: a missing file (or a directory) lists nothing. */
  function GetBlockedIps(fs: FileSystem, path: Path): (r: set<string>)
    reads fs
    ensures !fs.IsFile(path) ==> r == {}
    ensures fs.IsFile(path) ==> r == BlockedIps(fs.files[path])
  {
    if fs.IsFile(path) then BlockedIps(fs.files[path]) else {}
  }

  /** `get_connected_ips` */
  function GetConnectedIps(fs: FileSystem, path: Path): (r: set<string>)
    reads fs
    ensures !fs.IsFile(path) ==> r == {}
    ensures fs.IsFile(path) ==> r == ConnectedIps(fs.files[path])
  {
    if fs.IsFile(path) then ConnectedIps(fs.files[path]) else {}
  }

  /** An address that, once written on a line of its own, reads back as itself:
      it is an entry, has no surrounding whitespace and no line break. */
  predicate Storable(ip: string) {
    IsEntry(ip) && Stripped(ip) && '\n' !in ip
  }

  /** Content to which a new line can be appended as a line of its own. */
  predicate AppendReady(content: string) {
    content == [] || Terminated(content)
  }

  /** Content that can take an appended line lists what its parts list. */
  lemma BlockedIpsOfParts(a: string, b: string)
    requires AppendReady(a)
    ensures BlockedIps(a + b) == BlockedIps(a) + BlockedIps(b)
  {
    LinesAppend(a, b);
  }

  /** Content of one line lists its stripped text when that is an entry, and
      nothing otherwise. */
  lemma BlockedIpsOfOneLine(l: string)
    requires IsLine(l)
    ensures BlockedIps(l) == if IsEntry(Strip(l)) then {Strip(l)} else {}
  {
    LinesOfLine(l, []);
    assert l + [] == l;
    assert Lines(l) == [l];
  }

  /** A storable address on a line of its own lists exactly that address. */
  lemma BlockedIpsOfLine(ip: string)
    requires Storable(ip)
    ensures BlockedIps(ip + "\n") == {ip}
  {
    LineOfText(ip);
    StripLineBreak(ip);
    BlockedIpsOfOneLine(ip + "\n");
  }

  /** A line whose stripped text starts with `#` lists nothing, whatever
      whitespace surrounds the comment. */
  lemma BlockedIpsOfCommentLine(l: string)
    requires IsLine(l) && Strip(l) != [] && Strip(l)[0] == '#'
    ensures BlockedIps(l) == {}
  {
    BlockedIpsOfOneLine(l);
  }

  /** A line of whitespace only, the bare line break included, lists nothing. */
  lemma BlockedIpsOfBlankLine(l: string)
    requires IsLine(l) && Strip(l) == []
    ensures BlockedIps(l) == {}
  {
    BlockedIpsOfOneLine(l);
  }

  /** A comment line, an address and a blank line list just that address. */
  lemma BlockedIpsSkipsCommentsAndBlanks(comment: string, ip: string)
    requires comment != [] && comment[0] == '#' && Stripped(comment) && '\n' !in comment
    requires Storable(ip)
    ensures BlockedIps(comment + "\n" + (ip + "\n") + "\n") == {ip}
  {
    var c, a, b := comment + "\n", ip + "\n", "\n";
    LineOfText(comment);
    StripLineBreak(comment);
    BlockedIpsOfCommentLine(c);
    assert StripLeft(b) == [];
    BlockedIpsOfBlankLine(b);
    assert BlockedIps(c + a) == {ip} by {
      BlockedIpsOfLine(ip);
      BlockedIpsOfParts(c, a);
    }
    assert Terminated(c + a) by {
      assert (c + a)[|c + a| - 1] == a[|a| - 1];
    }
    BlockedIpsOfParts(c + a, b);
  }

  /** Appending `ip` on a line of its own adds exactly `ip` to the blocklist. */
  lemma AppendedEntryIsBlocked(content: string, ip: string)
    requires AppendReady(content) && Storable(ip)
    ensures BlockedIps(content + (ip + "\n")) == BlockedIps(content) + {ip}
  {
    BlockedIpsOfParts(content, ip + "\n");
    BlockedIpsOfLine(ip);
  }

  /** An address that, once written on a line of its own, reads back from the
      connected-IP log as itself. */
  predicate Loggable(ip: string) {
    ip != [] && Stripped(ip) && '\n' !in ip
  }

  /** Appending `ip` on a line of its own adds exactly `ip` to what the
      connected-IP log lists. */
  lemma ConnectedIpsOfAppend(content: string, ip: string)
    requires AppendReady(content) && Loggable(ip)
    ensures ConnectedIps(content + (ip + "\n")) == ConnectedIps(content) + {ip}
  {
    LinesAppend(content, ip + "\n");
    LineOfText(ip);
    StripLineBreak(ip);
    LinesOfLine(ip + "\n", []);
    assert ip + "\n" + [] == ip + "\n";
    assert Lines(ip + "\n") == [ip + "\n"];
  }

  // ---------------------------------------------------------------------
  // Removal: the lines kept and what they list

  /** The lines `remove_blocked_ip` writes back: those whose stripped text is not `ip`. */
  function KeptLines(ls: seq<string>, ip: string): seq<string>
  {
    if ls == [] then []
    else KeptLines(ls[..|ls| - 1], ip) + (if Strip(ls[|ls| - 1]) != ip then [ls[|ls| - 1]] else [])
  }

  /** The kept lines are exactly the lines whose stripped text is not `ip`. */
  lemma {:induction false} KeptLinesMembers(ls: seq<string>, ip: string)
    ensures forall l :: l in KeptLines(ls, ip) <==> l in ls && Strip(l) != ip
  {
    if ls != [] {
      var init, last := ls[..|ls| - 1], ls[|ls| - 1];
      KeptLinesMembers(init, ip);
      assert ls == init + [last];
    }
  }

  /** Keeping only terminated lines keeps only terminated lines. */
  lemma {:induction false} KeptLinesTerminated(ls: seq<string>, ip: string)
    requires forall i :: 0 <= i < |ls| ==> Terminated(ls[i])
    ensures forall j :: 0 <= j < |KeptLines(ls, ip)| ==> Terminated(KeptLines(ls, ip)[j])
  {
    if ls != [] {
      var init := ls[..|ls| - 1];
      assert forall i :: 0 <= i < |init| ==> init[i] == ls[i];
      KeptLinesTerminated(init, ip);
    }
  }

  /** The kept lines of a file's lines again form a file's lines: the one line
      that may lack its line break stays last. */
  lemma {:induction false} KeptLinesWellFormed(ls: seq<string>, ip: string)
    requires WellFormed(ls)
    ensures WellFormed(KeptLines(ls, ip))
  {
    if ls != [] {
      var init, last := ls[..|ls| - 1], ls[|ls| - 1];
      assert forall i :: 0 <= i < |init| ==> init[i] == ls[i];
      KeptLinesWellFormed(init, ip);
      if Strip(last) != ip {
        var k := KeptLines(init, ip);
        KeptLinesTerminated(init, ip);
        assert KeptLines(ls, ip) == k + [last];
        WellFormedJoin(k, [last]);
      }
    }
  }

  /** What `remove_blocked_ip` writes: the kept lines, joined. */
  function RemovedContent(content: string, ip: string): string
  {
    Concat(KeptLines(Lines(content), ip))
  }

  /** After a removal the file holds, verbatim and in order, every line whose
      stripped text is not `ip` (comment lines included) and nothing else. */
  lemma RemovedLines(content: string, ip: string)
    ensures Lines(RemovedContent(content, ip)) == KeptLines(Lines(content), ip)
  {
    LinesJoin(content);
    LinesWellFormed(content);
    KeptLinesWellFormed(Lines(content), ip);
    ConcatLines(KeptLines(Lines(content), ip));
  }

  /** A removal takes `ip` out of the blocklist, every copy of it, and nothing else. */
  lemma RemovedBlocked(content: string, ip: string)
    ensures BlockedIps(RemovedContent(content, ip)) == BlockedIps(content) - {ip}
  {
    RemovedLines(content, ip);
    KeptLinesMembers(Lines(content), ip);
  }

  /** A removal keeps a file that is empty or ends with a line break that way,
      so an address added after it still lands on a line of its own. */
  lemma RemovedAppendReady(content: string, ip: string)
    requires AppendReady(content)
    ensures AppendReady(RemovedContent(content, ip))
  {
    var ls := Lines(content);
    LinesWellFormed(content);
    if content != [] {
      assert forall i :: 0 <= i < |ls| ==> Terminated(ls[i]) by {
        forall i | 0 <= i < |ls| ensures Terminated(ls[i]) {
          if i == |ls| - 1 {
            assert Terminated(ls[|ls| - 1]);
          }
        }
      }
    }
    KeptLinesTerminated(ls, ip);
    ConcatTerminated(KeptLines(ls, ip));
  }

  // ---------------------------------------------------------------------
  // The blocklist, written

  /** The loop of `remove_blocked_ip` that collects the lines to keep. */
  method FilterLines(all: seq<string>, ip: string) returns (kept: seq<string>)
    ensures kept == KeptLines(all, ip)
  {
    kept := [];
    var i := 0;
    while i < |all|
      invariant 0 <= i <= |all|
      invariant kept == KeptLines(all[..i], ip)
    {
      assert all[..i + 1][..i] == all[..i];
      if Strip(all[i]) != ip {
        kept := kept + [all[i]];
      }
      i := i + 1;
    }
    assert all[..|all|] == all;
  }

  /** `add_blocked_ip`: re-reads the blocklist, and appends `ip` on a line of its
      own only when it is not listed yet. */
  method AddBlockedIp(fs: FileSystem, path: Path, ip: string) returns (ok: bool)
    modifies fs
    ensures ok <==> ip !in old(GetBlockedIps(fs, path)) && old(fs.CanOpenForWriting(path))
    ensures fs.files == if ok then old(fs.files)[path := old(fs.Content(path)) + (ip + "\n")] else old(fs.files)
    ensures fs.dirs == old(fs.dirs)
    ensures ok && Storable(ip) && AppendReady(old(fs.Content(path))) ==>
              GetBlockedIps(fs, path) == old(GetBlockedIps(fs, path)) + {ip}
    ensures ok ==> AppendReady(fs.Content(path))
  {
    var existing := GetBlockedIps(fs, path);
    if ip in existing {
      return false;
    }
    ghost var before := fs.Content(path);
    ok := fs.Append(path, ip + "\n");
    if ok {
      if Storable(ip) && AppendReady(before) {
        AppendedEntryIsBlocked(before, ip);
        assert !fs.IsFile(path) ==> before == [];
      }
      assert fs.Content(path) == before + (ip + "\n");
    }
  }

  /** `remove_blocked_ip`: re-reads the blocklist and, when `ip` is listed, rewrites
      the file with every line whose stripped text is not `ip`. */
  method RemoveBlockedIp(fs: FileSystem, path: Path, ip: string) returns (ok: bool)
    modifies fs
    ensures ok <==> ip in old(GetBlockedIps(fs, path)) && old(fs.CanOpenForWriting(path))
    ensures fs.files == if ok then old(fs.files)[path := RemovedContent(old(fs.Content(path)), ip)] else old(fs.files)
    ensures fs.dirs == old(fs.dirs)
    ensures ok ==> GetBlockedIps(fs, path) == old(GetBlockedIps(fs, path)) - {ip}
    ensures ok ==> Lines(fs.Content(path)) == KeptLines(Lines(old(fs.Content(path))), ip)
    ensures AppendReady(old(fs.Content(path))) ==> AppendReady(fs.Content(path))
  {
    var existing := GetBlockedIps(fs, path);
    if ip !in existing {
      return false;
    }
    var kept: seq<string> := [];
    ghost var content := fs.Content(path);
    if fs.IsFile(path) {
      kept := FilterLines(Lines(fs.files[path]), ip);
    }
    ok := fs.Write(path, Concat(kept));
    if ok {
      RemovedBlocked(content, ip);
      RemovedLines(content, ip);
      if AppendReady(content) {
        RemovedAppendReady(content, ip);
      }
    }
  }

  // ---------------------------------------------------------------------
  // The connected-IP log, written

  /** `clear_connected_ips_log`: truncates the log; a failure is only reported. */
  method ClearConnectedIpsLog(fs: FileSystem, path: Path)
    modifies fs
    ensures fs.files == if old(fs.CanOpenForWriting(path)) then old(fs.files)[path := []] else old(fs.files)
    ensures fs.dirs == old(fs.dirs)
    ensures old(fs.CanOpenForWriting(path)) ==> GetConnectedIps(fs, path) == {}
  {
    var _ := fs.Write(path, []);
  }

  // ---------------------------------------------------------------------
  // The served-folder setting

  /** Whether saving the setting at `settingPath` reaches the write: its parent
      directories can be made and the setting's own path is not a directory. */
  predicate SaveReaches(fs: FileSystem, settingPath: Path)
    reads fs
  {
    fs.CanMakeDirs(Parent(settingPath)) && settingPath != [] && settingPath !in fs.dirs
  }

  /** A resolved folder whose text survives `strip()`: its last name does not end
      in whitespace. */
  predicate KeepsItsText(p: Path) {
    Normal(p) && (p != [] ==> !IsSpace(p[|p| - 1][|p[|p| - 1]| - 1]))
  }

  /** `save_served_folder_setting`: makes the setting's directory, then writes the
      folder's absolute path (resolved against the working directory `cwd`). */
  method SaveServedFolderSetting(fs: FileSystem, settingPath: Path, folder: string, cwd: Path)
    modifies fs
    ensures fs.dirs == if old(fs.CanMakeDirs(Parent(settingPath)))
                       then old(fs.dirs) + Ancestry(Parent(settingPath)) else old(fs.dirs)
    ensures fs.files == if old(SaveReaches(fs, settingPath))
                        then old(fs.files)[settingPath := Render(Resolve(cwd, folder))] else old(fs.files)
    ensures old(SaveReaches(fs, settingPath)) && Normal(cwd) && KeepsItsText(Resolve(cwd, folder)) ==>
              forall loadCwd :: LoadServedFolderSetting(fs, settingPath, loadCwd) ==
                (if fs.IsDir(Resolve(cwd, folder)) then Some(Render(Resolve(cwd, folder))) else None)
  {
    var parent := Parent(settingPath);
    assert settingPath != [] ==> settingPath !in Ancestry(parent);
    assert parent != [] ==> parent[..|parent|] == parent;
    var made := fs.MakeDirs(parent);
    if made {
      assert fs.IsDir(parent);
      var text := Render(Resolve(cwd, folder));
      var written := fs.Write(settingPath, text);
      if written && Normal(cwd) && KeepsItsText(Resolve(cwd, folder)) {
        ResolveNormal(cwd, folder);
        forall loadCwd: Path
          ensures LoadServedFolderSetting(fs, settingPath, loadCwd) ==
                    (if fs.IsDir(Resolve(cwd, folder)) then Some(text) else None)
        {
          LoadSavedFolder(fs, settingPath, loadCwd, Resolve(cwd, folder));
        }
      }
    }
  }

  /** `load_served_folder_setting`: nothing when the file is missing, when its
      stripped content is empty, or when that text names no directory. */
  function LoadServedFolderSetting(fs: FileSystem, settingPath: Path, cwd: Path): (r: Option<string>)
    reads fs
    ensures r.Some? ==> fs.IsFile(settingPath) && r.value == Strip(fs.files[settingPath])
    ensures r.Some? ==> r.value != [] && fs.IsDir(Resolve(cwd, r.value))
    ensures r.None? ==> !fs.IsFile(settingPath) || Strip(fs.files[settingPath]) == []
                        || !fs.IsDir(Resolve(cwd, Strip(fs.files[settingPath])))
  {
    if !fs.IsFile(settingPath) then None
    else
      var text := Strip(fs.files[settingPath]);
      if text == [] then None
      else if !fs.IsDir(Resolve(cwd, text)) then None
      else Some(text)
  }

  /** Loading a saved folder gives it back while the directory exists, and nothing
      once it is gone, from any working directory. */
  lemma LoadSavedFolder(fs: FileSystem, settingPath: Path, cwd: Path, p: Path)
    requires KeepsItsText(p)
    requires fs.IsFile(settingPath) && fs.files[settingPath] == Render(p)
    ensures LoadServedFolderSetting(fs, settingPath, cwd) == if fs.IsDir(p) then Some(Render(p)) else None
  {
    RenderStripped(p);
    ResolveRender(cwd, p);
  }

  /** A folder whose name ends in whitespace does not survive the round trip:
      the text read back names the folder without that character. */
  lemma TrailingSpaceIsLost(cwd: Path, parent: Path, name: string, c: char)
    requires Normal(parent) && IsComponent(name) && !IsSpace(name[|name| - 1]) && IsSpace(c)
    ensures !KeepsItsText(parent + [name + [c]])
    ensures Strip(Render(parent + [name + [c]])) == Render(parent + [name])
    ensures Resolve(cwd, Strip(Render(parent + [name + [c]]))) == parent + [name]
  {
    var kept, lost := parent + [name], parent + [name + [c]];
    assert Render(lost) == Render(kept) + [c] by {
      RenderTailSnoc(parent, name + [c]);
      RenderTailSnoc(parent, name);
    }
    assert Normal(kept) by {
      assert forall i :: 0 <= i < |parent| ==> kept[i] == parent[i];
    }
    assert kept[|kept| - 1] == name;
    RenderStripped(kept);
    StripTrailingSpace(Render(kept), c);
    ResolveRender(cwd, kept);
  }

  // ---------------------------------------------------------------------
  // Start-up helpers

  /** `ensure_file_exists`: creates a missing file, empty; leaves anything that
      exists alone. */
  method EnsureFileExists(fs: FileSystem, path: Path)
    modifies fs
    ensures fs.files == if old(fs.Exists(path)) || !old(fs.CanOpenForWriting(path))
                        then old(fs.files) else old(fs.files)[path := []]
    ensures fs.dirs == old(fs.dirs)
    ensures fs.Exists(path) || !fs.CanOpenForWriting(path)
  {
    if !fs.Exists(path) {
      var _ := fs.Touch(path);
    }
  }

  /** `ensure_dirs_exist`: creates the directory and its missing ancestors. */
  method EnsureDirsExist(fs: FileSystem, dir: Path)
    modifies fs
    ensures fs.files == old(fs.files)
    ensures fs.dirs == if old(fs.CanMakeDirs(dir)) then old(fs.dirs) + Ancestry(dir) else old(fs.dirs)
    ensures old(fs.CanMakeDirs(dir)) ==> fs.IsDir(dir)
    ensures fs.CanMakeDirs(dir) ==> fs.dirs + Ancestry(dir) == fs.dirs
  {
    assert dir != [] ==> dir[..|dir|] == dir;
    var _ := fs.MakeDirs(dir);
  }
}
