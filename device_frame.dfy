/** The logic of the device panel: the list of logged client addresses with
    their blocked mark, the selection carried across a refresh, the enabling of
    the two buttons, and the counting behind "Block Selected" and "Unblock
    Selected". Widgets are reduced to the listbox's lines, its selected
    indices and the two buttons' enabled flags. */
module DeviceList {
  import opened Text
  import opened Paths
  import opened Disk
  import opened Config
  import opened FileUtils
  import opened ServerManagement

  const BlockedTag: string := " (Blocked)"

  /** The line shown for an address. */
  function Display(ip: string, blocked: set<string>): string {
    if ip in blocked then ip + BlockedTag else ip
  }

  /** The single line shown when no address has been logged. */
  function Placeholder(running: bool): string {
    if running then "No connections logged yet." else "Server stopped."
  }

  function Members(s: seq<string>): set<string> {
    set x | x in s
  }

  predicate NoSpaces(ips: set<string>) {
    forall ip :: ip in ips ==> ' ' !in ip
  }

  /** The lines shown for the sorted addresses, one per address. */
  function Entries(ips: seq<string>, blocked: set<string>): (r: seq<string>)
    ensures |r| == |ips|
    ensures forall i :: 0 <= i < |ips| ==> r[i] == Display(ips[i], blocked)
  {
    if ips == [] then [] else [Display(ips[0], blocked)] + Entries(ips[1..], blocked)
  }

  /** The indices whose address was among the addresses selected before. */
  function Reselect(ips: seq<string>, keep: set<string>): set<nat> {
    set i: nat | i < |ips| && ips[i] in keep
  }

  /** What the panel shows: the listbox lines, its selected indices, and
      whether both buttons are enabled. */
  datatype View = View(items: seq<string>, selection: set<nat>, buttonsEnabled: bool)

  /** `update_list` on the logged addresses `connected`, the blocklist
      `blocked`, the manager's running flag and the addresses selected before. */
  function Refresh(connected: set<string>, blocked: set<string>, running: bool, keep: set<string>): (v: View)
    ensures connected == {} ==> v.items == [Placeholder(running)] && v.selection == {}
    ensures v.buttonsEnabled <==> running && connected != {}
  {
    if connected == {} then View([Placeholder(running)], {}, false)
    else
      var ips := SortedSet(connected);
      View(Entries(ips, blocked), Reselect(ips, keep), running)
  }

  /** `get_selected_ips` over the first `n` lines: the first space-separated
      token of each selected line, in index order. */
  function SelectedUpTo(items: seq<string>, selection: set<nat>, n: nat): seq<string>
    requires n <= |items|
  {
    if n == 0 then []
    else SelectedUpTo(items, selection, n - 1) + (if n - 1 in selection then [FirstToken(items[n - 1])] else [])
  }

  function SelectedIps(items: seq<string>, selection: set<nat>): seq<string> {
    SelectedUpTo(items, selection, |items|)
  }

  lemma {:induction false} SelectedUpToMembers(items: seq<string>, selection: set<nat>, n: nat)
    requires n <= |items|
    ensures forall x :: x in SelectedUpTo(items, selection, n) <==>
              exists i :: 0 <= i < n && i in selection && x == FirstToken(items[i])
  {
    if n > 0 {
      SelectedUpToMembers(items, selection, n - 1);
    }
  }

  /** Selected lines whose tokens ascend give their tokens in ascending order. */
  lemma {:induction false} SelectedUpToAscending(items: seq<string>, selection: set<nat>, n: nat)
    requires n <= |items|
    requires forall i, j :: 0 <= i < j < n ==> Below(FirstToken(items[i]), FirstToken(items[j]))
    ensures Ascending(SelectedUpTo(items, selection, n))
  {
    if n > 0 {
      var prev := SelectedUpTo(items, selection, n - 1);
      SelectedUpToAscending(items, selection, n - 1);
      if n - 1 in selection {
        SelectedUpToMembers(items, selection, n - 1);
        var last := FirstToken(items[n - 1]);
        forall k | 0 <= k < |prev| ensures Below(prev[k], last) {
          assert prev[k] in prev;
        }
        var r := prev + [last];
        forall i, j | 0 <= i < j < |r| ensures Below(r[i], r[j]) {
          if j == |prev| {
            assert r[i] == prev[i] && r[j] == last;
          } else {
            assert r[i] == prev[i] && r[j] == prev[j];
          }
        }
      } else {
        assert SelectedUpTo(items, selection, n) == prev + [];
      }
    }
  }

  /** The mark never hides the address: the first token of a shown line is the
      address itself. */
  lemma DisplayRoundTrip(ip: string, blocked: set<string>)
    requires ' ' !in ip
    ensures FirstToken(Display(ip, blocked)) == ip
  {
    if ip in blocked {
      FirstTokenOfSuffixed(ip, BlockedTag);
    } else {
      FirstTokenOfSuffixed(ip, []);
      assert ip + [] == ip;
    }
  }

  /** Each shown line gives back its address. */
  lemma EntriesTokens(ips: seq<string>, blocked: set<string>)
    requires forall k :: 0 <= k < |ips| ==> ' ' !in ips[k]
    ensures forall i :: 0 <= i < |ips| ==> FirstToken(Entries(ips, blocked)[i]) == ips[i]
  {
    forall i | 0 <= i < |ips| ensures FirstToken(Entries(ips, blocked)[i]) == ips[i] {
      DisplayRoundTrip(ips[i], blocked);
    }
  }

  /** Selecting again the lines of the kept addresses and reading the selection
      back gives the kept addresses among those shown. */
  lemma ReselectRoundTrip(ips: seq<string>, blocked: set<string>, keep: set<string>)
    requires forall k :: 0 <= k < |ips| ==> ' ' !in ips[k]
    ensures forall x :: x in SelectedIps(Entries(ips, blocked), Reselect(ips, keep)) <==> x in ips && x in keep
  {
    var items := Entries(ips, blocked);
    var selection := Reselect(ips, keep);
    EntriesTokens(ips, blocked);
    SelectedUpToMembers(items, selection, |items|);
    forall x ensures x in SelectedIps(items, selection) <==> x in ips && x in keep {
      if x in ips && x in keep {
        var i :| 0 <= i < |ips| && ips[i] == x;
        assert i in selection && x == FirstToken(items[i]);
      }
      if x in SelectedIps(items, selection) {
        var i :| 0 <= i < |items| && i in selection && x == FirstToken(items[i]);
        assert x == ips[i] && ips[i] in keep;
      }
    }
  }

  /** ... and in the order they are shown. */
  lemma ReselectOrdered(ips: seq<string>, blocked: set<string>, keep: set<string>)
    requires forall k :: 0 <= k < |ips| ==> ' ' !in ips[k]
    requires Ascending(ips)
    ensures Ascending(SelectedIps(Entries(ips, blocked), Reselect(ips, keep)))
  {
    EntriesTokens(ips, blocked);
    SelectedUpToAscending(Entries(ips, blocked), Reselect(ips, keep), |ips|);
  }

  lemma SortedNoSpaces(connected: set<string>)
    requires NoSpaces(connected)
    ensures forall k :: 0 <= k < |SortedSet(connected)| ==> ' ' !in SortedSet(connected)[k]
  {
    var ips := SortedSet(connected);
    forall k | 0 <= k < |ips| ensures ' ' !in ips[k] {
      assert ips[k] in ips;
    }
  }

  /** A shown line carries the mark exactly when its address is blocked. */
  lemma EntriesMarked(ips: seq<string>, blocked: set<string>)
    ensures forall i :: 0 <= i < |ips| ==> (Entries(ips, blocked)[i] == ips[i] + BlockedTag <==> ips[i] in blocked)
  {
    forall i | 0 <= i < |ips| ensures Entries(ips, blocked)[i] == ips[i] + BlockedTag <==> ips[i] in blocked {
      if ips[i] !in blocked {
        assert |Entries(ips, blocked)[i]| < |ips[i] + BlockedTag|;
      }
    }
  }

  /** After a refresh the listbox holds one line per logged address, in
      ascending order, marked exactly when it is blocked. */
  lemma RefreshListsConnected(connected: set<string>, blocked: set<string>, running: bool, keep: set<string>)
    requires connected != {} && NoSpaces(connected)
    ensures var v := Refresh(connected, blocked, running, keep);
            |v.items| == |connected| &&
            forall i :: 0 <= i < |v.items| ==>
              FirstToken(v.items[i]) == SortedSet(connected)[i] &&
              (v.items[i] == SortedSet(connected)[i] + BlockedTag <==> SortedSet(connected)[i] in blocked)
  {
    var ips := SortedSet(connected);
    assert Refresh(connected, blocked, running, keep).items == Entries(ips, blocked);
    SortedNoSpaces(connected);
    EntriesTokens(ips, blocked);
    EntriesMarked(ips, blocked);
  }

  /** A refresh keeps selected exactly the previously selected addresses that
      are still logged, and reports them in ascending order. */
  lemma RefreshKeepsSelection(connected: set<string>, blocked: set<string>, running: bool, keep: set<string>)
    requires NoSpaces(connected)
    ensures var v := Refresh(connected, blocked, running, keep);
            (forall x :: x in SelectedIps(v.items, v.selection) <==> x in connected && x in keep) &&
            Ascending(SelectedIps(v.items, v.selection))
  {
    if connected == {} {
      var v := Refresh(connected, blocked, running, keep);
      assert SelectedIps(v.items, v.selection) == SelectedUpTo(v.items, v.selection, 0) + [];
    } else {
      var ips := SortedSet(connected);
      SortedNoSpaces(connected);
      ReselectRoundTrip(ips, blocked, keep);
      ReselectOrdered(ips, blocked, keep);
      forall x ensures x in ips <==> x in connected {
      }
    }
  }

  // ---------------------------------------------------------------------
  // Counting for the block and unblock buttons

  /** One step of the blocking loop, on plain sets: the blocklist `cur` is the
      original one plus the handled addresses, `added` those of them that were
      not blocked before; `ok` says whether the append happened. */
  lemma BlockStep(before: set<string>, handled: set<string>, cur: set<string>, added: set<string>, ip: string, ok: bool)
    requires cur == before + handled && added == handled - before
    requires ok <==> ip !in cur
    ensures (if ok then cur + {ip} else cur) == before + (handled + {ip})
    ensures (if ok then added + {ip} else added) == (handled + {ip}) - before
    ensures |if ok then added + {ip} else added| == |added| + (if ok then 1 else 0)
  {
  }

  /** One step of the unblocking loop: `cur` is the original blocklist less the
      handled addresses, `removed` those of them that were blocked. */
  lemma UnblockStep(before: set<string>, handled: set<string>, cur: set<string>, removed: set<string>, ip: string, ok: bool)
    requires cur == before - handled && removed == handled * before
    requires ok <==> ip in cur
    ensures (if ok then cur - {ip} else cur) == before - (handled + {ip})
    ensures (if ok then removed + {ip} else removed) == (handled + {ip}) * before
    ensures |if ok then removed + {ip} else removed| == |removed| + (if ok then 1 else 0)
  {
  }

  /** Every address can be stored as a blocklist line of its own. */
  predicate AllStorable(ips: seq<string>) {
    ips == [] || (Storable(ips[0]) && AllStorable(ips[1..]))
  }

  lemma {:induction false} AllStorableAt(ips: seq<string>, i: nat)
    requires AllStorable(ips) && i < |ips|
    ensures Storable(ips[i])
  {
    if i > 0 { AllStorableAt(ips[1..], i - 1); }
  }

  lemma MembersStep(s: seq<string>, i: nat)
    requires i < |s|
    ensures Members(s[..i + 1]) == Members(s[..i]) + {s[i]}
  {
    assert s[..i + 1] == s[..i] + [s[i]];
  }

  /** The listbox lines and the indices to select again for the sorted
      addresses `ips`. */
  method Layout(ips: seq<string>, blocked: set<string>, keep: set<string>) returns (shown: seq<string>, selected: set<nat>)
    ensures shown == Entries(ips, blocked)
    ensures selected == Reselect(ips, keep)
  {
    shown := [];
    var picked: seq<nat> := [];
    for index := 0 to |ips|
      invariant |shown| == index
      invariant forall k :: 0 <= k < index ==> shown[k] == Display(ips[k], blocked)
      invariant forall k: nat :: k in picked <==> k < index && ips[k] in keep
    {
      shown := shown + [Display(ips[index], blocked)];
      if ips[index] in keep {
        picked := picked + [index];
      }
    }
    selected := set k | k in picked;
  }

  /** One `add_blocked_ip` call on a storable address and a file ready for
      appending, seen through the blocklist it leaves. */
  method BlockOne(fs: FileSystem, path: Path, ip: string) returns (ok: bool)
    modifies fs
    ensures ok <==> ip !in old(GetBlockedIps(fs, path)) && old(fs.CanOpenForWriting(path))
    ensures fs.dirs == old(fs.dirs) && fs.CanOpenForWriting(path) == old(fs.CanOpenForWriting(path))
    ensures !ok ==> fs.files == old(fs.files) && fs.Content(path) == old(fs.Content(path)) && GetBlockedIps(fs, path) == old(GetBlockedIps(fs, path))
    ensures ok && Storable(ip) && AppendReady(old(fs.Content(path))) ==>
              GetBlockedIps(fs, path) == old(GetBlockedIps(fs, path)) + {ip} && AppendReady(fs.Content(path))
  {
    ok := AddBlockedIp(fs, path, ip);
  }

  /** The loop of `_block_selected`: `add_blocked_ip` for each address, counting
      the calls that appended. */
  method BlockAll(fs: FileSystem, path: Path, ips: seq<string>) returns (count: nat)
    modifies fs
    ensures count <= |ips|
    ensures fs.dirs == old(fs.dirs)
    ensures !old(fs.CanOpenForWriting(path)) ==> count == 0 && fs.files == old(fs.files)
    ensures old(fs.CanOpenForWriting(path)) && AllStorable(ips) && AppendReady(old(fs.Content(path))) ==>
              GetBlockedIps(fs, path) == old(GetBlockedIps(fs, path)) + Members(ips) &&
              count == |Members(ips) - old(GetBlockedIps(fs, path))|
  {
    ghost var before := GetBlockedIps(fs, path);
    ghost var writable := fs.CanOpenForWriting(path);
    ghost var clean := AllStorable(ips) && AppendReady(fs.Content(path));
    ghost var handled: set<string> := {};
    ghost var cur := before;
    ghost var added: set<string> := {};
    count := 0;
    for i := 0 to |ips|
      invariant count <= i
      invariant handled == Members(ips[..i])
      invariant fs.dirs == old(fs.dirs) && fs.CanOpenForWriting(path) == writable
      invariant !writable ==> count == 0 && fs.files == old(fs.files)
      invariant writable && clean ==> GetBlockedIps(fs, path) == cur && AppendReady(fs.Content(path))
      invariant writable && clean ==> cur == before + handled && added == handled - before
      invariant writable && clean ==> count == |added|
    {
      var ok := BlockOne(fs, path, ips[i]);
      MembersStep(ips, i);
      if writable && clean {
        AllStorableAt(ips, i);
        BlockStep(before, handled, cur, added, ips[i], ok);
        if ok {
          cur := cur + {ips[i]};
          added := added + {ips[i]};
        }
      }
      if ok {
        count := count + 1;
      }
      handled := handled + {ips[i]};
    }
    assert ips[..|ips|] == ips;
  }

  /** One `remove_blocked_ip` call, seen through the blocklist it leaves. */
  method UnblockOne(fs: FileSystem, path: Path, ip: string) returns (ok: bool)
    modifies fs
    ensures ok <==> ip in old(GetBlockedIps(fs, path)) && old(fs.CanOpenForWriting(path))
    ensures fs.dirs == old(fs.dirs) && fs.CanOpenForWriting(path) == old(fs.CanOpenForWriting(path))
    ensures !ok ==> fs.files == old(fs.files) && GetBlockedIps(fs, path) == old(GetBlockedIps(fs, path))
    ensures ok ==> GetBlockedIps(fs, path) == old(GetBlockedIps(fs, path)) - {ip}
  {
    ok := RemoveBlockedIp(fs, path, ip);
  }

  /** The loop of `_unblock_selected`: `remove_blocked_ip` for each address,
      counting the calls that removed something. */
  method UnblockAll(fs: FileSystem, path: Path, ips: seq<string>) returns (count: nat)
    modifies fs
    ensures count <= |ips|
    ensures fs.dirs == old(fs.dirs)
    ensures !old(fs.CanOpenForWriting(path)) ==> count == 0 && fs.files == old(fs.files)
    ensures old(fs.CanOpenForWriting(path)) ==>
              GetBlockedIps(fs, path) == old(GetBlockedIps(fs, path)) - Members(ips) &&
              count == |Members(ips) * old(GetBlockedIps(fs, path))|
  {
    ghost var before := GetBlockedIps(fs, path);
    ghost var writable := fs.CanOpenForWriting(path);
    ghost var handled: set<string> := {};
    ghost var cur := before;
    ghost var removed: set<string> := {};
    count := 0;
    for i := 0 to |ips|
      invariant count <= i
      invariant handled == Members(ips[..i])
      invariant fs.dirs == old(fs.dirs) && fs.CanOpenForWriting(path) == writable
      invariant !writable ==> count == 0 && fs.files == old(fs.files)
      invariant GetBlockedIps(fs, path) == cur
      invariant writable ==> cur == before - handled && removed == handled * before
      invariant count == |removed|
    {
      var ok := UnblockOne(fs, path, ips[i]);
      MembersStep(ips, i);
      if writable {
        UnblockStep(before, handled, cur, removed, ips[i], ok);
      }
      if ok {
        count := count + 1;
        cur := cur - {ips[i]};
        removed := removed + {ips[i]};
      }
      handled := handled + {ips[i]};
    }
    assert ips[..|ips|] == ips;
  }

  /** What a button press ends with: nothing selected, nothing changed (the
      notice is shown), or the list refreshed. */
  datatype Outcome = NoSelection | NothingChanged | Refreshed

  class DeviceFrame {
    const manager: ServerManager
    var items: seq<string>
    var selection: set<nat>
    var blockEnabled: bool
    var unblockEnabled: bool

    function Shown(): View
      reads this
    {
      View(items, selection, blockEnabled)
    }

    /** The path of the blocklist file. */
    function BlockedPath(): Path
    {
      BlockedIpsFilePath(manager.baseDir)
    }

    constructor (manager: ServerManager)
      ensures this.manager == manager
      ensures items == [] && selection == {} && !blockEnabled && !unblockEnabled
    {
      this.manager := manager;
      items := [];
      selection := {};
      blockEnabled := false;
      unblockEnabled := false;
    }

    /** `get_selected_ips` */
    method GetSelectedIps() returns (ips: seq<string>)
      ensures ips == SelectedIps(items, selection)
    {
      ips := [];
      for i := 0 to |items|
        invariant ips == SelectedUpTo(items, selection, i)
      {
        if i in selection {
          ips := ips + [FirstToken(items[i])];
        }
      }
    }

    /** `update_list` */
    method UpdateList()
      modifies this
      ensures Shown() == Refresh(manager.GetConnectedIpsFromLog(), GetBlockedIps(manager.fs, BlockedPath()),
                                manager.isRunning, Members(old(SelectedIps(items, selection))))
      ensures unblockEnabled == blockEnabled
    {
      var previous := GetSelectedIps();
      var keep := Members(previous);
      var connected := manager.GetConnectedIpsFromLog();
      if connected == {} {
        items := [Placeholder(manager.isRunning)];
        selection := {};
        blockEnabled := false;
        unblockEnabled := false;
        assert Shown() == Refresh(connected, {}, manager.isRunning, keep);
        return;
      }
      var blocked := GetBlockedIps(manager.fs, BlockedPath());
      var ips := SortedSet(connected);
      items, selection := Layout(ips, blocked, keep);
      var enabled := manager.isRunning && |connected| > 0;
      blockEnabled := enabled;
      unblockEnabled := enabled;
      assert Shown() == Refresh(connected, blocked, manager.isRunning, keep);
    }

    /** `_block_selected`: every selected address is offered to the blocklist;
        the count is the number of appends that happened, and the notice is
        shown exactly when nothing was selected or the count is zero. */
    method BlockSelected() returns (count: nat, outcome: Outcome)
      modifies this, manager.fs
      ensures var ips := old(SelectedIps(items, selection));
              (outcome == NoSelection <==> ips == []) &&
              (outcome == NothingChanged <==> ips != [] && count == 0) &&
              (outcome == Refreshed <==> count > 0)
      ensures count <= |old(SelectedIps(items, selection))|
      ensures manager.fs.dirs == old(manager.fs.dirs)
      ensures !old(manager.fs.CanOpenForWriting(BlockedPath())) ==> count == 0 && manager.fs.files == old(manager.fs.files)
      ensures var ips := old(SelectedIps(items, selection));
              old(manager.fs.CanOpenForWriting(BlockedPath())) && AllStorable(ips) &&
              AppendReady(old(manager.fs.Content(BlockedPath()))) ==>
                GetBlockedIps(manager.fs, BlockedPath()) == old(GetBlockedIps(manager.fs, BlockedPath())) + Members(ips) &&
                count == |Members(ips) - old(GetBlockedIps(manager.fs, BlockedPath()))|
      ensures outcome != Refreshed ==> Shown() == old(Shown()) && unblockEnabled == old(unblockEnabled)
      ensures outcome == Refreshed ==>
                Shown() == Refresh(manager.GetConnectedIpsFromLog(), GetBlockedIps(manager.fs, BlockedPath()),
                                  manager.isRunning, Members(old(SelectedIps(items, selection)))) &&
                unblockEnabled == blockEnabled
    {
      var ips := GetSelectedIps();
      if ips == [] {
        return 0, NoSelection;
      }
      count := BlockAll(manager.fs, BlockedPath(), ips);
      if count > 0 {
        UpdateList();
        outcome := Refreshed;
      } else {
        outcome := NothingChanged;
      }
    }

    /** `_unblock_selected`: as for blocking, with every line of a selected
        blocked address removed. */
    method UnblockSelected() returns (count: nat, outcome: Outcome)
      modifies this, manager.fs
      ensures var ips := old(SelectedIps(items, selection));
              (outcome == NoSelection <==> ips == []) &&
              (outcome == NothingChanged <==> ips != [] && count == 0) &&
              (outcome == Refreshed <==> count > 0)
      ensures manager.fs.dirs == old(manager.fs.dirs)
      ensures !old(manager.fs.CanOpenForWriting(BlockedPath())) ==> count == 0 && manager.fs.files == old(manager.fs.files)
      ensures var ips := old(SelectedIps(items, selection));
              old(manager.fs.CanOpenForWriting(BlockedPath())) ==>
                GetBlockedIps(manager.fs, BlockedPath()) == old(GetBlockedIps(manager.fs, BlockedPath())) - Members(ips) &&
                count == |Members(ips) * old(GetBlockedIps(manager.fs, BlockedPath()))|
      ensures outcome != Refreshed ==> Shown() == old(Shown()) && unblockEnabled == old(unblockEnabled)
      ensures outcome == Refreshed ==>
                Shown() == Refresh(manager.GetConnectedIpsFromLog(), GetBlockedIps(manager.fs, BlockedPath()),
                                  manager.isRunning, Members(old(SelectedIps(items, selection)))) &&
                unblockEnabled == blockEnabled
    {
      var ips := GetSelectedIps();
      if ips == [] {
        return 0, NoSelection;
      }
      count := UnblockAll(manager.fs, BlockedPath(), ips);
      if count > 0 {
        UpdateList();
        outcome := Refreshed;
      } else {
        outcome := NothingChanged;
      }
    }
  }
}
