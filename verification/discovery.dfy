/** The two desktop commands of the Tauri back end (src-tauri/src/main.rs): listing the installed
    applications from the Windows uninstall registry keys, and listing the running processes.
    The registry and the process table are inputs here: each uninstall key is the sequence of its
    sub-keys as read, and the process table is the sequence of processes in enumeration order. */
module Discovery {
  import opened Wrappers
  import opened Text
  import Seqs

  datatype AppInfo = AppInfo(name: string, path: Option<string>, icon: Option<string>)

  /** One sub-key of an uninstall key: its `DisplayName`, `InstallLocation` and `DisplayIcon`
      string values, each `None` when the value is missing or not a string. */
  datatype UninstallEntry = UninstallEntry(displayName: Option<string>, installLocation: Option<string>,
                                           displayIcon: Option<string>)

  /** A process: its name and its executable path when that path is valid UTF-8. */
  datatype ProcessEntry = ProcessEntry(name: string, exe: Option<string>)

  const OnlyOnWindows: string := "This feature is only available on Windows"

  // ---------------------------------------------------------------- installed applications

  /** Updates, hotfixes and knowledge-base packages are not offered as applications. */
  predicate IsSystemComponent(displayName: string) {
    Contains(displayName, "Update") || Contains(displayName, "Hotfix") || StartsWith(displayName, "KB")
  }

  predicate IsListedEntry(e: UninstallEntry) {
    e.displayName.Some? && !IsSystemComponent(e.displayName.value)
  }

  function EntryName(e: UninstallEntry): string {
    e.displayName.GetOr("")
  }

  function EntryToApp(e: UninstallEntry): AppInfo {
    AppInfo(EntryName(e), e.installLocation, e.displayIcon)
  }

  /** The sub-keys of all uninstall keys, key after key. */
  function Flatten(keys: seq<seq<UninstallEntry>>): seq<UninstallEntry>
    decreases |keys|
  {
    if |keys| == 0 then [] else Flatten(keys[..|keys| - 1]) + keys[|keys| - 1]
  }

  lemma FlattenStep(keys: seq<seq<UninstallEntry>>, k: int)
    requires 0 <= k < |keys|
    ensures Flatten(keys[..k + 1]) == Flatten(keys[..k]) + keys[k]
    ensures Flatten(keys[..k]) + keys[k][..0] == Flatten(keys[..k])
    ensures Flatten(keys[..k]) + keys[k][..|keys[k]|] == Flatten(keys[..k + 1])
  {
    assert keys[..k + 1][..k] == keys[..k];
  }

  /** The entries the scan keeps: listed ones, the first one per display name. */
  function AcceptedEntries(entries: seq<UninstallEntry>): seq<UninstallEntry> {
    Seqs.DedupBy(Seqs.Filter(entries, IsListedEntry), EntryName)
  }

  function EntriesToApps(entries: seq<UninstallEntry>): (r: seq<AppInfo>)
    ensures |r| == |entries| && forall i :: 0 <= i < |entries| ==> r[i] == EntryToApp(entries[i])
  {
    seq(|entries|, i requires 0 <= i < |entries| => EntryToApp(entries[i]))
  }

  /** Case-insensitive alphabetical order on application names. */
  predicate NameLe(a: AppInfo, b: AppInfo) {
    LexLe(Lower(a.name), Lower(b.name))
  }

  function SortByName(apps: seq<AppInfo>): seq<AppInfo> {
    Seqs.SortBy(apps, NameLe)
  }

  /** What `get_installed_apps` returns on Windows. */
  function InstalledApps(keys: seq<seq<UninstallEntry>>): seq<AppInfo> {
    SortByName(EntriesToApps(AcceptedEntries(Flatten(keys))))
  }

  /** One step of the registry scan: a sub-key with a display name that is neither seen nor a
      system component is kept, and every other sub-key leaves the accepted entries as they were. */
  lemma ScanEntryStep(entries: seq<UninstallEntry>, e: UninstallEntry)
    ensures var accepted := AcceptedEntries(entries);
      if e.displayName.Some? && e.displayName.value !in Seqs.KeysOf(accepted, EntryName)
         && !IsSystemComponent(e.displayName.value)
      then AcceptedEntries(entries + [e]) == accepted + [e]
      else AcceptedEntries(entries + [e]) == accepted
  {
    Seqs.FilterSnoc(entries, e, IsListedEntry);
    Seqs.DedupBySnoc(Seqs.Filter(entries, IsListedEntry), e, EntryName);
  }

  /** What keeping one more entry adds to the output and to the seen names. */
  lemma KeepEntry(accepted: seq<UninstallEntry>, e: UninstallEntry)
    requires e.displayName.Some?
    ensures EntriesToApps(accepted + [e]) == EntriesToApps(accepted) + [AppInfo(e.displayName.value, e.installLocation, e.displayIcon)]
    ensures Seqs.KeysOf(accepted + [e], EntryName) == Seqs.KeysOf(accepted, EntryName) + {e.displayName.value}
  {
    Seqs.KeysOfAppend(accepted, e, EntryName);
    assert EntriesToApps(accepted + [e]) == EntriesToApps(accepted) + [EntryToApp(e)];
  }

  lemma SnocSlice(keys: seq<seq<UninstallEntry>>, k: nat, subKeys: seq<UninstallEntry>, j: nat)
    requires k <= |keys| && j < |subKeys|
    ensures Flatten(keys[..k]) + subKeys[..j + 1] == Flatten(keys[..k]) + subKeys[..j] + [subKeys[j]]
  {
    assert subKeys[..j + 1] == subKeys[..j] + [subKeys[j]];
  }

  method GetInstalledApps(onWindows: bool, uninstallKeys: seq<seq<UninstallEntry>>)
    returns (r: Result<seq<AppInfo>, string>)
    ensures !onWindows ==> r == Err(OnlyOnWindows)
    ensures onWindows ==> r == Ok(InstalledApps(uninstallKeys))
  {
    if !onWindows {
      return Err(OnlyOnWindows);
    }
    var apps: seq<AppInfo> := [];
    var seenNames: set<string> := {};
    ghost var scanned: seq<UninstallEntry> := [];
    ghost var accepted: seq<UninstallEntry> := [];
    for k := 0 to |uninstallKeys|
      invariant scanned == Flatten(uninstallKeys[..k])
      invariant accepted == AcceptedEntries(scanned)
      invariant apps == EntriesToApps(accepted)
      invariant seenNames == Seqs.KeysOf(accepted, EntryName)
    {
      var subKeys := uninstallKeys[k];
      FlattenStep(uninstallKeys, k);
      for j := 0 to |subKeys|
        invariant scanned == Flatten(uninstallKeys[..k]) + subKeys[..j]
        invariant accepted == AcceptedEntries(scanned)
        invariant apps == EntriesToApps(accepted)
        invariant seenNames == Seqs.KeysOf(accepted, EntryName)
      {
        var e := subKeys[j];
        ScanEntryStep(scanned, e);
        SnocSlice(uninstallKeys, k, subKeys, j);
        scanned := scanned + [e];
        if e.displayName.Some? {
          var displayName := e.displayName.value;
          if displayName in seenNames {
            continue;
          }
          if IsSystemComponent(displayName) {
            continue;
          }
          KeepEntry(accepted, e);
          seenNames := seenNames + {displayName};
          apps := apps + [AppInfo(displayName, e.installLocation, e.displayIcon)];
          accepted := accepted + [e];
        }
      }
    }
    assert uninstallKeys[..|uninstallKeys|] == uninstallKeys;
    r := Ok(SortByName(apps));
  }

  // ---------------------------------------------------------------- properties of the listing

  lemma NameLeIsTotalOrder()
    ensures Seqs.Total(NameLe) && Seqs.Transitive(NameLe)
  {
    forall a, b ensures NameLe(a, b) || NameLe(b, a) {
      LexLeTotal(Lower(a.name), Lower(b.name));
    }
    forall a, b, c | NameLe(a, b) && NameLe(b, c) ensures NameLe(a, c) {
      LexLeTransitive(Lower(a.name), Lower(b.name), Lower(c.name));
    }
  }

  /** Sorting by name keeps every application and puts them in case-insensitive order. */
  lemma SortByNameSorted(apps: seq<AppInfo>)
    ensures multiset(SortByName(apps)) == multiset(apps)
    ensures forall i, j :: 0 <= i < j < |SortByName(apps)| ==>
              LexLe(Lower(SortByName(apps)[i].name), Lower(SortByName(apps)[j].name))
  {
    NameLeIsTotalOrder();
    Seqs.SortBySorted(apps, NameLe);
  }

  function FirstEntryNamed(entries: seq<UninstallEntry>, name: string): Option<UninstallEntry> {
    Seqs.Find(entries, NamedIs(name))
  }

  function NamedIs(name: string): UninstallEntry -> bool {
    (e: UninstallEntry) => e.displayName == Some(name)
  }

  lemma SortByNameMembers(apps: seq<AppInfo>)
    ensures forall a :: a in SortByName(apps) <==> a in apps
  {
    var r := SortByName(apps);
    forall a ensures a in r <==> a in apps {
      assert a in r <==> a in multiset(r);
      assert a in apps <==> a in multiset(apps);
    }
  }

  /** The installed applications are in case-insensitive alphabetical order. */
  lemma InstalledAppsSorted(keys: seq<seq<UninstallEntry>>)
    ensures var r := InstalledApps(keys);
      forall i, j :: 0 <= i < j < |r| ==> LexLe(Lower(r[i].name), Lower(r[j].name))
  {
    SortByNameSorted(EntriesToApps(AcceptedEntries(Flatten(keys))));
  }

  /** No display name is listed twice, whichever uninstall keys it appears under. */
  lemma InstalledAppsDistinct(keys: seq<seq<UninstallEntry>>)
    ensures var r := InstalledApps(keys);
      forall i, j :: 0 <= i < j < |r| ==> r[i].name != r[j].name
  {
    var filtered := Seqs.Filter(Flatten(keys), IsListedEntry);
    var accepted := AcceptedEntries(Flatten(keys));
    var apps := EntriesToApps(accepted);
    Seqs.DedupByFirstOccurrence(filtered, EntryName);
    assert Seqs.DistinctBy(apps, AppName) by {
      forall i, j | 0 <= i < j < |apps| ensures apps[i].name != apps[j].name {
        assert EntryName(accepted[i]) != EntryName(accepted[j]);
      }
    }
    Seqs.SortByDistinct(apps, NameLe, AppName);
  }

  function AppName(a: AppInfo): string {
    a.name
  }

  /** Every listed application comes from an accepted entry. */
  lemma InstalledAppsFromAccepted(keys: seq<seq<UninstallEntry>>, a: AppInfo)
    requires a in InstalledApps(keys)
    ensures exists i :: 0 <= i < |AcceptedEntries(Flatten(keys))| && a == EntryToApp(AcceptedEntries(Flatten(keys))[i])
  {
    var apps := EntriesToApps(AcceptedEntries(Flatten(keys)));
    SortByNameMembers(apps);
    var i :| 0 <= i < |apps| && apps[i] == a;
  }

  lemma AcceptedEntriesListed(entries: seq<UninstallEntry>)
    ensures forall x :: x in AcceptedEntries(entries) ==> x in entries && IsListedEntry(x)
  {
    Seqs.DedupBySubset(Seqs.Filter(entries, IsListedEntry), EntryName);
  }

  /** Update, hotfix and KB entries never reach the list. */
  lemma InstalledAppsExcludeSystemComponents(keys: seq<seq<UninstallEntry>>)
    ensures forall a :: a in InstalledApps(keys) ==> !IsSystemComponent(a.name)
  {
    var accepted := AcceptedEntries(Flatten(keys));
    AcceptedEntriesListed(Flatten(keys));
    forall a | a in InstalledApps(keys) ensures !IsSystemComponent(a.name) {
      InstalledAppsFromAccepted(keys, a);
      var i :| 0 <= i < |accepted| && a == EntryToApp(accepted[i]);
      assert accepted[i] in accepted;
      assert a.name == accepted[i].displayName.value;
    }
  }

  /** Every listed display name found in any uninstall key appears in the list. */
  lemma InstalledAppsComplete(keys: seq<seq<UninstallEntry>>)
    ensures forall e :: e in Flatten(keys) && IsListedEntry(e) ==>
              exists a :: a in InstalledApps(keys) && a.name == e.displayName.value
  {
    var filtered := Seqs.Filter(Flatten(keys), IsListedEntry);
    var accepted := AcceptedEntries(Flatten(keys));
    var apps := EntriesToApps(accepted);
    Seqs.DedupByFirstOccurrence(filtered, EntryName);
    SortByNameMembers(apps);
    forall e | e in Flatten(keys) && IsListedEntry(e)
      ensures exists a :: a in InstalledApps(keys) && a.name == e.displayName.value
    {
      assert e in filtered;
      assert EntryName(e) in Seqs.KeysOf(filtered, EntryName);
      var x :| x in accepted && EntryName(x) == EntryName(e);
      var i :| 0 <= i < |accepted| && accepted[i] == x;
      assert apps[i] in InstalledApps(keys);
    }
  }

  /** Each listed application carries the install location and icon of the FIRST sub-key, in scan
      order (HKLM, then HKLM WOW6432Node, then HKCU), with its display name. */
  lemma InstalledAppsFirstOccurrence(keys: seq<seq<UninstallEntry>>)
    ensures forall a :: a in InstalledApps(keys) ==>
              FirstEntryNamed(Flatten(keys), a.name).Some? && EntryToApp(FirstEntryNamed(Flatten(keys), a.name).value) == a
  {
    var accepted := AcceptedEntries(Flatten(keys));
    forall a | a in InstalledApps(keys)
      ensures FirstEntryNamed(Flatten(keys), a.name).Some? && EntryToApp(FirstEntryNamed(Flatten(keys), a.name).value) == a
    {
      InstalledAppsFromAccepted(keys, a);
      var i :| 0 <= i < |accepted| && a == EntryToApp(accepted[i]);
      AcceptedIsFirstNamed(Flatten(keys), accepted[i]);
    }
  }

  /** An accepted entry is the first entry of the scan carrying its display name. */
  lemma AcceptedIsFirstNamed(entries: seq<UninstallEntry>, x: UninstallEntry)
    requires x in AcceptedEntries(entries)
    ensures x.displayName.Some? && FirstEntryNamed(entries, x.displayName.value) == Some(x)
  {
    var filtered := Seqs.Filter(entries, IsListedEntry);
    AcceptedEntriesListed(entries);
    var q := NamedIs(x.displayName.value);
    forall y | y in filtered ensures q(y) <==> EntryName(y) == EntryName(x) { }
    Seqs.DedupByFind(filtered, EntryName, x, q);
    Seqs.FindAfterFilter(entries, IsListedEntry, q);
  }

  // ---------------------------------------------------------------- running processes

  /** Empty names and the `svchost*` / `System*` processes are not offered. */
  predicate IsListedProcess(p: ProcessEntry) {
    |p.name| > 0 && !StartsWith(p.name, "svchost") && !StartsWith(p.name, "System")
  }

  function ProcessName(p: ProcessEntry): string {
    p.name
  }

  /** `str::trim_end_matches(".exe")`: a string made of `.exe` repeated. */
  predicate RepeatsExe(t: string)
    decreases |t|
  {
    |t| == 0 || (EndsWith(t, ".exe") && RepeatsExe(t[..|t| - 4]))
  }

  lemma RepeatsExeAppend(x: string)
    requires RepeatsExe(x)
    ensures RepeatsExe(x + ".exe")
  {
    var y := x + ".exe";
    assert y[|y| - 4..] == ".exe";
    assert y[..|y| - 4] == x;
  }

  /** `str::trim_end_matches(".exe")`: removes every trailing `.exe`, not only the last. */
  function TrimExe(s: string): (r: string)
    ensures |r| <= |s| && s[..|r|] == r
    ensures !EndsWith(r, ".exe")
    ensures RepeatsExe(s[|r|..])
    decreases |s|
  {
    if EndsWith(s, ".exe") then
      var t := s[..|s| - 4];
      var r := TrimExe(t);
      assert s[|r|..] == t[|r|..] + ".exe";
      RepeatsExeAppend(t[|r|..]);
      r
    else
      assert s[|s|..] == [];
      s
  }

  function ProcessToApp(p: ProcessEntry): AppInfo {
    AppInfo(TrimExe(p.name), p.exe, None)
  }

  /** The processes the scan keeps: listed ones, the first one per (untrimmed) name. */
  function AcceptedProcesses(ps: seq<ProcessEntry>): seq<ProcessEntry> {
    Seqs.DedupBy(Seqs.Filter(ps, IsListedProcess), ProcessName)
  }

  function ProcessesToApps(ps: seq<ProcessEntry>): (r: seq<AppInfo>)
    ensures |r| == |ps| && forall i :: 0 <= i < |ps| ==> r[i] == ProcessToApp(ps[i])
  {
    seq(|ps|, i requires 0 <= i < |ps| => ProcessToApp(ps[i]))
  }

  /** What `get_running_processes` returns on Windows. */
  function RunningProcesses(ps: seq<ProcessEntry>): seq<AppInfo> {
    SortByName(ProcessesToApps(AcceptedProcesses(ps)))
  }

  /** One step of the process scan. */
  lemma ScanProcessStep(ps: seq<ProcessEntry>, p: ProcessEntry)
    ensures var accepted := AcceptedProcesses(ps);
      if !(|p.name| == 0 || p.name in Seqs.KeysOf(accepted, ProcessName)
           || StartsWith(p.name, "svchost") || StartsWith(p.name, "System"))
      then AcceptedProcesses(ps + [p]) == accepted + [p]
      else AcceptedProcesses(ps + [p]) == accepted
  {
    Seqs.FilterSnoc(ps, p, IsListedProcess);
    Seqs.DedupBySnoc(Seqs.Filter(ps, IsListedProcess), p, ProcessName);
  }

  /** What keeping one more process adds to the output and to the seen names. */
  lemma KeepProcess(accepted: seq<ProcessEntry>, p: ProcessEntry)
    ensures ProcessesToApps(accepted + [p]) == ProcessesToApps(accepted) + [AppInfo(TrimExe(p.name), p.exe, None)]
    ensures Seqs.KeysOf(accepted + [p], ProcessName) == Seqs.KeysOf(accepted, ProcessName) + {p.name}
  {
    Seqs.KeysOfAppend(accepted, p, ProcessName);
    assert ProcessesToApps(accepted + [p]) == ProcessesToApps(accepted) + [ProcessToApp(p)];
  }

  method GetRunningProcesses(onWindows: bool, processes: seq<ProcessEntry>)
    returns (r: Result<seq<AppInfo>, string>)
    ensures !onWindows ==> r == Err(OnlyOnWindows)
    ensures onWindows ==> r == Ok(RunningProcesses(processes))
  {
    if !onWindows {
      return Err(OnlyOnWindows);
    }
    var apps: seq<AppInfo> := [];
    var seenNames: set<string> := {};
    ghost var accepted: seq<ProcessEntry> := [];
    for k := 0 to |processes|
      invariant accepted == AcceptedProcesses(processes[..k])
      invariant apps == ProcessesToApps(accepted)
      invariant seenNames == Seqs.KeysOf(accepted, ProcessName)
    {
      var p := processes[k];
      ScanProcessStep(processes[..k], p);
      assert processes[..k + 1] == processes[..k] + [p];
      var name := p.name;
      if |name| == 0 || name in seenNames || StartsWith(name, "svchost") || StartsWith(name, "System") {
        continue;
      }
      KeepProcess(accepted, p);
      seenNames := seenNames + {name};
      apps := apps + [AppInfo(TrimExe(name), p.exe, None)];
      accepted := accepted + [p];
    }
    assert processes[..|processes|] == processes;
    r := Ok(SortByName(apps));
  }

  lemma AcceptedProcessesListed(ps: seq<ProcessEntry>)
    ensures forall p :: p in AcceptedProcesses(ps) ==> p in ps && IsListedProcess(p)
  {
    Seqs.DedupBySubset(Seqs.Filter(ps, IsListedProcess), ProcessName);
  }

  /** The process list is in case-insensitive alphabetical order and carries no icons. */
  lemma RunningProcessesSorted(ps: seq<ProcessEntry>)
    ensures var r := RunningProcesses(ps);
      && (forall i, j :: 0 <= i < j < |r| ==> LexLe(Lower(r[i].name), Lower(r[j].name)))
      && (forall a :: a in r ==> a.icon.None?)
  {
    var apps := ProcessesToApps(AcceptedProcesses(ps));
    SortByNameSorted(apps);
    SortByNameMembers(apps);
  }

  /** Every entry of the process list comes from a listed process: never an empty name, never
      `svchost*` or `System*`; its name is the process name without trailing `.exe`s. */
  lemma RunningProcessesFromListed(ps: seq<ProcessEntry>)
    ensures forall a :: a in RunningProcesses(ps) ==>
              exists p :: p in ps && IsListedProcess(p) && a == AppInfo(TrimExe(p.name), p.exe, None)
  {
    var accepted := AcceptedProcesses(ps);
    var apps := ProcessesToApps(accepted);
    SortByNameMembers(apps);
    AcceptedProcessesListed(ps);
    forall a | a in RunningProcesses(ps)
      ensures exists p :: p in ps && IsListedProcess(p) && a == AppInfo(TrimExe(p.name), p.exe, None)
    {
      var i :| 0 <= i < |apps| && apps[i] == a;
      assert accepted[i] in accepted;
    }
  }

  /** Every listed process is represented, under its trimmed name; and no two kept processes share
      an (untrimmed) name. */
  lemma RunningProcessesComplete(ps: seq<ProcessEntry>)
    ensures forall p :: p in ps && IsListedProcess(p) ==>
              exists a :: a in RunningProcesses(ps) && a.name == TrimExe(p.name)
    ensures Seqs.DistinctBy(AcceptedProcesses(ps), ProcessName)
  {
    var filtered := Seqs.Filter(ps, IsListedProcess);
    var accepted := AcceptedProcesses(ps);
    var apps := ProcessesToApps(accepted);
    Seqs.DedupByFirstOccurrence(filtered, ProcessName);
    SortByNameMembers(apps);
    forall p | p in ps && IsListedProcess(p) ensures exists a :: a in RunningProcesses(ps) && a.name == TrimExe(p.name) {
      assert p in filtered;
      assert p.name in Seqs.KeysOf(filtered, ProcessName);
      var x :| x in accepted && x.name == p.name;
      var i :| 0 <= i < |accepted| && accepted[i] == x;
      assert apps[i] in RunningProcesses(ps);
    }
  }

  lemma FooProcessesAccepted(p0: ProcessEntry, p1: ProcessEntry)
    requires p0 == ProcessEntry("foo", None) && p1 == ProcessEntry("foo.exe", None)
    ensures AcceptedProcesses([p0, p1]) == [p0, p1]
  {
    FooNamesListed();
    assert AcceptedProcesses([p0]) == [p0] by {
      ScanProcessStep([], p0);
      assert [] + [p0] == [p0];
    }
    assert "foo.exe" !in Seqs.KeysOf([p0], ProcessName) by {
      KeepProcess([], p0);
      assert [] + [p0] == [p0];
    }
    ScanProcessStep([p0], p1);
    assert [p0] + [p1] == [p0, p1];
  }

  lemma FooNamesListed()
    ensures !StartsWith("foo", "svchost") && !StartsWith("foo", "System")
    ensures !StartsWith("foo.exe", "svchost") && !StartsWith("foo.exe", "System")
  {
    assert "foo.exe"[0] == 'f';
  }

  lemma TrimExeFoo()
    ensures TrimExe("foo.exe") == "foo" && TrimExe("foo") == "foo"
  {
    assert EndsWith("foo.exe", ".exe") && "foo.exe"[..3] == "foo";
    assert !EndsWith("foo", ".exe");
  }

  /** `foo` and `foo.exe` are different process names, so both are kept, and both are shown
      under the same name `foo`. */
  lemma ExeSuffixYieldsDuplicateNames()
    ensures var r := RunningProcesses([ProcessEntry("foo", None), ProcessEntry("foo.exe", None)]);
      |r| == 2 && r[0].name == "foo" && r[1].name == "foo"
  {
    var p0, p1 := ProcessEntry("foo", None), ProcessEntry("foo.exe", None);
    FooProcessesAccepted(p0, p1);
    TrimExeFoo();
    var foo := AppInfo("foo", None, None);
    assert ProcessesToApps([p0, p1]) == [foo, foo];
    SortByNameSorted([foo, foo]);
    var r := RunningProcesses([p0, p1]);
    assert multiset(r) == multiset{foo, foo};
    assert r[0] in multiset(r) && r[1] in multiset(r);
  }
}
