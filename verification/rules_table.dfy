/** The display helpers of the rules table (client/src/components/RulesTable.tsx): the match-kind
    label, the badge variant of a mode, the mode the toggle asks for, the icon of an app and the
    name shown for it. */
module RulesTable {
  import opened Wrappers
  import opened Text
  import opened Schema
  import opened Icons
  import Discovery

  // ---------------------------------------------------------------- labels and variants

  /** `getMatchKindLabel`. */
  function MatchKindLabel(kind: MatchKind): string {
    match kind
    case Exe => "Executable"
    case Package => "Package"
    case Lnk => "Shortcut"
    case Path => "Path"
    case Regex => "Pattern"
  }

  /** The label shown for a stored rule's `matchKind` string: `None` (nothing rendered) when the
      string is not one of the five kinds. */
  function RuleMatchKindLabel(matchKind: string): Option<string> {
    match ParseMatchKind(matchKind)
    case Some(k) => Some(MatchKindLabel(k))
    case None => None
  }

  /** Every kind has a label and no two kinds share one, so the label identifies the kind. */
  lemma MatchKindLabelInjective(a: MatchKind, b: MatchKind)
    ensures MatchKindLabel(a) == MatchKindLabel(b) <==> a == b
    ensures MatchKindLabel(Lnk) == "Shortcut" && MatchKindLabel(Regex) == "Pattern"
  {
  }

  /** A stored rule gets a label iff its kind is valid, and then the label of that kind. */
  lemma RuleMatchKindLabelSpec(kind: MatchKind, s: string)
    ensures RuleMatchKindLabel(MatchKindName(kind)) == Some(MatchKindLabel(kind))
    ensures RuleMatchKindLabel(s).Some? <==> IsMatchKindName(s)
  {
    UnionsMatchSchemas(kind, kind, Hard, Hard, Scheduled, Scheduled);
  }

  /** `getModeVariant`, also the mode badge of the blocked-apps list. */
  function ModeVariant(mode: string): string {
    if mode == "hard" then "destructive" else "secondary"
  }

  /** The mode the toggle menu item asks for. */
  function ToggledMode(mode: string): string {
    if mode == "hard" then "soft" else "hard"
  }

  /** The badge is destructive exactly for hard rules; the toggle always asks for a valid mode,
      swaps `hard` and `soft`, so toggling a valid mode twice restores it, and the badge changes
      with every toggle. */
  lemma ModeToggleSpec(mode: string)
    ensures ModeVariant(mode) == "destructive" <==> mode == "hard"
    ensures ModeVariant(mode) == "secondary" <==> mode != "hard"
    ensures IsBlockModeName(ToggledMode(mode))
    ensures IsBlockModeName(mode) ==> ToggledMode(ToggledMode(mode)) == mode
    ensures IsBlockModeName(mode) ==> ModeVariant(ToggledMode(mode)) != ModeVariant(mode)
  {
  }

  // ---------------------------------------------------------------- icons

  /** `getAppIcon`: the icon name listed for the exact app id, `monitor` for any other id. */
  function AppIconName(appId: string): string {
    if appId == "discord.exe" then "gamepad-2"
    else if appId == "chrome.exe" then "globe"
    else if appId == "steam.exe" then "play"
    else if appId == "spotify.exe" then "music"
    else if appId == "slack.exe" then "message-circle"
    else if appId == "teams.exe" then "users"
    else if appId == "notepad.exe" then "file-text"
    else if appId == "code.exe" then "code"
    else "monitor"
  }

  /** `getIconComponent`: the component for an icon name, `Monitor` for any other name. */
  function IconComponent(iconName: string): Icon {
    if iconName == "gamepad-2" then Gamepad2
    else if iconName == "globe" then Globe
    else if iconName == "play" then Play
    else if iconName == "music" then Music
    else if iconName == "message-circle" then MessageCircle
    else if iconName == "users" then Users
    else if iconName == "file-text" then FileText
    else if iconName == "code" then Code
    else Monitor
  }

  /** The eight app ids that have an icon of their own. */
  const KnownApps: set<string> :=
    {"discord.exe", "chrome.exe", "steam.exe", "spotify.exe", "slack.exe", "teams.exe",
     "notepad.exe", "code.exe"}

  /** The eight names `getIconComponent` lists besides `monitor`. */
  const IconNames: set<string> :=
    {"gamepad-2", "globe", "play", "music", "message-circle", "users", "file-text", "code"}

  /** An unknown app id gets the `monitor` name and an unknown name the `Monitor` component, so an
      unknown app shows `Monitor`; a known one never does. */
  lemma IconDefaults(appId: string, iconName: string)
    ensures appId !in KnownApps ==> AppIconName(appId) == "monitor"
    ensures iconName !in IconNames ==> IconComponent(iconName) == Monitor
    ensures IconComponent(AppIconName(appId)) == Monitor <==> appId !in KnownApps
  {
  }

  // ---------------------------------------------------------------- the name column

  /** `appId.replace('.exe', '')`: only the first `.exe` goes, wherever it is. */
  function DisplayName(appId: string): string {
    match IndexOf(appId, ".exe")
    case None => appId
    case Some(i) => appId[..i] + appId[i + 4..]
  }

  /** The name is the id without its first `.exe`, or the id itself when there is none. */
  lemma DisplayNameSpec(appId: string, i: nat)
    ensures !Contains(appId, ".exe") ==> DisplayName(appId) == appId
    ensures OccursAt(appId, ".exe", i) && (forall j :: 0 <= j < i ==> !OccursAt(appId, ".exe", j)) ==>
      DisplayName(appId) == appId[..i] + appId[i + 4..] && |DisplayName(appId)| == |appId| - 4
  {
    if OccursAt(appId, ".exe", i) && (forall j :: 0 <= j < i ==> !OccursAt(appId, ".exe", j)) {
      var k := IndexOf(appId, ".exe").value;
      assert !(k < i) && !(i < k);
    }
  }

  /** Unlike the trimming of process names, which strips every trailing `.exe`, the table strips
      one `.exe` ... */
  lemma DisplayNameStripsOnce()
    ensures DisplayName("a.exe.exe") == "a.exe" && Discovery.TrimExe("a.exe.exe") == "a"
  {
    DoubleExeDisplayName();
    DoubleExeTrimmed();
  }

  /** An id whose first `.exe` starts at index 1 loses exactly those four characters. */
  lemma StripsAtOne(s: string)
    requires |s| >= 5 && s[0] != '.' && s[1..5] == ".exe"
    ensures DisplayName(s) == s[..1] + s[5..]
  {
    assert OccursAt(s, ".exe", 1);
    assert !OccursAt(s, ".exe", 0);
    DisplayNameSpec(s, 1);
  }

  lemma DoubleExeDisplayName()
    ensures DisplayName("a.exe.exe") == "a.exe"
  {
    StripsAtOne("a.exe.exe");
    assert "a.exe.exe"[..1] + "a.exe.exe"[5..] == "a.exe";
  }

  lemma DoubleExeTrimmed()
    ensures Discovery.TrimExe("a.exe.exe") == "a"
  {
    assert Discovery.TrimExe("a.exe") == "a" by {
      assert "a.exe"[..1] == "a";
      assert Discovery.TrimExe("a") == "a";
    }
    assert "a.exe.exe"[..5] == "a.exe";
  }

  /** ... and not necessarily a trailing one. */
  lemma DisplayNameStripsInside()
    ensures DisplayName("a.exec") == "ac"
  {
    StripsAtOne("a.exec");
    assert "a.exec"[..1] + "a.exec"[5..] == "ac";
  }
}
