/** The blocked-apps card (client/src/components/BlockedAppsList.tsx): every block rule joined with
    the display name of the favorite for the same app, an icon picked by keywords in the app id,
    and the mode badge. */
module BlockedApps {
  import opened Wrappers
  import opened Text
  import opened Schema
  import opened Icons
  import Seqs
  import RulesTable

  // ---------------------------------------------------------------- getAppIcon

  /** `getAppIcon`: case-insensitive keyword tests on the app id, in a fixed order. */
  function AppIcon(appId: string): Icon {
    var l := Lower(appId);
    if Contains(l, "discord") then MessageCircle
    else if Contains(l, "chrome") || Contains(l, "firefox") || Contains(l, "edge") then Globe
    else if Contains(l, "steam") || Contains(l, "epic") || Contains(l, "origin") then Gamepad2
    else if Contains(l, "spotify") || Contains(l, "music") then Music
    else if Contains(l, "slack") || Contains(l, "teams") || Contains(l, "zoom") then Users
    else if Contains(l, "netflix") || Contains(l, "youtube") || Contains(l, "twitch") then Play
    else Monitor
  }

  /** The categories as data: each icon with its keywords, highest priority first. */
  const Categories: seq<(Icon, seq<string>)> := [
    (MessageCircle, ["discord"]),
    (Globe, ["chrome", "firefox", "edge"]),
    (Gamepad2, ["steam", "epic", "origin"]),
    (Music, ["spotify", "music"]),
    (Users, ["slack", "teams", "zoom"]),
    (Play, ["netflix", "youtube", "twitch"])
  ]

  /** Some keyword occurs in `s`. */
  predicate AnyIn(s: string, keywords: seq<string>) {
    exists i :: 0 <= i < |keywords| && Contains(s, keywords[i])
  }

  /** The icon of the first category with a keyword in `s`, `Monitor` when there is none. */
  function Classify(s: string, categories: seq<(Icon, seq<string>)>): Icon {
    if |categories| == 0 then Monitor
    else if AnyIn(s, categories[0].1) then categories[0].0
    else Classify(s, categories[1..])
  }

  /** The first-match rule of `Classify`, for a table that does not itself list `Monitor`. */
  lemma {:induction false} ClassifySpec(s: string, categories: seq<(Icon, seq<string>)>)
    requires forall i :: 0 <= i < |categories| ==> categories[i].0 != Monitor
    ensures Classify(s, categories) == Monitor <==>
      forall i :: 0 <= i < |categories| ==> !AnyIn(s, categories[i].1)
    ensures forall i :: 0 <= i < |categories| && AnyIn(s, categories[i].1) &&
               (forall j :: 0 <= j < i ==> !AnyIn(s, categories[j].1))
               ==> Classify(s, categories) == categories[i].0
  {
    if |categories| > 0 {
      ClassifySpec(s, categories[1..]);
      assert forall i :: 1 <= i < |categories| ==> categories[i] == categories[1..][i - 1];
    }
  }

  lemma AnyInOne(s: string, a: string)
    ensures AnyIn(s, [a]) <==> Contains(s, a)
  {
    if Contains(s, a) { assert [a][0] == a; }
  }

  lemma AnyInTwo(s: string, a: string, b: string)
    ensures AnyIn(s, [a, b]) <==> Contains(s, a) || Contains(s, b)
  {
    if Contains(s, a) { assert [a, b][0] == a; }
    if Contains(s, b) { assert [a, b][1] == b; }
  }

  lemma AnyInThree(s: string, a: string, b: string, c: string)
    ensures AnyIn(s, [a, b, c]) <==> Contains(s, a) || Contains(s, b) || Contains(s, c)
  {
    if Contains(s, a) { assert [a, b, c][0] == a; }
    if Contains(s, b) { assert [a, b, c][1] == b; }
    if Contains(s, c) { assert [a, b, c][2] == c; }
  }

  lemma ClassifyCons(s: string, first: (Icon, seq<string>), rest: seq<(Icon, seq<string>)>)
    ensures Classify(s, [first] + rest) == if AnyIn(s, first.1) then first.0 else Classify(s, rest)
  {
    assert ([first] + rest)[1..] == rest;
  }

  /** The if-chain is the table read in order. */
  lemma AppIconByTable(appId: string)
    ensures AppIcon(appId) == Classify(Lower(appId), Categories)
  {
    var l := Lower(appId);
    var c6: seq<(Icon, seq<string>)> := [];
    var c5 := [(Play, ["netflix", "youtube", "twitch"])] + c6;
    var c4 := [(Users, ["slack", "teams", "zoom"])] + c5;
    var c3 := [(Music, ["spotify", "music"])] + c4;
    var c2 := [(Gamepad2, ["steam", "epic", "origin"])] + c3;
    var c1 := [(Globe, ["chrome", "firefox", "edge"])] + c2;
    assert Categories == [(MessageCircle, ["discord"])] + c1;
    assert Classify(l, Categories) == if Contains(l, "discord") then MessageCircle else Classify(l, c1) by {
      AnyInOne(l, "discord");
      ClassifyCons(l, (MessageCircle, ["discord"]), c1);
    }
    assert Classify(l, c1) == if Contains(l, "chrome") || Contains(l, "firefox") || Contains(l, "edge")
                              then Globe else Classify(l, c2) by {
      AnyInThree(l, "chrome", "firefox", "edge");
      ClassifyCons(l, (Globe, ["chrome", "firefox", "edge"]), c2);
    }
    assert Classify(l, c2) == if Contains(l, "steam") || Contains(l, "epic") || Contains(l, "origin")
                              then Gamepad2 else Classify(l, c3) by {
      AnyInThree(l, "steam", "epic", "origin");
      ClassifyCons(l, (Gamepad2, ["steam", "epic", "origin"]), c3);
    }
    assert Classify(l, c3) == if Contains(l, "spotify") || Contains(l, "music")
                              then Music else Classify(l, c4) by {
      AnyInTwo(l, "spotify", "music");
      ClassifyCons(l, (Music, ["spotify", "music"]), c4);
    }
    assert Classify(l, c4) == if Contains(l, "slack") || Contains(l, "teams") || Contains(l, "zoom")
                              then Users else Classify(l, c5) by {
      AnyInThree(l, "slack", "teams", "zoom");
      ClassifyCons(l, (Users, ["slack", "teams", "zoom"]), c5);
    }
    assert Classify(l, c5) == if Contains(l, "netflix") || Contains(l, "youtube") || Contains(l, "twitch")
                              then Play else Monitor by {
      AnyInThree(l, "netflix", "youtube", "twitch");
      ClassifyCons(l, (Play, ["netflix", "youtube", "twitch"]), c6);
    }
  }

  /** An app id is shown with the icon of the first category one of whose keywords it contains,
      ignoring case, so "discord" beats every other keyword; with no keyword it gets `Monitor`. */
  lemma AppIconSpec(appId: string)
    ensures AppIcon(appId) == Monitor <==>
      forall i :: 0 <= i < |Categories| ==> !AnyIn(Lower(appId), Categories[i].1)
    ensures forall i :: 0 <= i < |Categories| && AnyIn(Lower(appId), Categories[i].1) &&
               (forall j :: 0 <= j < i ==> !AnyIn(Lower(appId), Categories[j].1))
               ==> AppIcon(appId) == Categories[i].0
    ensures Contains(Lower(appId), "discord") ==> AppIcon(appId) == MessageCircle
  {
    AppIconByTable(appId);
    ClassifySpec(Lower(appId), Categories);
  }

  /** The two block-list views disagree on Discord: this card shows it with `MessageCircle`, the
      rules table with `Gamepad2`. */
  lemma DiscordIconsDiffer()
    ensures RulesTable.IconComponent(RulesTable.AppIconName("discord.exe")) == Gamepad2
    ensures AppIcon("discord.exe") == MessageCircle
  {
    assert Lower("discord.exe") == "discord.exe";
    assert Contains("discord.exe", "discord") by {
      assert "discord.exe"[..7] == "discord";
    }
  }

  // ---------------------------------------------------------------- the join

  datatype BlockedApp = BlockedApp(rule: BlockRule, displayName: string, icon: Icon)

  function FavoriteFor(appId: string): Favorite -> bool {
    (f: Favorite) => f.appId == appId
  }

  /** `favorite?.displayName || rule.appId` for the first favorite of the same app. */
  function DisplayNameFor(favorites: seq<Favorite>, rule: BlockRule): string {
    match Seqs.Find(favorites, FavoriteFor(rule.appId))
    case Some(f) => if f.displayName != "" then f.displayName else rule.appId
    case None => rule.appId
  }

  /** The name is that of the first favorite for the rule's app, unless it is empty; with no such
      favorite it is the app id. */
  lemma DisplayNameForSpec(favorites: seq<Favorite>, rule: BlockRule, i: int)
    ensures (forall k :: 0 <= k < |favorites| ==> favorites[k].appId != rule.appId) ==>
      DisplayNameFor(favorites, rule) == rule.appId
    ensures 0 <= i < |favorites| && favorites[i].appId == rule.appId &&
            (forall j :: 0 <= j < i ==> favorites[j].appId != rule.appId)
            ==> DisplayNameFor(favorites, rule) ==
                  (if favorites[i].displayName != "" then favorites[i].displayName else rule.appId)
    ensures DisplayNameFor(favorites, rule) == "" ==> rule.appId == ""
  {
    if 0 <= i < |favorites| && favorites[i].appId == rule.appId &&
       (forall j :: 0 <= j < i ==> favorites[j].appId != rule.appId) {
      Seqs.FindAt(favorites, FavoriteFor(rule.appId), i);
    }
  }

  /** `blockRules.map(...)` with the queries' `[]` defaults for data not loaded yet. */
  function BlockedAppsOf(blockRules: Option<seq<BlockRule>>, favorites: Option<seq<Favorite>>)
    : (r: seq<BlockedApp>)
    ensures |r| == |blockRules.GetOr([])|
    ensures forall i :: 0 <= i < |r| ==>
      && r[i].rule == blockRules.GetOr([])[i]
      && r[i].displayName == DisplayNameFor(favorites.GetOr([]), r[i].rule)
      && r[i].icon == AppIcon(r[i].rule.appId)
  {
    var rules := blockRules.GetOr([]);
    seq(|rules|, i requires 0 <= i < |rules| =>
      BlockedApp(rules[i], DisplayNameFor(favorites.GetOr([]), rules[i]), AppIcon(rules[i].appId)))
  }

  /** The mode badge's text. */
  function ModeLabel(mode: string): string {
    if mode == "hard" then "Hard" else "Soft"
  }

  /** The badge reads `Hard` exactly for hard rules, and exactly when it takes the destructive
      variant the rules table uses for them. */
  lemma ModeLabelSpec(mode: string)
    ensures ModeLabel(mode) == "Hard" <==> mode == "hard"
    ensures ModeLabel(mode) == "Hard" <==> RulesTable.ModeVariant(mode) == "destructive"
    ensures ModeLabel(mode) == "Hard" || ModeLabel(mode) == "Soft"
  {
  }
}
