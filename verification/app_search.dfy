/** The client side of application search (client/src/hooks/useAppSearch.ts): the installed
    applications and running processes reported by the desktop back end are merged (the first
    occurrence of a case-insensitive name wins), filtered by the query and converted to the
    `AppSummary` records the search box shows. */
module AppSearch {
  import opened Wrappers
  import opened Text
  import Seqs
  import JsMap
  import Discovery
  import QueryClient

  type AppInfo = Discovery.AppInfo

  /** `AppSummary` of the shared schema. */
  datatype AppSummary = AppSummary(appId: string, displayName: string, exeOrTarget: Option<string>,
                                   packageFamily: Option<string>, iconHint: Option<string>)

  const MinQueryLength: nat := 2

  // ---------------------------------------------------------------- convertTauriApp

  /** Drops the leading characters of `s` that satisfy `sep`. */
  function DropWhile(s: string, sep: char -> bool): (r: string)
    ensures |r| <= |s| && r == s[|s| - |r|..]
    ensures |r| > 0 ==> !sep(r[0])
    ensures forall i :: 0 <= i < |s| - |r| ==> sep(s[i])
  {
    if |s| > 0 && sep(s[0]) then
      var r := DropWhile(s[1..], sep);
      assert forall i :: 1 <= i < |s| - |r| ==> s[i] == s[1..][i - 1];
      r
    else s
  }

  /** Dropping stops inside `x` when `x` ends with a character that is kept. */
  lemma {:induction false} DropWhileAppend(x: string, y: string, sep: char -> bool)
    requires |x| > 0 && !sep(x[|x| - 1])
    ensures DropWhile(x + y, sep) == DropWhile(x, sep) + y
    ensures |DropWhile(x, sep)| > 0 && DropWhile(x, sep)[|DropWhile(x, sep)| - 1] == x[|x| - 1]
  {
    if sep(x[0]) {
      assert |x| > 1;
      assert (x + y)[1..] == x[1..] + y;
      assert x[1..][|x[1..]| - 1] == x[|x| - 1];
      DropWhileAppend(x[1..], y, sep);
    }
  }

  /** `s.replace(/\s+/g, '-')`: every maximal run of whitespace becomes one `-`. */
  function DashSpaceRuns(s: string): (r: string)
    ensures |r| <= |s|
    decreases |s|
  {
    if |s| == 0 then ""
    else if IsJsSpace(s[0]) then "-" + DashSpaceRuns(DropWhile(s[1..], IsJsSpace))
    else [s[0]] + DashSpaceRuns(s[1..])
  }

  /** The `appId` slug of a name: lower-cased, whitespace runs replaced by `-`. */
  function Slug(name: string): string {
    DashSpaceRuns(Lower(name))
  }

  predicate IsHintSeparator(c: char) {
    IsJsSpace(c) || c == '.'
  }

  /** `s.split(/[\s.]+/)[0]`: the text before the first whitespace character or dot. */
  function FirstWord(s: string): (r: string)
    ensures |r| <= |s| && s[..|r|] == r
    ensures forall i :: 0 <= i < |r| ==> !IsHintSeparator(r[i])
    ensures |r| < |s| ==> IsHintSeparator(s[|r|])
  {
    if |s| == 0 || IsHintSeparator(s[0]) then ""
    else [s[0]] + FirstWord(s[1..])
  }

  /** `convertTauriApp`. */
  function ConvertApp(app: AppInfo): AppSummary {
    AppSummary(
      appId := if app.path.Some? && app.path.value != "" then app.path.value else Slug(app.name),
      displayName := app.name,
      exeOrTarget := app.path,
      packageFamily := None,
      iconHint := Some(FirstWord(Lower(app.name))))
  }

  /** The identifier is the install path when there is one, and otherwise a slug of the
      lower-cased name without whitespace; the display name and target are copied; the icon hint
      is the leading word of the lower-cased name, free of whitespace and dots. */
  lemma ConvertAppSpec(app: AppInfo)
    ensures var s := ConvertApp(app);
      && (app.path.Some? && app.path.value != "" ==> s.appId == app.path.value)
      && (app.path.None? || app.path.value == "" ==>
            s.appId == DashSpaceRuns(Lower(app.name)) && forall i :: 0 <= i < |s.appId| ==> !IsJsSpace(s.appId[i]))
      && s.displayName == app.name && s.exeOrTarget == app.path
      && s.iconHint.Some? && StartsWith(Lower(app.name), s.iconHint.value)
      && (forall i :: 0 <= i < |s.iconHint.value| ==> !IsHintSeparator(s.iconHint.value[i]))
  {
    DashSpaceRunsNoWhitespace(Lower(app.name));
  }

  /** The slug contains no whitespace at all. */
  lemma {:induction false} DashSpaceRunsNoWhitespace(s: string)
    ensures forall i :: 0 <= i < |DashSpaceRuns(s)| ==> !IsJsSpace(DashSpaceRuns(s)[i])
    decreases |s|
  {
    if |s| > 0 {
      var head := if IsJsSpace(s[0]) then "-" else [s[0]];
      var tail := if IsJsSpace(s[0]) then DropWhile(s[1..], IsJsSpace) else s[1..];
      DashSpaceRunsNoWhitespace(tail);
      assert DashSpaceRuns(s) == head + DashSpaceRuns(tail);
      forall i | 0 <= i < |DashSpaceRuns(s)| ensures !IsJsSpace(DashSpaceRuns(s)[i]) {
        if i > 0 {
          assert DashSpaceRuns(s)[i] == DashSpaceRuns(tail)[i - 1];
        }
      }
    }
  }

  /** A name without whitespace is its own slug once lower-cased. */
  lemma {:induction false} DashSpaceRunsNoSpace(s: string)
    requires forall i :: 0 <= i < |s| ==> !IsJsSpace(s[i])
    ensures DashSpaceRuns(s) == s
  {
    if |s| > 0 {
      DashSpaceRunsNoSpace(s[1..]);
      assert s == [s[0]] + s[1..];
    }
  }

  /** A whitespace run between two words becomes exactly one dash, whatever its length. */
  lemma {:induction false} DashSpaceRunsJoin(a: string, w: string, b: string)
    requires |w| > 0 && forall i :: 0 <= i < |w| ==> IsJsSpace(w[i])
    requires |a| == 0 || !IsJsSpace(a[|a| - 1])
    requires |b| == 0 || !IsJsSpace(b[0])
    ensures DashSpaceRuns(a + w + b) == DashSpaceRuns(a) + "-" + DashSpaceRuns(b)
    decreases |a|
  {
    if |a| == 0 {
      assert a + w + b == w + b;
      DashSpaceRunsLeadingRun(w, b);
    } else if IsJsSpace(a[0]) {
      DashSpaceRunsJoinSpace(a, w, b);
    } else {
      DashSpaceRunsJoinWord(a, w, b);
    }
  }

  lemma {:induction false} DashSpaceRunsLeadingRun(w: string, b: string)
    requires |w| > 0 && forall i :: 0 <= i < |w| ==> IsJsSpace(w[i])
    requires |b| == 0 || !IsJsSpace(b[0])
    ensures DashSpaceRuns(w + b) == "-" + DashSpaceRuns(b)
  {
    assert DropWhile((w + b)[1..], IsJsSpace) == b by {
      assert (w + b)[1..] == w[1..] + b;
      DropSpaceRun(w[1..], b);
    }
    assert (w + b)[0] == w[0];
  }

  lemma {:induction false} DashSpaceRunsJoinSpace(a: string, w: string, b: string)
    requires |w| > 0 && forall i :: 0 <= i < |w| ==> IsJsSpace(w[i])
    requires |a| > 0 && IsJsSpace(a[0]) && !IsJsSpace(a[|a| - 1])
    requires |b| == 0 || !IsJsSpace(b[0])
    ensures DashSpaceRuns(a + w + b) == DashSpaceRuns(a) + "-" + DashSpaceRuns(b)
    decreases |a|, 0
  {
    // The leading run of `a` ends before the last character of `a`.
    var a' := DropWhile(a[1..], IsJsSpace);
    assert DropWhile((a + w + b)[1..], IsJsSpace) == a' + w + b
        && |a'| > 0 && !IsJsSpace(a'[|a'| - 1]) by {
      assert (a + w + b)[1..] == a[1..] + (w + b);
      assert a[1..][|a[1..]| - 1] == a[|a| - 1];
      DropWhileAppend(a[1..], w + b, IsJsSpace);
      Seqs.ConcatAssoc(a', w, b);
    }
    DashSpaceRunsJoin(a', w, b);
    var x, y := DashSpaceRuns(a'), DashSpaceRuns(b);
    assert DashSpaceRuns(a + w + b) == "-" + DashSpaceRuns(a' + w + b) by {
      assert (a + w + b)[0] == a[0];
    }
    assert DashSpaceRuns(a) == "-" + x;
    Seqs.ConcatAssoc("-", x + "-", y);
    Seqs.ConcatAssoc("-", x, "-");
  }

  lemma {:induction false} DashSpaceRunsJoinWord(a: string, w: string, b: string)
    requires |w| > 0 && forall i :: 0 <= i < |w| ==> IsJsSpace(w[i])
    requires |a| > 0 && !IsJsSpace(a[0]) && !IsJsSpace(a[|a| - 1])
    requires |b| == 0 || !IsJsSpace(b[0])
    ensures DashSpaceRuns(a + w + b) == DashSpaceRuns(a) + "-" + DashSpaceRuns(b)
    decreases |a|, 0
  {
    var rest := a[1..];
    assert (a + w + b)[0] == a[0];
    assert (a + w + b)[1..] == rest + w + b;
    if |rest| > 0 {
      assert rest[|rest| - 1] == a[|a| - 1];
    }
    DashSpaceRunsJoin(rest, w, b);
  }

  lemma {:induction false} DropSpaceRun(w: string, b: string)
    requires forall i :: 0 <= i < |w| ==> IsJsSpace(w[i])
    requires |b| == 0 || !IsJsSpace(b[0])
    ensures DropWhile(w + b, IsJsSpace) == b
  {
    if |w| > 0 {
      assert (w + b)[1..] == w[1..] + b;
      DropSpaceRun(w[1..], b);
    } else {
      assert w + b == b;
    }
  }

  // ---------------------------------------------------------------- merge and filter

  function LowerName(app: AppInfo): string {
    Lower(app.name)
  }

  /** The merge loop: installed applications first, then running processes, keyed by
      lower-cased name in a `Map`; a key already present is not overwritten. */
  method MergeApps(installedApps: seq<AppInfo>, runningProcesses: seq<AppInfo>) returns (merged: seq<AppInfo>)
    ensures merged == Seqs.DedupBy(installedApps + runningProcesses, LowerName)
  {
    var all := installedApps + runningProcesses;
    var allApps: JsMap.Table<AppInfo> := JsMap.EmptyTable();
    for i := 0 to |all|
      invariant allApps.Valid()
      invariant allApps.Values() == Seqs.DedupBy(all[..i], LowerName)
      invariant forall k :: k in allApps.entries <==> k in Seqs.KeysOf(Seqs.DedupBy(all[..i], LowerName), LowerName)
    {
      var app := all[i];
      var key := Lower(app.name);
      Seqs.DedupBySnoc(all[..i], app, LowerName);
      Seqs.KeysOfAppend(Seqs.DedupBy(all[..i], LowerName), app, LowerName);
      assert all[..i + 1] == all[..i] + [app];
      if key !in allApps.entries {
        allApps := allApps.Set(key, app);
      }
    }
    assert all[..|all|] == all;
    merged := allApps.Values();
  }

  /** After merging, no two applications share a lower-cased name, every name of either list is
      represented, and each kept application is the first one with its lower-cased name: an
      installed application shadows a running process of the same name. */
  lemma MergeSpec(installedApps: seq<AppInfo>, runningProcesses: seq<AppInfo>)
    ensures var merged := Seqs.DedupBy(installedApps + runningProcesses, LowerName);
      && (forall i, j :: 0 <= i < j < |merged| ==> Lower(merged[i].name) != Lower(merged[j].name))
      && (forall a :: a in installedApps + runningProcesses ==> exists m :: m in merged && Lower(m.name) == Lower(a.name))
      && (forall m, a :: m in merged && a in installedApps && Lower(a.name) == Lower(m.name) ==> m in installedApps)
  {
    var all := installedApps + runningProcesses;
    var merged := Seqs.DedupBy(all, LowerName);
    Seqs.DedupByFirstOccurrence(all, LowerName);
    forall a | a in all ensures exists m :: m in merged && Lower(m.name) == Lower(a.name) {
      assert LowerName(a) in Seqs.KeysOf(all, LowerName);
    }
    forall m, a | m in merged && a in installedApps && Lower(a.name) == Lower(m.name) ensures m in installedApps {
      var i :| Seqs.FirstWithKey(all, LowerName, i) && all[i] == m;
      var j :| 0 <= j < |installedApps| && installedApps[j] == a;
      assert all[j] == a;
      assert i <= j;
      assert all[i] == installedApps[i];
    }
  }

  /** `app.name.toLowerCase().includes(searchLower)`. */
  predicate MatchesQuery(app: AppInfo, query: string) {
    Contains(Lower(app.name), Lower(query))
  }

  function QueryMatcher(query: string): AppInfo -> bool {
    (app: AppInfo) => MatchesQuery(app, query)
  }

  /** `.filter(app => app.name.toLowerCase().includes(searchLower))`, in merge order. */
  function MatchingApps(merged: seq<AppInfo>, query: string): seq<AppInfo> {
    Seqs.Filter(merged, QueryMatcher(query))
  }

  /** The filter keeps merge order: filtering a concatenation filters each part in turn. */
  lemma MatchingAppsInMergeOrder(s: seq<AppInfo>, t: seq<AppInfo>, query: string)
    ensures MatchingApps(s + t, query) == MatchingApps(s, query) + MatchingApps(t, query)
    ensures MatchingApps([], query) == []
    ensures forall a :: MatchingApps([a], query) == if MatchesQuery(a, query) then [a] else []
  {
    Seqs.FilterAppend(s, t, QueryMatcher(query));
  }

  function ConvertAll(apps: seq<AppInfo>): (r: seq<AppSummary>)
    ensures |r| == |apps| && forall i :: 0 <= i < |apps| ==> r[i] == ConvertApp(apps[i])
  {
    seq(|apps|, i requires 0 <= i < |apps| => ConvertApp(apps[i]))
  }

  /** A command result: a failed `invoke` is caught and counts as an empty list. */
  function OrEmpty(r: Result<seq<AppInfo>, string>): (apps: seq<AppInfo>)
    ensures r.Ok? ==> apps == r.value
    ensures r.Err? ==> apps == []
  {
    r.GetOr([])
  }

  /** What `fetch` answered for the search url: its status, its body text, its status text, and
      the applications its body parses to. */
  datatype WebResponse = WebResponse(status: nat, body: string, statusText: string, apps: seq<AppSummary>)

  /** What the query function resolves to, or the error it throws. */
  datatype SearchOutcome = Found(apps: seq<AppSummary>) | Failed(message: string)

  /** The text `throwIfResNotOk` reports: the body, or the status text when the body is empty. */
  function ErrorText(response: WebResponse): string {
    if response.body != "" then response.body else response.statusText
  }

  /** The web fallback `apiRequest('GET', '/api/apps/search?q=…')` then `response.json()`.
      `apiRequest` runs `throwIfResNotOk` on the fetched response, so a response that is not 2xx
      fails with `"<status>: <body or status text>"` before the hook sees it; the hook's own
      `!response.ok` branch, with its `Failed to search apps` message, is never reached. */
  function WebOutcome(response: WebResponse): (o: SearchOutcome)
    ensures o.Found? <==> QueryClient.IsOk(response.status)
    ensures o.Found? ==> o.apps == response.apps
    ensures o.Failed? ==>
      QueryClient.ParseError(o.message) == Some((response.status, ErrorText(response)))
  {
    QueryClient.CheckResponseSpec(response.status, response.body, response.statusText);
    match QueryClient.CheckResponse(response.status, response.body, response.statusText)
    case Ok(_) => Found(response.apps)
    case Err(m) => Failed(m)
  }

  /** `enabled: query.length >= 2`. */
  predicate SearchEnabled(query: string) {
    |query| >= MinQueryLength
  }

  /** The query function of `useSearchApps`. `invokeAvailable` is false when no Tauri `invoke`
      could be obtained. In the desktop shell the search then falls through to `apiRequest`, whose
      own `getTauriInvoke` fails the same way, so the search fails with `Tauri invoke not
      available`; outside the shell it is answered by the web back end. */
  method SearchApps(query: string, isTauri: bool, invokeAvailable: bool,
                    installed: Result<seq<AppInfo>, string>, running: Result<seq<AppInfo>, string>,
                    web: WebResponse) returns (o: SearchOutcome)
    ensures !SearchEnabled(query) ==> o == Found([])
    ensures SearchEnabled(query) && isTauri && invokeAvailable ==>
              o == Found(ConvertAll(MatchingApps(Seqs.DedupBy(OrEmpty(installed) + OrEmpty(running), LowerName), query)))
    ensures SearchEnabled(query) && isTauri && !invokeAvailable ==> o == Failed(QueryClient.InvokeUnavailable)
    ensures SearchEnabled(query) && !isTauri ==> o == WebOutcome(web)
  {
    if |query| < MinQueryLength {
      return Found([]);
    }
    if isTauri {
      if invokeAvailable {
        var merged := MergeApps(OrEmpty(installed), OrEmpty(running));
        return Found(ConvertAll(MatchingApps(merged, query)));
      }
      return Failed(QueryClient.InvokeUnavailable);
    }
    o := WebOutcome(web);
  }

  /** A failed web search reports the back end's status and error body, not the status text:
      the back end's 500 answer `{"error":"Failed to search apps"}` fails with
      `500: {"error":"Failed to search apps"}`. */
  lemma FailedWebSearchMessage(body: string, statusText: string, apps: seq<AppSummary>)
    requires body != ""
    ensures WebOutcome(WebResponse(500, body, statusText, apps)) == Failed("500: " + body)
  {
    var r := WebResponse(500, body, statusText, apps);
    assert WebOutcome(r) == Failed(NatToString(500) + ": " + body) by {
      assert !QueryClient.IsOk(500);
    }
    assert NatToString(500) == "500" by {
      assert NatToString(5) == "5";
      assert NatToString(50) == "50";
    }
    assert "500" + ": " == "500: ";
  }

  /** Search results contain only applications whose name contains the query, ignoring case, and
      no two of them have the same lower-cased name; failing commands only remove candidates. */
  lemma SearchResultsSpec(query: string, installed: Result<seq<AppInfo>, string>, running: Result<seq<AppInfo>, string>)
    ensures var merged := Seqs.DedupBy(OrEmpty(installed) + OrEmpty(running), LowerName);
            var found := MatchingApps(merged, query);
      && (forall a :: a in found ==> Contains(Lower(a.name), Lower(query)))
      && (forall i, j :: 0 <= i < j < |found| ==> Lower(found[i].name) != Lower(found[j].name))
      && (forall a :: a in merged && Contains(Lower(a.name), Lower(query)) ==> a in found)
  {
    var merged := Seqs.DedupBy(OrEmpty(installed) + OrEmpty(running), LowerName);
    MergeSpec(OrEmpty(installed), OrEmpty(running));
    Seqs.DedupByFirstOccurrence(OrEmpty(installed) + OrEmpty(running), LowerName);
    Seqs.FilterDistinct(merged, QueryMatcher(query), LowerName);
  }
}
