/** The client's transport (client/src/lib/queryClient.ts): in the desktop shell an
    `apiRequest(method, url)` is answered by a Tauri command chosen by an if-chain over the method
    and the url, and everything the chain does not match goes to HTTP `fetch`; query functions map
    their first key segment to a command through `endpointToCommand`; HTTP responses that are not
    ok become errors `"<status>: <text>"`. The commands, `fetch` and the `Response` objects are
    foreign: the model is the routing decision and the status and error text it fixes. */
module QueryClient {
  import opened Wrappers
  import opened Text
  import Seqs
  import Schema

  // ---------------------------------------------------------------- commands and endpoints

  /** The Tauri commands the client invokes. */
  datatype Command =
    | GetFavorites | GetBlockRules | GetSessions | GetSettings
    | CreateFavorite | CreateBlockRule | CreateSession | UpsertSetting
    | UpdateSession | DeleteFavorite | DeleteBlockRule

  function CommandName(c: Command): string {
    match c
    case GetFavorites => "get_favorites"
    case GetBlockRules => "get_block_rules"
    case GetSessions => "get_sessions"
    case GetSettings => "get_settings"
    case CreateFavorite => "create_favorite"
    case CreateBlockRule => "create_block_rule"
    case CreateSession => "create_session"
    case UpsertSetting => "upsert_setting"
    case UpdateSession => "update_session"
    case DeleteFavorite => "delete_favorite"
    case DeleteBlockRule => "delete_block_rule"
  }

  /** Distinct commands have distinct wire names. */
  lemma CommandNameInjective(c: Command, d: Command)
    ensures CommandName(c) == CommandName(d) <==> c == d
  {
  }

  const Favorites: string := "/api/favorites"
  const BlockRules: string := "/api/block-rules"
  const Sessions: string := "/api/sessions"
  const Settings: string := "/api/settings"

  /** `endpointToCommand`. */
  const EndpointToCommand: map<string, Command> :=
    map[Favorites := GetFavorites, BlockRules := GetBlockRules,
        Sessions := GetSessions, Settings := GetSettings]

  // ---------------------------------------------------------------- url segments

  /** `url.split('/').pop()`: the text after the last `/` (all of it when there is none). */
  function LastSegment(url: string): (r: string)
    ensures '/' !in r && EndsWith(url, r)
    ensures |r| < |url| ==> url[|url| - |r| - 1] == '/'
  {
    if |url| == 0 then ""
    else if url[|url| - 1] == '/' then ""
    else
      var r := LastSegment(url[..|url| - 1]) + [url[|url| - 1]];
      assert url[|url| - |r|..] == url[..|url| - 1][|url| - |r|..] + [url[|url| - 1]];
      r
  }

  /** The id after a collection path is its last segment when it holds no `/`. */
  lemma LastSegmentOfItem(collection: string, id: string)
    requires '/' !in id
    ensures LastSegment(collection + "/" + id) == id
  {
    var url := collection + "/" + id;
    var r := LastSegment(url);
    assert url[|url| - |id| - 1] == '/';
    assert url[|url| - |id|..] == id;
  }

  // ---------------------------------------------------------------- apiRequest

  /** What `apiRequest` does with a request: invoke a command (with the id taken from the url,
      when it takes one) and answer with a fixed status, look a setting up by key in the result
      of `get_settings`, or fall back to HTTP `fetch`. */
  datatype Route =
    | Invoke(command: Command, id: Option<string>, status: nat)
    | LookupSetting(key: string)
    | Fetch

  /** The if-chain of `apiRequest` (its Tauri branch, then the fallback). */
  function RouteRequest(isTauri: bool, httpMethod: string, url: string): Route {
    if !isTauri then Fetch
    else if httpMethod == "GET" then
      if url == Favorites then Invoke(GetFavorites, None, 200)
      else if url == BlockRules then Invoke(GetBlockRules, None, 200)
      else if url == Sessions then Invoke(GetSessions, None, 200)
      else if url == Settings then Invoke(GetSettings, None, 200)
      else if StartsWith(url, Settings + "/") then LookupSetting(LastSegment(url))
      else Fetch
    else if httpMethod == "POST" then
      if url == Favorites then Invoke(CreateFavorite, None, 201)
      else if url == BlockRules then Invoke(CreateBlockRule, None, 201)
      else if url == Sessions then Invoke(CreateSession, None, 201)
      else if url == Settings then Invoke(UpsertSetting, None, 200)
      else Fetch
    else if httpMethod == "PATCH" then
      if StartsWith(url, Sessions + "/") then Invoke(UpdateSession, Some(LastSegment(url)), 200)
      else Fetch
    else if httpMethod == "DELETE" then
      if StartsWith(url, Favorites + "/") then Invoke(DeleteFavorite, Some(LastSegment(url)), 204)
      else if StartsWith(url, BlockRules + "/") then Invoke(DeleteBlockRule, Some(LastSegment(url)), 204)
      else Fetch
    else Fetch
  }

  // The REST meaning of each command, stated independently of the chain: its HTTP method, the
  // collection it acts on, whether it addresses one item by id, and the status it answers with.

  function Verb(c: Command): string {
    match c
    case GetFavorites | GetBlockRules | GetSessions | GetSettings => "GET"
    case CreateFavorite | CreateBlockRule | CreateSession | UpsertSetting => "POST"
    case UpdateSession => "PATCH"
    case DeleteFavorite | DeleteBlockRule => "DELETE"
  }

  function Collection(c: Command): string {
    match c
    case GetFavorites | CreateFavorite | DeleteFavorite => Favorites
    case GetBlockRules | CreateBlockRule | DeleteBlockRule => BlockRules
    case GetSessions | CreateSession | UpdateSession => Sessions
    case GetSettings | UpsertSetting => Settings
  }

  predicate TakesId(c: Command) {
    c.UpdateSession? || c.DeleteFavorite? || c.DeleteBlockRule?
  }

  /** Reads answer 200, creations 201, the settings upsert and the session update 200, deletions
      204 (with no body). */
  function SuccessStatus(c: Command): nat {
    match c
    case CreateFavorite | CreateBlockRule | CreateSession => 201
    case DeleteFavorite | DeleteBlockRule => 204
    case _ => 200
  }

  /** The url a client builds for a command (`/api/<collection>` or `/api/<collection>/<id>`). */
  function CommandUrl(c: Command, id: string): string {
    if TakesId(c) then Collection(c) + "/" + id else Collection(c)
  }

  /** `endpointToCommand` is exactly the table of the GET commands on whole collections: an
      endpoint is listed iff it is such a command's collection url, and it maps to that command. */
  lemma EndpointToCommandSpec(c: Command, endpoint: string)
    ensures Verb(c) == "GET" && !TakesId(c) <==>
      CommandUrl(c, "") in EndpointToCommand && EndpointToCommand[CommandUrl(c, "")] == c
    ensures endpoint in EndpointToCommand ==>
      var d := EndpointToCommand[endpoint];
      Verb(d) == "GET" && !TakesId(d) && CommandUrl(d, "") == endpoint
  {
  }

  /** Soundness of the chain: whenever it invokes a command, the request was made in the shell
      with that command's method, on that command's collection (exactly, or on an item below it
      whose last segment becomes the id), and the answer carries that command's status. */
  lemma RouteSound(isTauri: bool, httpMethod: string, url: string)
    ensures var r := RouteRequest(isTauri, httpMethod, url);
      r.Invoke? ==>
        && isTauri && httpMethod == Verb(r.command) && r.status == SuccessStatus(r.command)
        && (TakesId(r.command) ==>
              StartsWith(url, Collection(r.command) + "/") && r.id == Some(LastSegment(url)))
        && (!TakesId(r.command) ==> url == Collection(r.command) && r.id == None)
  {
  }

  /** Completeness for the collection commands: the url a client builds routes to the command. */
  lemma RouteCompleteCollection(c: Command)
    requires !TakesId(c)
    ensures RouteRequest(true, Verb(c), CommandUrl(c, "")) == Invoke(c, None, SuccessStatus(c))
  {
    match c
    case GetFavorites =>
    case GetBlockRules =>
    case GetSessions =>
    case GetSettings =>
    case CreateFavorite =>
    case CreateBlockRule =>
    case CreateSession =>
    case UpsertSetting =>
  }

  /** Completeness for the item commands: `/api/<collection>/<id>` routes to the command with
      that id, whenever the id holds no `/`. */
  lemma RouteCompleteItem(c: Command, id: string)
    requires TakesId(c) && '/' !in id
    ensures RouteRequest(true, Verb(c), CommandUrl(c, id)) == Invoke(c, Some(id), SuccessStatus(c))
  {
    var url := CommandUrl(c, id);
    LastSegmentOfItem(Collection(c), id);
    assert StartsWith(url, Collection(c) + "/");
    if c.DeleteBlockRule? {
      NotBelow(url, BlockRules + "/", Favorites + "/", 5);
    }
  }

  /** A url below one collection is not below another whose path differs at index `i`. */
  lemma NotBelow(url: string, p: string, q: string, i: nat)
    requires StartsWith(url, p) && i < |p| && i < |q| && p[i] != q[i]
    ensures !StartsWith(url, q) && url != q
  {
    assert url[i] == p[i];
  }

  /** A setting is looked up exactly for a shell GET below `/api/settings/`, with the last segment
      as its key; the exact `/api/settings` read is `get_settings` instead. */
  lemma SettingLookupRoute(isTauri: bool, httpMethod: string, url: string, key: string)
    ensures RouteRequest(isTauri, httpMethod, url) == LookupSetting(key) <==>
      isTauri && httpMethod == "GET" && StartsWith(url, Settings + "/") && key == LastSegment(url)
    ensures RouteRequest(true, "GET", Settings) == Invoke(GetSettings, None, 200)
  {
    if isTauri && httpMethod == "GET" && StartsWith(url, Settings + "/") {
      NotBelow(url, Settings + "/", Favorites, 5);
      NotBelow(url, Settings + "/", BlockRules, 5);
      assert |Settings + "/"| > |Sessions| && |Settings + "/"| > |Settings|;
    }
  }

  /** The PATCH that `useUpdateBlockRule` sends is not routed to a command: in the shell it goes
      to `fetch`, like every other pair the chain does not list. */
  lemma BlockRulePatchFetches(id: string)
    ensures RouteRequest(true, "PATCH", BlockRules + "/" + id) == Fetch
  {
    NotBelow(BlockRules + "/" + id, BlockRules + "/", Sessions + "/", 5);
  }

  // ---------------------------------------------------------------- the settings lookup

  /** `(result as any[]).find((s) => s.key === key)` over the list `get_settings` returns, and the
      status of the answer: 200 with the setting, or 404 with `null`. */
  datatype SettingAnswer = SettingAnswer(setting: Option<Schema.Setting>, status: nat)

  function KeyIs(key: string): Schema.Setting -> bool {
    (s: Schema.Setting) => s.key == key
  }

  function LookupSettingAnswer(settings: seq<Schema.Setting>, key: string): (r: SettingAnswer)
    ensures r.status == 200 || r.status == 404
    ensures r.status == 200 <==> exists i :: 0 <= i < |settings| && settings[i].key == key
    ensures r.setting.Some? <==> r.status == 200
    ensures r.setting.Some? ==> r.setting.value.key == key
    ensures r.setting.Some? ==>
      exists i :: 0 <= i < |settings| && settings[i] == r.setting.value &&
        forall j :: 0 <= j < i ==> settings[j].key != key
  {
    var found := Seqs.Find(settings, KeyIs(key));
    SettingAnswer(found, if found.Some? then 200 else 404)
  }

  // ---------------------------------------------------------------- throwIfResNotOk

  predicate IsOk(status: nat) { 200 <= status <= 299 }

  /** `throwIfResNotOk`: nothing for a 2xx response, else the error `"<status>: <text>"` where the
      text is the body, or the status text when the body is empty. */
  function CheckResponse(status: nat, body: string, statusText: string): Result<(), string> {
    if IsOk(status) then Ok(())
    else Err(NatToString(status) + ": " + (if body != "" then body else statusText))
  }

  /** The longest run of digits at the front of `s`. */
  function LeadingDigits(s: string): (r: string)
    ensures StartsWith(s, r) && AllDigits(r)
    ensures |r| < |s| ==> !IsDigit(s[|r|])
  {
    if |s| == 0 || !IsDigit(s[0]) then "" else [s[0]] + LeadingDigits(s[1..])
  }

  lemma LeadingDigitsOf(d: string, rest: string)
    requires AllDigits(d) && (|rest| == 0 || !IsDigit(rest[0]))
    ensures LeadingDigits(d + rest) == d
  {
    var s := d + rest;
    var r := LeadingDigits(s);
    assert s[..|d|] == d;
  }

  /** Reading an error message back: the status before `": "` and the text after it. */
  function ParseError(message: string): Option<(nat, string)> {
    var d := LeadingDigits(message);
    if |d| > 0 && StartsWith(message[|d|..], ": ") then Some((DecimalValue(d), message[|d| + 2..]))
    else None
  }

  /** The error is raised exactly for a response that is not 2xx, and it loses nothing: its
      message reads back as the status and the text it was built from. */
  lemma CheckResponseSpec(status: nat, body: string, statusText: string)
    ensures CheckResponse(status, body, statusText).Ok? <==> IsOk(status)
    ensures CheckResponse(status, body, statusText).Err? ==>
      ParseError(CheckResponse(status, body, statusText).error)
        == Some((status, if body != "" then body else statusText))
  {
    if !IsOk(status) {
      var d := NatToString(status);
      var text := if body != "" then body else statusText;
      var m := d + ": " + text;
      assert m == d + (": " + text);
      LeadingDigitsOf(d, ": " + text);
      DecimalRoundTrip(status);
      assert m[|d|..] == ": " + text;
      assert m[|d| + 2..] == text;
    }
  }

  // ---------------------------------------------------------------- getQueryFn

  datatype Unauthorized = ReturnNull | Throw

  /** The default query function of the client is built with `on401: "throw"`. */
  const DefaultOn401: Unauthorized := Throw

  /** What a query function does with its key: invoke the command mapped to the first segment,
      or fetch the segments joined by `/`. */
  datatype QueryRoute = InvokeQuery(command: Command) | FetchQuery(url: string)

  function QueryFnRoute(isTauri: bool, queryKey: seq<string>): QueryRoute {
    if isTauri && |queryKey| > 0 && queryKey[0] in EndpointToCommand then
      InvokeQuery(EndpointToCommand[queryKey[0]])
    else FetchQuery(Join(queryKey, "/"))
  }

  /** The outcome of a fetched query: `null`, the parsed body, or the error thrown. */
  datatype QueryResult<T> = NullResult | Data(value: T) | Failure(message: string)

  function FetchQueryResult<T>(on401: Unauthorized, status: nat, body: string, statusText: string,
                              parsed: T): QueryResult<T> {
    if on401 == ReturnNull && status == 401 then NullResult
    else match CheckResponse(status, body, statusText)
      case Ok(_) => Data(parsed)
      case Err(m) => Failure(m)
  }

  /** A query keyed by a collection endpoint invokes the same command as a GET `apiRequest` on
      it, whatever segments follow; any other key is fetched, by its joined segments. */
  lemma QueryRouteAgreesWithRequest(queryKey: seq<string>)
    ensures |queryKey| > 0 && queryKey[0] in EndpointToCommand ==>
      QueryFnRoute(true, queryKey).InvokeQuery? &&
      RouteRequest(true, "GET", queryKey[0]) == Invoke(QueryFnRoute(true, queryKey).command, None, 200)
    ensures QueryFnRoute(true, queryKey).FetchQuery? <==>
      |queryKey| == 0 || queryKey[0] !in EndpointToCommand
    ensures QueryFnRoute(false, queryKey) == FetchQuery(Join(queryKey, "/"))
  {
    if |queryKey| > 0 && queryKey[0] in EndpointToCommand {
      var c := EndpointToCommand[queryKey[0]];
      assert c in {GetFavorites, GetBlockRules, GetSessions, GetSettings};
      assert CommandUrl(c, "") == queryKey[0] && Verb(c) == "GET";
      RouteCompleteCollection(c);
    }
  }

  /** A 401 yields `null` exactly under `returnNull`; under the default it fails with a message
      that reads back as status 401. Any other response is data iff it is 2xx. */
  lemma FetchQueryResultSpec<T>(on401: Unauthorized, status: nat, body: string, statusText: string,
                                parsed: T)
    ensures FetchQueryResult(on401, status, body, statusText, parsed).NullResult? <==>
      on401 == ReturnNull && status == 401
    ensures FetchQueryResult(on401, status, body, statusText, parsed).Data? <==> IsOk(status)
    ensures FetchQueryResult(on401, status, body, statusText, parsed).Data? ==>
      FetchQueryResult(on401, status, body, statusText, parsed).value == parsed
    ensures FetchQueryResult(on401, status, body, statusText, parsed).Failure? ==>
      ParseError(FetchQueryResult(on401, status, body, statusText, parsed).message).Some? &&
      ParseError(FetchQueryResult(on401, status, body, statusText, parsed).message).value.0 == status
  {
    CheckResponseSpec(status, body, statusText);
  }

  // ---------------------------------------------------------------- command errors

  /** The error `getTauriInvoke` throws when neither the window nor the Tauri module supplies an
      `invoke`; `apiRequest` and the query functions both ask it first in the desktop shell. */
  const InvokeUnavailable: string := "Tauri invoke not available"

  /** `error?.message || 'Tauri command failed'`: a failed command is rethrown with its own
      message, or a fixed one when it has none. */
  function CommandErrorMessage(message: Option<string>): (r: string)
    ensures r != ""
    ensures message.Some? && message.value != "" ==> r == message.value
  {
    if message.Some? && message.value != "" then message.value else "Tauri command failed"
  }
}
