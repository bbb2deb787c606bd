/** The shared data model: the closed enumerations, the table rows, the insert and update
    shapes, and the request-body validation that the zod schemas perform. */
module Schema {
  import opened Wrappers

  // ---------------------------------------------------------------- enumerations

  /** The `MatchKind` union. */
  datatype MatchKind = Exe | Package | Lnk | Path | Regex

  /** The `BlockMode` union. */
  datatype BlockMode = Hard | Soft

  /** The `SessionStatus` union; there is no `paused`. */
  datatype SessionStatus = Scheduled | Running | Completed | Canceled

  const MatchKindNames: seq<string> := ["exe", "package", "lnk", "path", "regex"]
  const BlockModeNames: seq<string> := ["hard", "soft"]
  const SessionStatusNames: seq<string> := ["scheduled", "running", "completed", "canceled"]

  function MatchKindName(k: MatchKind): (s: string)
    ensures s in MatchKindNames
  {
    match k
    case Exe => "exe"
    case Package => "package"
    case Lnk => "lnk"
    case Path => "path"
    case Regex => "regex"
  }

  function BlockModeName(m: BlockMode): (s: string)
    ensures s in BlockModeNames
  {
    match m
    case Hard => "hard"
    case Soft => "soft"
  }

  function SessionStatusName(st: SessionStatus): (s: string)
    ensures s in SessionStatusNames
  {
    match st
    case Scheduled => "scheduled"
    case Running => "running"
    case Completed => "completed"
    case Canceled => "canceled"
  }

  /** `matchKindSchema`: accepts exactly the five match-kind names. */
  function ParseMatchKind(s: string): (r: Option<MatchKind>)
    ensures r.Some? <==> s in MatchKindNames
    ensures r.Some? ==> MatchKindName(r.value) == s
  {
    if s == "exe" then Some(Exe)
    else if s == "package" then Some(Package)
    else if s == "lnk" then Some(Lnk)
    else if s == "path" then Some(Path)
    else if s == "regex" then Some(Regex)
    else None
  }

  /** `blockModeSchema`: accepts exactly `hard` and `soft`. */
  function ParseBlockMode(s: string): (r: Option<BlockMode>)
    ensures r.Some? <==> s in BlockModeNames
    ensures r.Some? ==> BlockModeName(r.value) == s
  {
    if s == "hard" then Some(Hard)
    else if s == "soft" then Some(Soft)
    else None
  }

  /** `sessionStatusSchema`: accepts exactly the four status names. */
  function ParseSessionStatus(s: string): (r: Option<SessionStatus>)
    ensures r.Some? <==> s in SessionStatusNames
    ensures r.Some? ==> SessionStatusName(r.value) == s
  {
    if s == "scheduled" then Some(Scheduled)
    else if s == "running" then Some(Running)
    else if s == "completed" then Some(Completed)
    else if s == "canceled" then Some(Canceled)
    else None
  }

  /** The type unions and the enum schemas coincide: every member of a union is accepted and
      parses back to itself, and distinct members have distinct names. */
  lemma UnionsMatchSchemas(k: MatchKind, k': MatchKind, m: BlockMode, m': BlockMode,
                           st: SessionStatus, st': SessionStatus)
    ensures ParseMatchKind(MatchKindName(k)) == Some(k)
    ensures ParseBlockMode(BlockModeName(m)) == Some(m)
    ensures ParseSessionStatus(SessionStatusName(st)) == Some(st)
    ensures MatchKindName(k) == MatchKindName(k') ==> k == k'
    ensures BlockModeName(m) == BlockModeName(m') ==> m == m'
    ensures SessionStatusName(st) == SessionStatusName(st') ==> st == st'
  {
  }

  lemma PausedIsNotAStatus()
    ensures ParseSessionStatus("paused") == None
  {
  }

  // ---------------------------------------------------------------- table rows

  /** A row of `favorites`. */
  datatype Favorite = Favorite(id: string, appId: string, displayName: string,
                               pinnedOrder: Option<int>, iconHint: Option<string>)

  /** A row of `block_rules`; the enum columns are plain text in the row type. */
  datatype BlockRule = BlockRule(id: string, appId: string, matchKind: string, mode: string)

  /** A row of `sessions`; `status` is plain text in the row type. */
  datatype Session = Session(id: string, startUtc: int, endUtc: int, status: string, durationSecs: int)

  /** A row of `settings`, keyed by `key`. */
  datatype Setting = Setting(key: string, value: string)

  // ---------------------------------------------------------------- insert and update shapes

  /** A property that may be left out, given as `null`, or given a value. */
  datatype Field<T> = Absent | Null | Present(value: T)

  datatype InsertFavorite = InsertFavorite(appId: string, displayName: string,
                                           pinnedOrder: Field<int>, iconHint: Field<string>)

  datatype InsertBlockRule = InsertBlockRule(appId: string, matchKind: MatchKind, mode: BlockMode)

  datatype InsertSession = InsertSession(startUtc: int, endUtc: int, status: SessionStatus, durationSecs: int)

  type InsertSetting = Setting

  /** `Partial<BlockRule>`, the argument of the storage's rule update. */
  datatype BlockRulePatch = BlockRulePatch(id: Option<string>, appId: Option<string>,
                                           matchKind: Option<string>, mode: Option<string>)

  /** `Partial<Session>`, the argument of the storage's session update. */
  datatype SessionPatch = SessionPatch(id: Option<string>, startUtc: Option<int>, endUtc: Option<int>,
                                       status: Option<string>, durationSecs: Option<int>)

  // ---------------------------------------------------------------- request bodies

  /** A JSON value as it arrives in a request body; arrays and objects are never accepted by
      these schemas and are not distinguished. */
  datatype Json = JNull | JBool(b: bool) | JNum(n: real) | JStr(s: string) | JCompound

  type Body = map<string, Json>

  predicate IsInteger(n: real) { n.Floor as real == n }

  predicate HasString(body: Body, k: string) { k in body && body[k].JStr? }

  predicate HasInteger(body: Body, k: string) { k in body && body[k].JNum? && IsInteger(body[k].n) }

  /** The error is the name of the first offending property. */
  function RequiredString(body: Body, k: string): (r: Result<string, string>)
    ensures r.Ok? <==> HasString(body, k)
    ensures r.Ok? ==> r.value == body[k].s
  {
    if HasString(body, k) then Ok(body[k].s) else Err(k)
  }

  function RequiredInteger(body: Body, k: string): (r: Result<int, string>)
    ensures r.Ok? <==> HasInteger(body, k)
    ensures r.Ok? ==> r.value as real == body[k].n
  {
    if HasInteger(body, k) then Ok(body[k].n.Floor) else Err(k)
  }

  /** A nullable column in an insert schema: optional, and `null` is allowed. */
  function NullableInteger(body: Body, k: string): (r: Result<Field<int>, string>)
    ensures r.Ok? <==> k !in body || body[k].JNull? || HasInteger(body, k)
    ensures r == Ok(Absent) <==> k !in body
    ensures r == Ok(Null) <==> k in body && body[k].JNull?
    ensures r.Ok? && r.value.Present? ==> r.value.value as real == body[k].n
  {
    if k !in body then Ok(Absent)
    else if body[k].JNull? then Ok(Null)
    else if HasInteger(body, k) then Ok(Present(body[k].n.Floor))
    else Err(k)
  }

  function NullableString(body: Body, k: string): (r: Result<Field<string>, string>)
    ensures r.Ok? <==> k !in body || body[k].JNull? || HasString(body, k)
    ensures r == Ok(Absent) <==> k !in body
    ensures r == Ok(Null) <==> k in body && body[k].JNull?
    ensures r.Ok? && r.value.Present? ==> r.value.value == body[k].s
  {
    if k !in body then Ok(Absent)
    else if body[k].JNull? then Ok(Null)
    else if HasString(body, k) then Ok(Present(body[k].s))
    else Err(k)
  }

  /** A property of a `.partial()` schema: it may be left out, but if present it must pass `ok`. */
  function OptionalString(body: Body, k: string, ok: string -> bool): (r: Result<Option<string>, string>)
    ensures r.Ok? <==> k !in body || (HasString(body, k) && ok(body[k].s))
    ensures r == Ok(None) <==> k !in body
    ensures r.Ok? && r.value.Some? ==> r.value.value == body[k].s
  {
    if k !in body then Ok(None)
    else if HasString(body, k) && ok(body[k].s) then Ok(Some(body[k].s))
    else Err(k)
  }

  function OptionalInteger(body: Body, k: string): (r: Result<Option<int>, string>)
    ensures r.Ok? <==> k !in body || HasInteger(body, k)
    ensures r == Ok(None) <==> k !in body
    ensures r.Ok? && r.value.Some? ==> r.value.value as real == body[k].n
  {
    if k !in body then Ok(None)
    else if HasInteger(body, k) then Ok(Some(body[k].n.Floor))
    else Err(k)
  }

  predicate AnyString(s: string) { true }
  predicate IsMatchKindName(s: string) { ParseMatchKind(s).Some? }
  predicate IsBlockModeName(s: string) { ParseBlockMode(s).Some? }
  predicate IsSessionStatusName(s: string) { ParseSessionStatus(s).Some? }

  /** `insertFavoriteSchema`: `appId` and `displayName` required; `pinnedOrder` and `iconHint`
      optional and nullable; any `id` is dropped. */
  function ValidateInsertFavorite(body: Body): (r: Result<InsertFavorite, string>)
    ensures r.Ok? <==> HasString(body, "appId") && HasString(body, "displayName")
                       && NullableInteger(body, "pinnedOrder").Ok? && NullableString(body, "iconHint").Ok?
    ensures r.Ok? ==> r.value.appId == body["appId"].s && r.value.displayName == body["displayName"].s
    ensures r.Ok? ==> r.value.pinnedOrder == NullableInteger(body, "pinnedOrder").value
                      && r.value.iconHint == NullableString(body, "iconHint").value
  {
    var appId :- RequiredString(body, "appId");
    var displayName :- RequiredString(body, "displayName");
    var pinnedOrder :- NullableInteger(body, "pinnedOrder");
    var iconHint :- NullableString(body, "iconHint");
    Ok(InsertFavorite(appId, displayName, pinnedOrder, iconHint))
  }

  /** `insertBlockRuleSchema`: a string `appId`, a valid `matchKind` and a valid `mode`. */
  function ValidateInsertBlockRule(body: Body): (r: Result<InsertBlockRule, string>)
    ensures r.Ok? <==> HasString(body, "appId")
                       && HasString(body, "matchKind") && body["matchKind"].s in MatchKindNames
                       && HasString(body, "mode") && body["mode"].s in BlockModeNames
    ensures r.Ok? ==> r.value.appId == body["appId"].s
                      && MatchKindName(r.value.matchKind) == body["matchKind"].s
                      && BlockModeName(r.value.mode) == body["mode"].s
  {
    var appId :- RequiredString(body, "appId");
    var kindName :- RequiredString(body, "matchKind");
    var modeName :- RequiredString(body, "mode");
    match (ParseMatchKind(kindName), ParseBlockMode(modeName))
    case (None, _) => Err("matchKind")
    case (_, None) => Err("mode")
    case (Some(kind), Some(mode)) => Ok(InsertBlockRule(appId, kind, mode))
  }

  /** `insertSessionSchema`: integer `startUtc`, `endUtc` and `durationSecs` and a valid status;
      nothing relates the three numbers. */
  function ValidateInsertSession(body: Body): (r: Result<InsertSession, string>)
    ensures r.Ok? <==> HasInteger(body, "startUtc") && HasInteger(body, "endUtc")
                       && HasString(body, "status") && body["status"].s in SessionStatusNames
                       && HasInteger(body, "durationSecs")
    ensures r.Ok? ==> r.value.startUtc as real == body["startUtc"].n
                      && r.value.endUtc as real == body["endUtc"].n
                      && r.value.durationSecs as real == body["durationSecs"].n
                      && SessionStatusName(r.value.status) == body["status"].s
  {
    var startUtc :- RequiredInteger(body, "startUtc");
    var endUtc :- RequiredInteger(body, "endUtc");
    var statusName :- RequiredString(body, "status");
    var durationSecs :- RequiredInteger(body, "durationSecs");
    match ParseSessionStatus(statusName)
    case None => Err("status")
    case Some(status) => Ok(InsertSession(startUtc, endUtc, status, durationSecs))
  }

  /** `insertSettingSchema`: string `key` and `value`. */
  function ValidateInsertSetting(body: Body): (r: Result<InsertSetting, string>)
    ensures r.Ok? <==> HasString(body, "key") && HasString(body, "value")
    ensures r.Ok? ==> r.value == Setting(body["key"].s, body["value"].s)
  {
    var key :- RequiredString(body, "key");
    var value :- RequiredString(body, "value");
    Ok(Setting(key, value))
  }

  /** `updateBlockRuleSchema`: every property optional, each present one checked as on insert;
      the result never carries an `id`. */
  function ValidateUpdateBlockRule(body: Body): (r: Result<BlockRulePatch, string>)
    ensures r.Ok? <==> OptionalString(body, "appId", AnyString).Ok?
                       && OptionalString(body, "matchKind", IsMatchKindName).Ok?
                       && OptionalString(body, "mode", IsBlockModeName).Ok?
    ensures r.Ok? ==> r.value.id.None?
    ensures r.Ok? && r.value.matchKind.Some? ==> r.value.matchKind.value in MatchKindNames
    ensures r.Ok? && r.value.mode.Some? ==> r.value.mode.value in BlockModeNames
    ensures r.Ok? ==> (r.value.appId.Some? <==> "appId" in body)
                      && (r.value.matchKind.Some? <==> "matchKind" in body)
                      && (r.value.mode.Some? <==> "mode" in body)
    ensures r.Ok? && r.value.appId.Some? ==> r.value.appId.value == body["appId"].s
    ensures r.Ok? && r.value.matchKind.Some? ==> r.value.matchKind.value == body["matchKind"].s
    ensures r.Ok? && r.value.mode.Some? ==> r.value.mode.value == body["mode"].s
  {
    var appId :- OptionalString(body, "appId", AnyString);
    var matchKind :- OptionalString(body, "matchKind", IsMatchKindName);
    var mode :- OptionalString(body, "mode", IsBlockModeName);
    Ok(BlockRulePatch(None, appId, matchKind, mode))
  }

  /** `updateSessionSchema`: every property optional; a present status must be one of the four. */
  function ValidateUpdateSession(body: Body): (r: Result<SessionPatch, string>)
    ensures r.Ok? <==> OptionalInteger(body, "startUtc").Ok? && OptionalInteger(body, "endUtc").Ok?
                       && OptionalString(body, "status", IsSessionStatusName).Ok?
                       && OptionalInteger(body, "durationSecs").Ok?
    ensures r.Ok? ==> r.value.id.None?
    ensures r.Ok? && r.value.status.Some? ==> r.value.status.value in SessionStatusNames
    ensures r.Ok? ==> (r.value.startUtc.Some? <==> "startUtc" in body)
                      && (r.value.endUtc.Some? <==> "endUtc" in body)
                      && (r.value.status.Some? <==> "status" in body)
                      && (r.value.durationSecs.Some? <==> "durationSecs" in body)
    ensures r.Ok? && r.value.startUtc.Some? ==> r.value.startUtc.value as real == body["startUtc"].n
    ensures r.Ok? && r.value.endUtc.Some? ==> r.value.endUtc.value as real == body["endUtc"].n
    ensures r.Ok? && r.value.status.Some? ==> r.value.status.value == body["status"].s
    ensures r.Ok? && r.value.durationSecs.Some? ==> r.value.durationSecs.value as real == body["durationSecs"].n
  {
    var startUtc :- OptionalInteger(body, "startUtc");
    var endUtc :- OptionalInteger(body, "endUtc");
    var status :- OptionalString(body, "status", IsSessionStatusName);
    var durationSecs :- OptionalInteger(body, "durationSecs");
    Ok(SessionPatch(None, startUtc, endUtc, status, durationSecs))
  }

  /** A session whose end lies before its start and whose duration matches neither is accepted. */
  lemma InsertSessionImposesNoTimeRelation()
    ensures ValidateInsertSession(map["startUtc" := JNum(100.0), "endUtc" := JNum(50.0),
                                      "status" := JStr("running"), "durationSecs" := JNum(7.0)]).Ok?
  {
  }

  /** A `paused` status is refused both on insert and on update. */
  lemma PausedRefused(body: Body)
    requires "status" in body && body["status"] == JStr("paused")
    ensures ValidateInsertSession(body).Err? && ValidateUpdateSession(body).Err?
  {
  }
}
