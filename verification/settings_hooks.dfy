/** The settings hooks (client/src/hooks/useSettings.ts): one query per known key, merged with the
    defaults into the settings object the UI reads, and the serialisation of values on write.
    `JSON.parse`/`JSON.stringify` are modelled on the two kinds of value the settings hold,
    booleans and strings. */
module SettingsHooks {
  import opened Wrappers
  import opened Schema
  import Seqs
  import QueryClient

  // ---------------------------------------------------------------- values

  /** A settings value: every field of `AppSettings` is a boolean or a string. */
  datatype Value = VBool(b: bool) | VStr(s: string)

  /** `SETTING_KEYS`. */
  const SettingKeys: seq<string> :=
    ["strictMode", "autostart", "notificationCadence", "defaultBlockMode", "hotkeysEnabled"]

  /** `DEFAULT_SETTINGS`. */
  const DefaultSettings: map<string, Value> :=
    map["strictMode" := VBool(false), "autostart" := VBool(true),
        "notificationCadence" := VStr("normal"), "defaultBlockMode" := VStr("soft"),
        "hotkeysEnabled" := VBool(true)]

  predicate PlainChar(c: char) { c != '"' && c != '\\' }

  /** `JSON.parse` on the texts of booleans and of strings without escapes; `None` stands for
      the exception thrown on anything else. */
  function ParseJson(text: string): Option<Value> {
    if text == "true" then Some(VBool(true))
    else if text == "false" then Some(VBool(false))
    else if |text| >= 2 && text[0] == '"' && text[|text| - 1] == '"'
            && forall i :: 1 <= i < |text| - 1 ==> PlainChar(text[i])
    then Some(VStr(text[1..|text| - 1]))
    else None
  }

  /** `JSON.stringify` on the same values. */
  function Stringify(v: Value): string {
    match v
    case VBool(b) => if b then "true" else "false"
    case VStr(s) => "\"" + s + "\""
  }

  /** The parse/serialise pair: a stringified value parses back to itself. */
  lemma ParseStringify(v: Value)
    requires v.VStr? ==> forall i :: 0 <= i < |v.s| ==> PlainChar(v.s[i])
    ensures ParseJson(Stringify(v)) == Some(v)
  {
    if v.VStr? {
      var t := Stringify(v);
      assert t[1..|t| - 1] == v.s;
      assert forall i :: 1 <= i < |t| - 1 ==> t[i] == v.s[i - 1];
    }
  }

  // ---------------------------------------------------------------- reading

  /** The value the merge takes for `key`: the default when the setting is missing or its stored
      value is empty, else the parsed value, else the raw stored text. */
  function EffectiveValue(key: string, data: Option<Setting>): Value
    requires key in DefaultSettings
  {
    if data.Some? && data.value.value != "" then
      match ParseJson(data.value.value)
      case Some(v) => v
      case None => VStr(data.value.value)
    else DefaultSettings[key]
  }

  /** `settingQueries[index]?.data`: nothing for a query that is missing or has no data. */
  function DataAt(data: seq<Option<Setting>>, i: nat): Option<Setting> {
    if i < |data| then data[i] else None
  }

  /** `SETTING_KEYS.reduce(...)` over the first `n` keys. */
  function MergeSettings(data: seq<Option<Setting>>, n: nat): map<string, Value>
    requires n <= |SettingKeys|
  {
    if n == 0 then map[]
    else MergeSettings(data, n - 1)[SettingKeys[n - 1] := EffectiveValue(SettingKeys[n - 1], DataAt(data, n - 1))]
  }

  lemma {:induction false} MergeSettingsPrefix(data: seq<Option<Setting>>, n: nat)
    requires n <= |SettingKeys|
    ensures forall k :: k in MergeSettings(data, n) <==> exists i :: 0 <= i < n && SettingKeys[i] == k
    ensures forall i :: 0 <= i < n ==>
      MergeSettings(data, n)[SettingKeys[i]] == EffectiveValue(SettingKeys[i], DataAt(data, i))
  {
    if n > 0 {
      MergeSettingsPrefix(data, n - 1);
      assert forall i, j :: 0 <= i < j < |SettingKeys| ==> SettingKeys[i] != SettingKeys[j];
    }
  }

  /** The merged object has exactly the five keys, and each holds the effective value of the
      query for that key. */
  lemma MergeSettingsSpec(data: seq<Option<Setting>>)
    ensures MergeSettings(data, 5).Keys == DefaultSettings.Keys
    ensures forall i :: 0 <= i < 5 ==>
      MergeSettings(data, 5)[SettingKeys[i]] == EffectiveValue(SettingKeys[i], DataAt(data, i))
  {
    MergeSettingsPrefix(data, 5);
    var m := MergeSettings(data, 5);
    assert DefaultSettings.Keys == {SettingKeys[0], SettingKeys[1], SettingKeys[2], SettingKeys[3], SettingKeys[4]};
    assert SettingKeys[0] in m && SettingKeys[1] in m && SettingKeys[2] in m;
    assert SettingKeys[3] in m && SettingKeys[4] in m;
  }

  /** With nothing stored, or only empty values, the merged object is `DEFAULT_SETTINGS`. */
  lemma NothingStoredGivesDefaults(data: seq<Option<Setting>>)
    requires forall i :: 0 <= i < 5 ==> DataAt(data, i).None? || DataAt(data, i).value.value == ""
    ensures MergeSettings(data, 5) == DefaultSettings
  {
    MergeSettingsSpec(data);
    var m := MergeSettings(data, 5);
    assert DefaultSettings.Keys == {SettingKeys[0], SettingKeys[1], SettingKeys[2], SettingKeys[3], SettingKeys[4]};
    forall i | 0 <= i < 5
      ensures m[SettingKeys[i]] == DefaultSettings[SettingKeys[i]]
    {
    }
  }

  // ---------------------------------------------------------------- the per-key queries

  /** The check the per-key query function makes of the response `apiRequest` resolved to: the
      setting for a 2xx response, `null` (`None`) for a 404, and otherwise the error
      `Failed to fetch setting: <statusText>`. That error is never raised: a fetched response
      reaches the check only when it is 2xx (`WebSettingQuery`), and the shell's lookup answers
      only 200 or 404 (`TauriSettingQuery`). */
  function SettingQueryOutcome(status: nat, body: Option<Setting>, statusText: string)
    : (r: Result<Option<Setting>, string>)
    ensures r.Err? <==> !QueryClient.IsOk(status) && status != 404
    ensures QueryClient.IsOk(status) ==> r == Ok(body)
    ensures status == 404 ==> r == Ok(None)
  {
    if QueryClient.IsOk(status) then Ok(body)
    else if status == 404 then Ok(None)
    else Err("Failed to fetch setting: " + statusText)
  }

  /** A per-key query answered by `fetch`: `apiRequest` throws `"<status>: <text>"` for any
      response that is not 2xx, a 404 included, so the query fails with that error, and a 2xx
      response yields its parsed body. */
  function WebSettingQuery(status: nat, body: string, statusText: string, parsed: Option<Setting>)
    : (r: Result<Option<Setting>, string>)
    ensures r.Ok? <==> QueryClient.IsOk(status)
    ensures r.Ok? ==> r.value == parsed
    ensures r.Err? ==>
      QueryClient.ParseError(r.error) == Some((status, if body != "" then body else statusText))
  {
    QueryClient.CheckResponseSpec(status, body, statusText);
    match QueryClient.CheckResponse(status, body, statusText)
    case Ok(_) => SettingQueryOutcome(status, parsed, statusText)
    case Err(m) => Err(m)
  }

  /** In the desktop shell a per-key query never fails when `get_settings` answers: the request
      for a key without `/` is a lookup of that key, and its 404 for a missing key becomes
      `null`, which reads as the default. */
  lemma TauriSettingQuery(settings: seq<Setting>, key: string, statusText: string)
    requires '/' !in key
    ensures QueryClient.RouteRequest(true, "GET", QueryClient.Settings + "/" + key) == QueryClient.LookupSetting(key)
    ensures var a := QueryClient.LookupSettingAnswer(settings, key);
      SettingQueryOutcome(a.status, a.setting, statusText) == Ok(Seqs.Find(settings, QueryClient.KeyIs(key)))
    ensures key in DefaultSettings && (forall i :: 0 <= i < |settings| ==> settings[i].key != key) ==>
      EffectiveValue(key, Seqs.Find(settings, QueryClient.KeyIs(key))) == DefaultSettings[key]
  {
    QueryClient.LastSegmentOfItem(QueryClient.Settings, key);
    QueryClient.SettingLookupRoute(true, "GET", QueryClient.Settings + "/" + key, key);
  }

  datatype SettingQuery = SettingQuery(isLoading: bool, error: Option<string>, data: Option<Setting>)

  /** `settingQueries.some(query => query.isLoading)`. */
  function IsLoading(queries: seq<SettingQuery>): bool {
    if |queries| == 0 then false else queries[0].isLoading || IsLoading(queries[1..])
  }

  predicate HasError(q: SettingQuery) { q.error.Some? }

  /** `settingQueries.find(query => query.error)?.error`. */
  function FirstError(queries: seq<SettingQuery>): Option<string> {
    match Seqs.Find(queries, HasError)
    case Some(q) => q.error
    case None => None
  }

  /** Loading holds iff some query is loading; the error is that of the first failed query, and
      there is none iff no query failed. */
  lemma {:induction false} QueryFlagsSpec(queries: seq<SettingQuery>)
    ensures IsLoading(queries) <==> exists i :: 0 <= i < |queries| && queries[i].isLoading
    ensures FirstError(queries).None? <==> forall i :: 0 <= i < |queries| ==> queries[i].error.None?
    ensures FirstError(queries).Some? ==>
      exists i :: 0 <= i < |queries| && queries[i].error == FirstError(queries) &&
        forall j :: 0 <= j < i ==> queries[j].error.None?
  {
    if |queries| > 0 {
      QueryFlagsSpec(queries[1..]);
      if IsLoading(queries[1..]) {
        var i :| 0 <= i < |queries[1..]| && queries[1..][i].isLoading;
        assert queries[i + 1].isLoading;
      }
      if exists i :: 0 <= i < |queries| && queries[i].isLoading {
        var i :| 0 <= i < |queries| && queries[i].isLoading;
        if i > 0 { assert queries[1..][i - 1].isLoading; }
      }
    }
  }

  // ---------------------------------------------------------------- writing

  /** `typeof value === 'string' ? value : JSON.stringify(value)`. */
  function Serialize(v: Value): string {
    match v
    case VStr(s) => s
    case VBool(_) => Stringify(v)
  }

  /** The setting each write sends: `useSetSetting` sends one, `useSaveSettings` one per entry. */
  function SettingWrite(key: string, v: Value): Setting {
    Setting(key, Serialize(v))
  }

  function SaveWrites(entries: seq<(string, Value)>): (r: seq<Setting>)
    ensures |r| == |entries| && forall i :: 0 <= i < |r| ==> r[i] == SettingWrite(entries[i].0, entries[i].1)
  {
    seq(|entries|, i requires 0 <= i < |entries| => SettingWrite(entries[i].0, entries[i].1))
  }

  /** Every write is a POST on the settings collection, which the shell answers with
      `upsert_setting`. */
  lemma WritesAreUpserts()
    ensures QueryClient.RouteRequest(true, "POST", QueryClient.Settings)
      == QueryClient.Invoke(QueryClient.UpsertSetting, None, 200)
  {
  }

  /** Writing and reading back: booleans come back as themselves; a non-empty string that is not
      JSON comes back as itself; the empty string comes back as the default; and the string
      `"true"` comes back as the boolean `true`. */
  lemma ReadBack(key: string, b: bool, s: string)
    requires key in DefaultSettings
    ensures EffectiveValue(key, Some(SettingWrite(key, VBool(b)))) == VBool(b)
    ensures s != "" && ParseJson(s).None? ==> EffectiveValue(key, Some(SettingWrite(key, VStr(s)))) == VStr(s)
    ensures EffectiveValue(key, Some(SettingWrite(key, VStr("")))) == DefaultSettings[key]
    ensures EffectiveValue(key, Some(SettingWrite(key, VStr("true")))) == VBool(true)
  {
  }

  /** The string defaults survive a save: `normal` and `soft` are not JSON. */
  lemma StringDefaultsReadBack()
    ensures EffectiveValue("notificationCadence", Some(SettingWrite("notificationCadence", VStr("normal"))))
      == VStr("normal")
    ensures EffectiveValue("defaultBlockMode", Some(SettingWrite("defaultBlockMode", VStr("soft"))))
      == VStr("soft")
  {
    assert "normal"[0] != '"' && "soft"[0] != '"';
  }
}
