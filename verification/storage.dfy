/** The in-memory store: four keyed tables held in JavaScript `Map`s, with insert under a
    generated id, delete, merge-update, settings upsert, the sorted favorites listing and
    the "current session" lookup. */
module Storage {
  import opened Wrappers
  import opened Schema
  import opened JsMap
  import Seqs

  // ---------------------------------------------------------------- record helpers

  /** `x ?? null`. */
  function Coalesce<T>(f: Field<T>): (r: Option<T>)
    ensures r.Some? <==> f.Present?
    ensures r.Some? ==> r.value == f.value
  {
    match f
    case Present(v) => Some(v)
    case _ => None
  }

  /** `(f.pinnedOrder || 0)`: the sort key of a favorite. */
  function PinnedKey(f: Favorite): int {
    f.pinnedOrder.GetOr(0)
  }

  predicate PinnedLe(a: Favorite, b: Favorite) {
    PinnedKey(a) <= PinnedKey(b)
  }

  ghost predicate SortedByPinnedOrder(s: seq<Favorite>) {
    forall i, j :: 0 <= i < j < |s| ==> PinnedKey(s[i]) <= PinnedKey(s[j])
  }

  /** `{ ...rule, ...updates }`. */
  function ApplyRulePatch(rule: BlockRule, p: BlockRulePatch): (r: BlockRule)
    ensures r.id == p.id.GetOr(rule.id) && r.appId == p.appId.GetOr(rule.appId)
    ensures r.matchKind == p.matchKind.GetOr(rule.matchKind) && r.mode == p.mode.GetOr(rule.mode)
  {
    BlockRule(p.id.GetOr(rule.id), p.appId.GetOr(rule.appId),
              p.matchKind.GetOr(rule.matchKind), p.mode.GetOr(rule.mode))
  }

  /** `{ ...session, ...updates }`. */
  function ApplySessionPatch(s: Session, p: SessionPatch): (r: Session)
    ensures r.id == p.id.GetOr(s.id) && r.status == p.status.GetOr(s.status)
    ensures r.startUtc == p.startUtc.GetOr(s.startUtc) && r.endUtc == p.endUtc.GetOr(s.endUtc)
    ensures r.durationSecs == p.durationSecs.GetOr(s.durationSecs)
  {
    Session(p.id.GetOr(s.id), p.startUtc.GetOr(s.startUtc), p.endUtc.GetOr(s.endUtc),
            p.status.GetOr(s.status), p.durationSecs.GetOr(s.durationSecs))
  }

  predicate IsRunning(s: Session) {
    s.status == "running"
  }

  /** Merging is idempotent, and a patch that names no property changes nothing. */
  lemma PatchIdempotent(rule: BlockRule, p: BlockRulePatch, s: Session, q: SessionPatch)
    ensures ApplyRulePatch(ApplyRulePatch(rule, p), p) == ApplyRulePatch(rule, p)
    ensures ApplyRulePatch(rule, BlockRulePatch(None, None, None, None)) == rule
    ensures ApplySessionPatch(ApplySessionPatch(s, q), q) == ApplySessionPatch(s, q)
    ensures ApplySessionPatch(s, SessionPatch(None, None, None, None, None)) == s
  {
  }

  // ---------------------------------------------------------------- the store

  class MemStorage {
    var favorites: Table<Favorite>
    var blockRules: Table<BlockRule>
    var sessions: Table<Session>
    var settings: Table<Setting>

    ghost predicate Valid()
      reads this
    {
      && favorites.Valid() && blockRules.Valid() && sessions.Valid() && settings.Valid()
      && forall k :: k in settings.entries ==> settings.entries[k].key == k
    }

    /** Every stored rule's `id` is its key. Adding keeps this; an update keeps it unless the
        patch carries a different `id`. */
    ghost predicate RuleIdsMatchKeys()
      reads this
    {
      forall k :: k in blockRules.entries ==> blockRules.entries[k].id == k
    }

    constructor ()
      ensures Valid() && RuleIdsMatchKeys()
      ensures favorites == EmptyTable() && blockRules == EmptyTable()
      ensures sessions == EmptyTable() && settings == EmptyTable()
    {
      favorites := EmptyTable();
      blockRules := EmptyTable();
      sessions := EmptyTable();
      settings := EmptyTable();
    }

    // ---------------------------------------------------------- favorites

    /** The stored favorites, rearranged so that `pinnedOrder` (absent or null read as 0)
        never decreases. */
    method GetFavorites() returns (r: seq<Favorite>)
      requires Valid()
      ensures multiset(r) == multiset(favorites.Values())
      ensures SortedByPinnedOrder(r)
    {
      r := Seqs.SortBy(favorites.Values(), PinnedLe);
      Seqs.SortBySorted(favorites.Values(), PinnedLe);
    }

    method AddFavorite(insert: InsertFavorite, id: string) returns (f: Favorite)
      requires Valid()
      modifies this
      ensures Valid() && RuleIdsMatchKeys() == old(RuleIdsMatchKeys())
      ensures f == Favorite(id, insert.appId, insert.displayName,
                            Coalesce(insert.pinnedOrder), Coalesce(insert.iconHint))
      ensures favorites == old(favorites).Set(id, f)
      ensures id !in old(favorites.entries) ==> favorites.Values() == old(favorites.Values()) + [f]
      ensures blockRules == old(blockRules) && sessions == old(sessions) && settings == old(settings)
    {
      f := Favorite(id, insert.appId, insert.displayName, Coalesce(insert.pinnedOrder), Coalesce(insert.iconHint));
      favorites := favorites.Set(id, f);
    }

    method RemoveFavorite(id: string)
      requires Valid()
      modifies this
      ensures Valid() && RuleIdsMatchKeys() == old(RuleIdsMatchKeys())
      ensures favorites == old(favorites).Delete(id)
      ensures id !in old(favorites.entries) ==> favorites == old(favorites)
      ensures blockRules == old(blockRules) && sessions == old(sessions) && settings == old(settings)
    {
      favorites := favorites.Delete(id);
    }

    // ---------------------------------------------------------- block rules

    /** The stored rules, each once, in insertion order. */
    method GetBlockRules() returns (r: seq<BlockRule>)
      requires Valid()
      ensures |r| == |blockRules.order|
      ensures forall i :: 0 <= i < |r| ==> r[i] == blockRules.entries[blockRules.order[i]]
    {
      r := blockRules.Values();
    }

    method AddBlockRule(insert: InsertBlockRule, id: string) returns (rule: BlockRule)
      requires Valid()
      modifies this
      ensures Valid()
      ensures old(RuleIdsMatchKeys()) ==> RuleIdsMatchKeys()
      ensures rule == BlockRule(id, insert.appId, MatchKindName(insert.matchKind), BlockModeName(insert.mode))
      ensures blockRules == old(blockRules).Set(id, rule)
      ensures id !in old(blockRules.entries) ==> blockRules.Values() == old(blockRules.Values()) + [rule]
      ensures forall k :: k in old(blockRules.entries) && k != id
                ==> k in blockRules.entries && blockRules.entries[k] == old(blockRules.entries[k])
      ensures favorites == old(favorites) && sessions == old(sessions) && settings == old(settings)
    {
      rule := BlockRule(id, insert.appId, MatchKindName(insert.matchKind), BlockModeName(insert.mode));
      blockRules := blockRules.Set(id, rule);
    }

    method RemoveBlockRule(id: string)
      requires Valid()
      modifies this
      ensures Valid()
      ensures old(RuleIdsMatchKeys()) ==> RuleIdsMatchKeys()
      ensures blockRules == old(blockRules).Delete(id)
      ensures blockRules.entries == old(blockRules.entries) - {id}
      ensures id !in old(blockRules.entries) ==> blockRules == old(blockRules)
      ensures favorites == old(favorites) && sessions == old(sessions) && settings == old(settings)
    {
      blockRules := blockRules.Delete(id);
    }

    method UpdateBlockRule(id: string, updates: BlockRulePatch) returns (r: Result<BlockRule, string>)
      requires Valid()
      modifies this
      ensures Valid()
      ensures id !in old(blockRules.entries) ==> r == Err("Block rule " + id + " not found")
      ensures id !in old(blockRules.entries) ==> blockRules == old(blockRules)
      ensures id in old(blockRules.entries) ==>
                r == Ok(ApplyRulePatch(old(blockRules.entries[id]), updates))
                && blockRules == old(blockRules).Set(id, r.value)
      ensures forall k :: k in old(blockRules.entries) && k != id
                ==> k in blockRules.entries && blockRules.entries[k] == old(blockRules.entries[k])
      ensures old(RuleIdsMatchKeys()) && (updates.id.None? || updates.id == Some(id)) ==> RuleIdsMatchKeys()
      ensures favorites == old(favorites) && sessions == old(sessions) && settings == old(settings)
    {
      match blockRules.Get(id)
      case None =>
        r := Err("Block rule " + id + " not found");
      case Some(rule) =>
        var updated := ApplyRulePatch(rule, updates);
        blockRules := blockRules.Set(id, updated);
        r := Ok(updated);
    }

    // ---------------------------------------------------------- sessions

    /** The first stored session, in insertion order, whose status is exactly `running`. */
    method GetCurrentSession() returns (r: Option<Session>)
      requires Valid()
      ensures r.None? <==> forall k :: k in sessions.entries ==> sessions.entries[k].status != "running"
      ensures r.Some? ==> r.value.status == "running"
      ensures r.Some? ==> exists i :: 0 <= i < |sessions.order| && sessions.entries[sessions.order[i]] == r.value
                            && forall j :: 0 <= j < i ==> sessions.entries[sessions.order[j]].status != "running"
    {
      var all := sessions.Values();
      r := Seqs.Find(all, IsRunning);
      if r.None? {
        forall k | k in sessions.entries ensures sessions.entries[k].status != "running" {
          var i :| 0 <= i < |sessions.order| && sessions.order[i] == k;
          assert !IsRunning(all[i]);
        }
      }
    }

    /** Stores the session under `id` whatever sessions already exist. */
    method CreateSession(insert: InsertSession, id: string) returns (s: Session)
      requires Valid()
      modifies this
      ensures Valid() && RuleIdsMatchKeys() == old(RuleIdsMatchKeys())
      ensures s == Session(id, insert.startUtc, insert.endUtc, SessionStatusName(insert.status), insert.durationSecs)
      ensures sessions == old(sessions).Set(id, s)
      ensures favorites == old(favorites) && blockRules == old(blockRules) && settings == old(settings)
    {
      s := Session(id, insert.startUtc, insert.endUtc, SessionStatusName(insert.status), insert.durationSecs);
      sessions := sessions.Set(id, s);
    }

    /** Merges any properties, any status included; fails only on an unknown id. */
    method UpdateSession(id: string, updates: SessionPatch) returns (r: Result<Session, string>)
      requires Valid()
      modifies this
      ensures Valid() && RuleIdsMatchKeys() == old(RuleIdsMatchKeys())
      ensures id !in old(sessions.entries) ==> r == Err("Session " + id + " not found") && sessions == old(sessions)
      ensures id in old(sessions.entries) ==>
                r == Ok(ApplySessionPatch(old(sessions.entries[id]), updates))
                && sessions == old(sessions).Set(id, r.value)
      ensures favorites == old(favorites) && blockRules == old(blockRules) && settings == old(settings)
    {
      match sessions.Get(id)
      case None =>
        r := Err("Session " + id + " not found");
      case Some(session) =>
        var updated := ApplySessionPatch(session, updates);
        sessions := sessions.Set(id, updated);
        r := Ok(updated);
    }

    // ---------------------------------------------------------- settings

    method GetSetting(key: string) returns (r: Option<Setting>)
      requires Valid()
      ensures r.Some? <==> key in settings.entries
      ensures r.Some? ==> r.value.key == key && r.value == settings.entries[key]
    {
      r := settings.Get(key);
    }

    /** Upsert keyed by `setting.key`. */
    method SetSetting(setting: InsertSetting) returns (r: Setting)
      requires Valid()
      modifies this
      ensures Valid() && RuleIdsMatchKeys() == old(RuleIdsMatchKeys())
      ensures r == setting
      ensures settings == old(settings).Set(setting.key, setting)
      ensures favorites == old(favorites) && blockRules == old(blockRules) && sessions == old(sessions)
    {
      r := setting;
      settings := settings.Set(setting.key, setting);
    }
  }

  // ---------------------------------------------------------------- properties across calls

  /** The settings table after a series of `setSetting` calls. */
  function ApplySettingWrites(t: Table<Setting>, writes: seq<Setting>): (r: Table<Setting>)
    requires t.Valid()
    ensures r.Valid()
    decreases |writes|
  {
    if |writes| == 0 then t
    else ApplySettingWrites(t, writes[..|writes| - 1]).Set(writes[|writes| - 1].key, writes[|writes| - 1])
  }

  /** The most recent write with key `k`, if any. */
  function LastWriteFor(writes: seq<Setting>, k: string): Option<Setting> {
    if |writes| == 0 then None
    else if writes[|writes| - 1].key == k then Some(writes[|writes| - 1])
    else LastWriteFor(writes[..|writes| - 1], k)
  }

  /** Upsert semantics: reading `k` after a series of writes yields the latest write for `k`,
      or what was stored before if none of the writes has that key. */
  lemma {:induction false} LatestSettingWins(t: Table<Setting>, writes: seq<Setting>, k: string)
    requires t.Valid()
    ensures ApplySettingWrites(t, writes).Get(k) ==
            match LastWriteFor(writes, k)
            case Some(w) => Some(w)
            case None => t.Get(k)
  {
    if |writes| > 0 {
      LatestSettingWins(t, writes[..|writes| - 1], k);
    }
  }

  /** `createSession` never refuses: a second running session is stored beside the first,
      and the current session stays the first one created. */
  method SecondRunningSessionAccepted(first: InsertSession, second: InsertSession, id1: string, id2: string)
    returns (st: MemStorage, current: Option<Session>)
    requires first.status == Running && second.status == Running && id1 != id2
    ensures fresh(st) && st.Valid()
    ensures id1 in st.sessions.entries && id2 in st.sessions.entries
    ensures st.sessions.entries[id1].status == "running" && st.sessions.entries[id2].status == "running"
    ensures current.Some? && current.value.id == id1
  {
    st := new MemStorage();
    var s1 := st.CreateSession(first, id1);
    var s2 := st.CreateSession(second, id2);
    assert st.sessions.order == [id1, id2];
    current := st.GetCurrentSession();
  }
}
