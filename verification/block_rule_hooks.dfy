/** The block-rule mutations of client/src/hooks/useBlockRules.ts: the request each one sends and,
    for `useRemoveBlockRulesByAppId`, the rules it targets in the cached rule list and the effect of
    its DELETE requests on the store once the desktop shell has routed them. */
module BlockRuleHooks {
  import opened Wrappers
  import opened Text
  import opened Schema
  import Seqs
  import JsMap
  import QueryClient
  import Storage

  /** A request as `apiRequest` receives it: the method, the url and the JSON body, if any. */
  datatype Request = Request(verb: string, url: string, body: Option<BlockRulePatch>)

  function ItemUrl(id: string): string {
    QueryClient.BlockRules + "/" + id
  }

  /** `useUpdateBlockRule`: PATCH on the rule's url, with the partial updates as the body. */
  function UpdateRequest(id: string, updates: BlockRulePatch): Request {
    Request("PATCH", ItemUrl(id), Some(updates))
  }

  /** `useRemoveBlockRule`: DELETE on the rule's url. */
  function RemoveRequest(id: string): Request {
    Request("DELETE", ItemUrl(id), None)
  }

  function AppIdIs(appId: string): BlockRule -> bool {
    (r: BlockRule) => r.appId == appId
  }

  /** `(getQueryData(['/api/block-rules']) || []).filter(rule => rule.appId === appId)`. */
  function RulesToRemove(cached: Option<seq<BlockRule>>, appId: string): seq<BlockRule> {
    Seqs.Filter(cached.GetOr([]), AppIdIs(appId))
  }

  /** One DELETE per targeted rule, in the order of the targets. */
  function RemovalRequests(cached: Option<seq<BlockRule>>, appId: string): (r: seq<Request>)
    ensures |r| == |RulesToRemove(cached, appId)|
    ensures forall i :: 0 <= i < |r| ==> r[i] == RemoveRequest(RulesToRemove(cached, appId)[i].id)
  {
    var targets := RulesToRemove(cached, appId);
    seq(|targets|, i requires 0 <= i < |targets| => RemoveRequest(targets[i].id))
  }

  /** The targets are exactly the cached rules with that `appId`; with no cached list there is no
      target and no request. */
  lemma RulesToRemoveSpec(cached: Option<seq<BlockRule>>, appId: string)
    ensures forall r :: r in RulesToRemove(cached, appId) <==>
      cached.Some? && r in cached.value && r.appId == appId
    ensures cached.None? ==> RulesToRemove(cached, appId) == [] && RemovalRequests(cached, appId) == []
  {
  }

  /** In the desktop shell a removal is the `delete_block_rule` command on the last segment of the
      url, which is the rule's id whenever that id holds no `/`. */
  lemma RequestsRoute(id: string)
    ensures var r := RemoveRequest(id);
      QueryClient.RouteRequest(true, r.verb, r.url)
        == QueryClient.Invoke(QueryClient.DeleteBlockRule, Some(QueryClient.LastSegment(ItemUrl(id))), 204)
    ensures '/' !in id ==> QueryClient.LastSegment(ItemUrl(id)) == id
  {
    QueryClient.NotBelow(ItemUrl(id), QueryClient.BlockRules + "/", QueryClient.Favorites + "/", 5);
    if '/' !in id {
      QueryClient.LastSegmentOfItem(QueryClient.BlockRules, id);
    }
  }

  /** An update is not routed to a command: in the shell too it goes to HTTP `fetch`, with its
      updates as the body. */
  lemma UpdateRequestFetches(id: string, updates: BlockRulePatch)
    ensures var u := UpdateRequest(id, updates);
      QueryClient.RouteRequest(true, u.verb, u.url) == QueryClient.Fetch && u.body == Some(updates)
  {
    QueryClient.BlockRulePatchFetches(id);
  }

  /** The store keys the routed DELETE requests remove. */
  function DeletedKeys(rules: seq<BlockRule>): set<string> {
    set r | r in rules :: QueryClient.LastSegment(ItemUrl(r.id))
  }

  lemma DeletedKeysStep(rules: seq<BlockRule>, i: nat)
    requires i < |rules|
    ensures DeletedKeys(rules[..i + 1]) == DeletedKeys(rules[..i]) + {QueryClient.LastSegment(ItemUrl(rules[i].id))}
  {
    assert rules[..i + 1] == rules[..i] + [rules[i]];
    assert forall x :: x in rules[..i + 1] <==> x in rules[..i] || x == rules[i];
  }

  /** The removals, each routed by the shell and carried out by the store (`Promise.all` issues
      them together; deletions commute, so the order taken here does not matter). Whatever the
      cache holds, the store loses exactly the keys the requests name. */
  method RemoveBlockRulesByAppId(store: Storage.MemStorage, cached: Option<seq<BlockRule>>, appId: string)
    requires store.Valid()
    modifies store
    ensures store.Valid()
    ensures store.blockRules.entries == old(store.blockRules.entries) - DeletedKeys(RulesToRemove(cached, appId))
    ensures cached == Some(old(store.blockRules.Values())) &&
            (forall k :: k in old(store.blockRules.entries) ==> old(store.blockRules.entries[k].id) == k && '/' !in k)
            ==> forall k :: k in store.blockRules.entries <==>
                  k in old(store.blockRules.entries) && old(store.blockRules.entries[k].appId) != appId
    ensures old(store.RuleIdsMatchKeys()) ==> store.RuleIdsMatchKeys()
    ensures store.favorites == old(store.favorites) && store.sessions == old(store.sessions)
    ensures store.settings == old(store.settings)
  {
    var requests := RemovalRequests(cached, appId);
    SendRemoveRequests(store, requests, RulesToRemove(cached, appId));
    if cached == Some(old(store.blockRules.Values())) &&
       forall k :: k in old(store.blockRules.entries) ==> old(store.blockRules.entries[k].id) == k && '/' !in k {
      RemoveByAppIdSpec(old(store.blockRules), appId);
    }
  }

  /** The `Promise.all` over the requests, sent one after the other: the store loses the key of
      every target. */
  method SendRemoveRequests(store: Storage.MemStorage, requests: seq<Request>, ghost targets: seq<BlockRule>)
    requires store.Valid()
    requires |requests| == |targets|
    requires forall i :: 0 <= i < |requests| ==> requests[i] == RemoveRequest(targets[i].id)
    modifies store
    ensures store.Valid()
    ensures store.blockRules.entries == old(store.blockRules.entries) - DeletedKeys(targets)
    ensures old(store.RuleIdsMatchKeys()) ==> store.RuleIdsMatchKeys()
    ensures store.favorites == old(store.favorites) && store.sessions == old(store.sessions)
    ensures store.settings == old(store.settings)
  {
    for i := 0 to |requests|
      invariant store.Valid()
      invariant store.blockRules.entries == old(store.blockRules.entries) - DeletedKeys(targets[..i])
      invariant old(store.RuleIdsMatchKeys()) ==> store.RuleIdsMatchKeys()
      invariant store.favorites == old(store.favorites) && store.sessions == old(store.sessions)
      invariant store.settings == old(store.settings)
    {
      SendRemoveRequest(store, requests[i], targets[i].id);
      DeletedKeysStep(targets, i);
      MapMinusStep(old(store.blockRules.entries), DeletedKeys(targets[..i]), QueryClient.LastSegment(ItemUrl(targets[i].id)));
    }
    assert targets[..|requests|] == targets;
  }

  /** One `DELETE /api/block-rules/<id>` through `apiRequest` in the desktop shell: it routes to
      `delete_block_rule` with the last url segment. The command's effect is taken to be the
      store's `deleteBlockRule` on that key; the shell's `main.rs` does not register the storage
      commands, so this is the behaviour of a shell that does. */
  method SendRemoveRequest(store: Storage.MemStorage, request: Request, ghost id: string)
    requires store.Valid() && request == RemoveRequest(id)
    modifies store
    ensures store.Valid()
    ensures store.blockRules.entries == old(store.blockRules.entries) - {QueryClient.LastSegment(ItemUrl(id))}
    ensures old(store.RuleIdsMatchKeys()) ==> store.RuleIdsMatchKeys()
    ensures store.favorites == old(store.favorites) && store.sessions == old(store.sessions)
    ensures store.settings == old(store.settings)
  {
    RequestsRoute(id);
    var route := QueryClient.RouteRequest(true, request.verb, request.url);
    if route.Invoke? && route.command == QueryClient.DeleteBlockRule && route.id.Some? {
      store.RemoveBlockRule(route.id.value);
    }
  }

  lemma MapMinusStep<V>(m: map<string, V>, a: set<string>, x: string)
    ensures (m - a) - {x} == m - (a + {x})
  {
  }

  /** With the cache equal to the store, rule ids equal to their keys and ids free of `/` (the
      store hands out UUIDs), removing by app id leaves no rule for that app and every other rule
      as it was. */
  lemma RemoveByAppIdSpec(rules: JsMap.Table<BlockRule>, appId: string)
    requires rules.Valid()
    requires forall k :: k in rules.entries ==> rules.entries[k].id == k && '/' !in k
    ensures var after := rules.entries - DeletedKeys(RulesToRemove(Some(rules.Values()), appId));
      && (forall k :: k in after <==> k in rules.entries && rules.entries[k].appId != appId)
      && (forall k :: k in after ==> after[k] == rules.entries[k])
  {
    var targets := RulesToRemove(Some(rules.Values()), appId);
    forall k ensures k in DeletedKeys(targets) <==> k in rules.entries && rules.entries[k].appId == appId {
      if k in DeletedKeys(targets) {
        DeletedKeyIsTargeted(rules, appId, k);
      }
      if k in rules.entries && rules.entries[k].appId == appId {
        TargetedKeyIsDeleted(rules, appId, k);
      }
    }
  }

  lemma DeletedKeyIsTargeted(rules: JsMap.Table<BlockRule>, appId: string, k: string)
    requires rules.Valid()
    requires forall k :: k in rules.entries ==> rules.entries[k].id == k && '/' !in k
    requires k in DeletedKeys(RulesToRemove(Some(rules.Values()), appId))
    ensures k in rules.entries && rules.entries[k].appId == appId
  {
    var targets := RulesToRemove(Some(rules.Values()), appId);
    var r :| r in targets && QueryClient.LastSegment(ItemUrl(r.id)) == k;
    assert r in rules.Values();
    var i :| 0 <= i < |rules.order| && rules.Values()[i] == r;
    assert r.id == rules.order[i];
    QueryClient.LastSegmentOfItem(QueryClient.BlockRules, r.id);
  }

  lemma TargetedKeyIsDeleted(rules: JsMap.Table<BlockRule>, appId: string, k: string)
    requires rules.Valid()
    requires forall k :: k in rules.entries ==> rules.entries[k].id == k && '/' !in k
    requires k in rules.entries && rules.entries[k].appId == appId
    ensures k in DeletedKeys(RulesToRemove(Some(rules.Values()), appId))
  {
    var targets := RulesToRemove(Some(rules.Values()), appId);
    var i :| 0 <= i < |rules.order| && rules.order[i] == k;
    var r := rules.Values()[i];
    assert r in targets;
    QueryClient.LastSegmentOfItem(QueryClient.BlockRules, r.id);
  }
}
