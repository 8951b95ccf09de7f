/**
 The per-tab unblock store of the `webcompatDebugger` experiment API
 (experiments/api.js). `context.unblockedChannels` maps a tab id to the set of
 hostnames whose blocked requests are let through tracking protection in that tab.
 Each asynchronous API call is one atomic update of this store.
 */
module UnblockStore {
  import opened Wrappers
  import opened OrderedSets

  type TabId = int
  type Host = string

  /** The full URL of a network channel, as the observer sees it. */
  type Url = string

  /** Tab id to the insertion-ordered set of unblocked hostnames. */
  type Store = map<TabId, seq<Host>>

  /** The extension context; `unblockedChannels` is `undefined` until `getAPI` runs. */
  datatype Context = Context(unblockedChannels: Option<Store>)

  /** The set stored for `tabId`, if any. */
  function Entry(ctx: Context, tabId: TabId): Option<seq<Host>> {
    if ctx.unblockedChannels.Some? && tabId in ctx.unblockedChannels.value
    then Some(ctx.unblockedChannels.value[tabId])
    else None
  }

  /** Every stored list is a genuine set: no hostname twice. */
  ghost predicate Valid(ctx: Context) {
    ctx.unblockedChannels.Some? ==>
      forall tabId :: tabId in ctx.unblockedChannels.value ==> NoDup(ctx.unblockedChannels.value[tabId])
  }

  /** `getAPI`: creates an empty store when there is none and keeps an existing one. */
  function GetApi(ctx: Context): (r: Context)
    ensures r.unblockedChannels.Some?
    ensures forall tabId :: Entry(r, tabId) == Entry(ctx, tabId)
    ensures Valid(ctx) ==> Valid(r)
  {
    if ctx.unblockedChannels.None? then Context(Some(map[])) else ctx
  }

  /** `getUnblockedTrackers(tabId)`: the tab's hostnames, oldest first, or `[]`
      for a tab without an entry; reading a missing store throws. */
  function GetUnblockedTrackers(ctx: Context, tabId: TabId): (r: Result<seq<Host>>)
    ensures r.Err? <==> ctx.unblockedChannels.None?
    ensures r.Ok? && Entry(ctx, tabId).None? ==> r.value == []
    ensures r.Ok? && Entry(ctx, tabId).Some? ==> r.value == Entry(ctx, tabId).value
    ensures r.Ok? && Valid(ctx) ==> NoDup(r.value)
  {
    if ctx.unblockedChannels.None? then Err(TypeError)
    else if tabId in ctx.unblockedChannels.value then Ok(ctx.unblockedChannels.value[tabId])
    else Ok([])
  }

  /** The request observer's decision: a blocked channel of tab `tabId` is allowed
      through when its URL is in that tab's set. */
  predicate AllowsChannel(ctx: Context, tabId: TabId, url: Url)
    ensures Entry(ctx, tabId).None? ==> !AllowsChannel(ctx, tabId, url)
    ensures Entry(ctx, tabId).Some? ==> (AllowsChannel(ctx, tabId, url) <==> url in Entry(ctx, tabId).value)
  {
    ctx.unblockedChannels.Some? && tabId in ctx.unblockedChannels.value
    && url in ctx.unblockedChannels.value[tabId]
  }

  /** A channel is allowed exactly when its URL is among the hostnames that
      `getUnblockedTrackers` reports for the tab. */
  lemma AllowedIffListed(ctx: Context, tabId: TabId, url: Url)
    ensures AllowsChannel(ctx, tabId, url) <==>
      (var listed := GetUnblockedTrackers(ctx, tabId); listed.Ok? && url in listed.value)
  {
  }

  /** The `forEach` over `hostnames`: delete each when `blocked`, add each otherwise. */
  function ApplyHostnames(current: seq<Host>, hostnames: seq<Host>, blocked: bool): (r: seq<Host>)
    ensures forall h :: h in r <==> (if h in hostnames then !blocked else h in current)
    ensures NoDup(current) ==> NoDup(r)
  {
    var r := if blocked then DeleteAll(current, hostnames) else AddAll(current, hostnames);
    assert forall h :: h in hostnames <==> h in Elems(hostnames);
    assert forall h :: h in current <==> h in Elems(current);
    assert forall h :: h in r <==> h in Elems(r);
    r
  }

  /** The store, created empty when missing (api.js re-creates it on update). */
  function StoreOf(ctx: Context): Store {
    if ctx.unblockedChannels.Some? then ctx.unblockedChannels.value else map[]
  }

  /** The tab's set, created empty when missing. */
  function Current(ctx: Context, tabId: TabId): seq<Host> {
    var store := StoreOf(ctx);
    if tabId in store then store[tabId] else []
  }

  /** `updateUnblockedChannels(hostnames, blocked, tabId)`. */
  function UpdateUnblockedChannels(ctx: Context, hostnames: seq<Host>, blocked: bool, tabId: TabId): (r: Context)
    ensures Entry(r, tabId).Some?
    ensures forall h :: h in hostnames ==> (AllowsChannel(r, tabId, h) <==> !blocked)
    ensures forall h :: h !in hostnames ==> (AllowsChannel(r, tabId, h) <==> AllowsChannel(ctx, tabId, h))
    ensures forall t :: t != tabId ==> Entry(r, t) == Entry(ctx, t)
    ensures Entry(ctx, tabId).None? && hostnames == [] ==> Entry(r, tabId) == Some([])
    ensures !blocked && Entry(ctx, tabId).Some? ==>
      var before := Entry(ctx, tabId).value;
      |before| <= |Entry(r, tabId).value| && Entry(r, tabId).value[..|before|] == before
    ensures blocked ==> Entry(r, tabId) == Some(Without(Current(ctx, tabId), hostnames))
    ensures Valid(ctx) ==> Valid(r)
  {
    var next := ApplyHostnames(Current(ctx, tabId), hostnames, blocked);
    DeleteAllIsWithout(Current(ctx, tabId), hostnames);
    WriteEntry(ctx, tabId, next);
    Context(Some(StoreOf(ctx)[tabId := next]))
  }

  /** Writing one tab's set into the store: what the tab now holds, and that every
      other tab keeps its entry. */
  lemma WriteEntry(ctx: Context, tabId: TabId, next: seq<Host>)
    ensures var r := Context(Some(StoreOf(ctx)[tabId := next]));
      && Entry(r, tabId) == Some(next)
      && (forall t :: t != tabId ==> Entry(r, t) == Entry(ctx, t))
      && (forall h :: AllowsChannel(r, tabId, h) <==> h in next)
      && (forall h :: AllowsChannel(ctx, tabId, h) <==> h in Current(ctx, tabId))
      && (Entry(ctx, tabId).None? ==> Current(ctx, tabId) == [])
      && (Entry(ctx, tabId).Some? ==> Current(ctx, tabId) == Entry(ctx, tabId).value)
      && (Valid(ctx) ==> NoDup(Current(ctx, tabId)))
      && (Valid(ctx) && NoDup(next) ==> Valid(r))
  {
  }

  /** `clearUnblockList(tabId)`: the tab's set becomes empty; a missing store throws. */
  function ClearUnblockList(ctx: Context, tabId: TabId): (r: Result<Context>)
    ensures r.Err? <==> ctx.unblockedChannels.None?
    ensures r.Ok? ==> Entry(r.value, tabId) == Some([])
    ensures r.Ok? ==> GetUnblockedTrackers(r.value, tabId) == Ok([])
    ensures r.Ok? ==> forall url :: !AllowsChannel(r.value, tabId, url)
    ensures r.Ok? ==> forall t :: t != tabId ==> Entry(r.value, t) == Entry(ctx, t)
    ensures r.Ok? && Valid(ctx) ==> Valid(r.value)
  {
    if ctx.unblockedChannels.None? then Err(TypeError)
    else Ok(Context(Some(ctx.unblockedChannels.value[tabId := []])))
  }

  /** Repeating an update changes nothing, not even the order of the list. */
  lemma UpdateIdempotent(ctx: Context, hostnames: seq<Host>, blocked: bool, tabId: TabId)
    ensures UpdateUnblockedChannels(UpdateUnblockedChannels(ctx, hostnames, blocked, tabId), hostnames, blocked, tabId)
         == UpdateUnblockedChannels(ctx, hostnames, blocked, tabId)
  {
    var current := Current(ctx, tabId);
    var next := ApplyHostnames(current, hostnames, blocked);
    if blocked {
      DeleteAllIdempotent(current, hostnames);
    } else {
      AddAllIdempotent(current, hostnames);
    }
    var once := UpdateUnblockedChannels(ctx, hostnames, blocked, tabId);
    assert StoreOf(once) == StoreOf(ctx)[tabId := next];
    assert Current(once, tabId) == next;
    assert StoreOf(once)[tabId := next] == StoreOf(once);
  }

  /** An empty batch on a tab that has an entry is a no-op. */
  lemma UpdateEmptyBatch(ctx: Context, blocked: bool, tabId: TabId)
    requires Entry(ctx, tabId).Some?
    ensures UpdateUnblockedChannels(ctx, [], blocked, tabId) == ctx
  {
    assert ctx.unblockedChannels.value[tabId := ctx.unblockedChannels.value[tabId]] == ctx.unblockedChannels.value;
  }

  /** Clearing a tab forgets every earlier update of that tab. */
  lemma ClearAfterUpdate(ctx: Context, hostnames: seq<Host>, blocked: bool, tabId: TabId)
    requires ctx.unblockedChannels.Some?
    ensures ClearUnblockList(UpdateUnblockedChannels(ctx, hostnames, blocked, tabId), tabId)
         == ClearUnblockList(ctx, tabId)
  {
    var store := StoreOf(ctx);
    assert store[tabId := ApplyHostnames(Current(ctx, tabId), hostnames, blocked)][tabId := []] == store[tabId := []];
  }

}
