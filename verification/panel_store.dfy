/**
 How the panel's view would line up with the unblock store under a direct wiring of
 the two: a panel message's `(trackers, blocked)` pair is applied with
 `updateUnblockedChannels`, and the store's `getUnblockedTrackers` result for the same
 tab comes back as an `"unblocked-trackers"` message. Tracker strings are used as the
 store's entries unchanged.
 */
module PanelStore {
  import opened OrderedSets
  import Store = UnblockStore
  import Panel = DevtoolsPanel

  /** After a checkbox flips and the store applies the emitted toggle, the tracker's
      entry is allowed exactly when its box is unchecked. */
  lemma ToggleAgreesWithStore(p: Panel.Panel, i: nat, ctx: Store.Context, tabId: Store.TabId)
    requires i < |p.list|
    ensures var step := Panel.OnCheckboxChange(p, i);
      var m := step.sent[0];
      var ctx' := Store.UpdateUnblockedChannels(ctx, [m.tracker], m.blocked, tabId);
      Store.AllowsChannel(ctx', tabId, m.tracker) <==> !step.panel.list[i].checked
  {
  }

  /** After "block all" / "unblock all" and the store applying the emitted batch,
      every listed tracker's entry is allowed exactly when its box is unchecked. The
      list need only match the tracker set, so earlier clicks and toggles that left
      the boxes out of step with the sets are covered. */
  lemma SetAllAgreesWithStore(p: Panel.Panel, blocked: bool, ctx: Store.Context, tabId: Store.TabId)
    requires Panel.ListMatches(p)
    ensures var step := Panel.SetAllTrackers(p, blocked);
      var m := step.sent[0];
      var ctx' := Store.UpdateUnblockedChannels(ctx, m.allTrackers, m.blocked, tabId);
      forall i :: 0 <= i < |step.panel.list| ==>
        (Store.AllowsChannel(ctx', tabId, step.panel.list[i].tracker) <==> !step.panel.list[i].checked)
  {
  }

  /** Feeding the store's list for a tab back to the panel reproduces that list
      exactly, order included, and renders each tracker's box checked exactly when
      the store would keep blocking it. */
  lemma UnblockedListMirrorsStore(p: Panel.Panel, ctx: Store.Context, tabId: Store.TabId)
    requires Store.Valid(ctx) && ctx.unblockedChannels.Some?
    ensures var listed := Store.GetUnblockedTrackers(ctx, tabId);
      listed.Ok? &&
      var r := Panel.OnMessage(p, Panel.Request("unblocked-trackers", [], "", listed.value));
      && r.unblocked == listed.value
      && forall i :: 0 <= i < |r.list| ==>
           (r.list[i].checked <==> !Store.AllowsChannel(ctx, tabId, r.list[i].tracker))
  {
    var listed := Store.GetUnblockedTrackers(ctx, tabId);
    FromSeqOfSet(listed.value);
  }
}
