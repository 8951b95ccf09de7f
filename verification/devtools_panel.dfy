/**
 The devtools panel's tracker state (`WebcompatDebugger` in content/devtools-panel.js):
 the set of trackers seen on the inspected page, the set currently unblocked, and the
 rendered list of checkboxes. Incoming runtime messages replace or extend the two sets
 and re-render the list; the buttons and checkboxes emit outgoing messages.
 */
module DevtoolsPanel {
  import opened OrderedSets

  type Tracker = string

  /** One rendered `<li>`: the tracker's label and its checkbox state. */
  datatype ListItem = ListItem(tracker: Tracker, checked: bool)

  /** `allTrackers` and `unblocked` are insertion-ordered sets; `list` is the
      `trackers-list` element as last drawn or edited. */
  datatype Panel = Panel(allTrackers: seq<Tracker>, unblocked: seq<Tracker>, list: seq<ListItem>)

  /** A runtime message to the panel: its `msg` name and the payload fields the
      handler reads. */
  datatype Request = Request(msg: string, trackers: seq<Tracker>, tracker: Tracker, unblockedTrackers: seq<Tracker>)

  /** A message the panel sends to the background script. */
  datatype OutMsg =
    | GetUnblocked
    | FetchInitialTrackers(tabId: int)
    | ToggleTracker(tracker: Tracker, blocked: bool)
    | UpdateAllTrackers(blocked: bool, allTrackers: seq<Tracker>)

  /** The `msg` field each outgoing message is sent with. */
  function MsgName(m: OutMsg): string {
    match m
    case GetUnblocked => "get-unblocked-trackers"
    case FetchInitialTrackers(_) => "fetch-initial-trackers"
    case ToggleTracker(_, _) => "toggle-tracker"
    case UpdateAllTrackers(_, _) => "update-all-trackers"
  }

  /** The panel after handling an event, with the messages it sent, in order. */
  datatype Step = Step(panel: Panel, sent: seq<OutMsg>)

  /** Both tracker sets hold each tracker once. */
  ghost predicate Valid(p: Panel) {
    NoDup(p.allTrackers) && NoDup(p.unblocked)
  }

  /** `populateTrackersList`: one item per tracker, in set order; a tracker's box is
      checked (blocked) exactly when it is not unblocked. */
  function RenderList(allTrackers: seq<Tracker>, unblocked: seq<Tracker>): (r: seq<ListItem>)
    ensures |r| == |allTrackers|
    ensures forall i :: 0 <= i < |r| ==> r[i].tracker == allTrackers[i]
    ensures forall i :: 0 <= i < |r| ==> (r[i].checked <==> allTrackers[i] !in unblocked)
  {
    if allTrackers == [] then []
    else [ListItem(allTrackers[0], allTrackers[0] !in unblocked)] + RenderList(allTrackers[1..], unblocked)
  }

  /** The list on screen is the projection of the two sets. */
  ghost predicate Rendered(p: Panel) {
    p.list == RenderList(p.allTrackers, p.unblocked)
  }

  function Rerender(p: Panel): Panel {
    p.(list := RenderList(p.allTrackers, p.unblocked))
  }

  /** The list shows `allTrackers` item for item, whatever the checkboxes say. This
      holds after rendering and survives the controls, which only change boxes. */
  ghost predicate ListMatches(p: Panel) {
    && |p.list| == |p.allTrackers|
    && forall i :: 0 <= i < |p.list| ==> p.list[i].tracker == p.allTrackers[i]
  }

  /** How many items of `list` show `t`. */
  function ItemCount(list: seq<ListItem>, t: Tracker): nat {
    if list == [] then 0
    else (if list[0].tracker == t then 1 else 0) + ItemCount(list[1..], t)
  }

  /** The panel after `init`: nothing known yet, and the two requests for state. */
  function Init(tabId: int): (r: Step)
    ensures r.panel == Panel([], [], [])
    ensures Valid(r.panel) && Rendered(r.panel)
    ensures |r.sent| == 2
    ensures MsgName(r.sent[0]) == "get-unblocked-trackers"
    ensures MsgName(r.sent[1]) == "fetch-initial-trackers" && r.sent[1].tabId == tabId
  {
    Step(Panel([], [], []), [GetUnblocked, FetchInitialTrackers(tabId)])
  }

  /** `onMessage(request)`. */
  function OnMessage(p: Panel, req: Request): (r: Panel)
    ensures req.msg == "initial-trackers" ==>
      r.allTrackers == FromSeq(req.trackers)
      && Elems(r.allTrackers) == Elems(req.trackers) && NoDup(r.allTrackers)
      && r.unblocked == p.unblocked && Rendered(r)
    ensures req.msg == "blocked-request" ==>
      Elems(r.allTrackers) == Elems(p.allTrackers) + {req.tracker}
      && (req.tracker in p.allTrackers ==> r == Rerender(p))
      && (req.tracker !in p.allTrackers ==> r.allTrackers == p.allTrackers + [req.tracker])
      && r.unblocked == p.unblocked && Rendered(r)
    ensures req.msg == "unblocked-trackers" ==>
      r.unblocked == FromSeq(req.unblockedTrackers)
      && Elems(r.unblocked) == Elems(req.unblockedTrackers) && NoDup(r.unblocked)
      && r.allTrackers == p.allTrackers && Rendered(r)
    ensures req.msg !in {"initial-trackers", "blocked-request", "unblocked-trackers"} ==> r == p
    ensures Valid(p) ==> Valid(r)
  {
    if req.msg == "initial-trackers" then
      Rerender(p.(allTrackers := FromSeq(req.trackers)))
    else if req.msg == "blocked-request" then
      Rerender(p.(allTrackers := Add(p.allTrackers, req.tracker)))
    else if req.msg == "unblocked-trackers" then
      Rerender(p.(unblocked := FromSeq(req.unblockedTrackers)))
    else
      p
  }

  /** The "block all" (`blocked`) and "unblock all" (`!blocked`) buttons: the whole
      tracker set is sent with the flag and every checkbox is set to it; the two sets
      stay as they are until the background replies. */
  function SetAllTrackers(p: Panel, blocked: bool): (r: Step)
    ensures r.sent == [UpdateAllTrackers(blocked, p.allTrackers)]
    ensures MsgName(r.sent[0]) == "update-all-trackers"
    ensures r.panel.allTrackers == p.allTrackers && r.panel.unblocked == p.unblocked
    ensures |r.panel.list| == |p.list|
    ensures forall i :: 0 <= i < |p.list| ==>
      r.panel.list[i].tracker == p.list[i].tracker && r.panel.list[i].checked == blocked
  {
    Step(p.(list := seq(|p.list|, i requires 0 <= i < |p.list| => p.list[i].(checked := blocked))),
         [UpdateAllTrackers(blocked, p.allTrackers)])
  }

  /** A checkbox `change` event: the box has flipped, and its new state is sent as
      the tracker's `blocked` flag. */
  function OnCheckboxChange(p: Panel, i: nat): (r: Step)
    requires i < |p.list|
    ensures |r.panel.list| == |p.list|
    ensures r.panel.list[i].tracker == p.list[i].tracker
    ensures r.panel.list[i].checked == !p.list[i].checked
    ensures forall j :: 0 <= j < |p.list| && j != i ==> r.panel.list[j] == p.list[j]
    ensures r.sent == [ToggleTracker(p.list[i].tracker, r.panel.list[i].checked)]
    ensures MsgName(r.sent[0]) == "toggle-tracker"
    ensures r.panel.allTrackers == p.allTrackers && r.panel.unblocked == p.unblocked
  {
    var checked := !p.list[i].checked;
    Step(p.(list := p.list[i := p.list[i].(checked := checked)]), [ToggleTracker(p.list[i].tracker, checked)])
  }

  /** Rendering a set shows each of its trackers exactly once and nothing else. */
  lemma {:induction false} RenderOneItemPerTracker(allTrackers: seq<Tracker>, unblocked: seq<Tracker>, t: Tracker)
    requires NoDup(allTrackers)
    ensures ItemCount(RenderList(allTrackers, unblocked), t) == if t in allTrackers then 1 else 0
    decreases |allTrackers|
  {
    if allTrackers != [] {
      ConsParts(allTrackers);
      var r := RenderList(allTrackers, unblocked);
      assert r[1..] == RenderList(allTrackers[1..], unblocked);
      RenderOneItemPerTracker(allTrackers[1..], unblocked, t);
    }
  }

  /** After any handled message the list has one item per tracker of `allTrackers`. */
  lemma MessageRendersEachTrackerOnce(p: Panel, req: Request, t: Tracker)
    requires Valid(p)
    requires req.msg in {"initial-trackers", "blocked-request", "unblocked-trackers"}
    ensures var r := OnMessage(p, req);
      ItemCount(r.list, t) == if t in r.allTrackers then 1 else 0
  {
    var r := OnMessage(p, req);
    RenderOneItemPerTracker(r.allTrackers, r.unblocked, t);
  }

  /** The list starts out matching the (empty) tracker set. */
  lemma InitListMatches(tabId: int)
    ensures ListMatches(Init(tabId).panel)
  {
  }

  /** Every message leaves the list matching the tracker set, if it matched before. */
  lemma MessageKeepsListMatching(p: Panel, req: Request)
    requires ListMatches(p)
    ensures ListMatches(OnMessage(p, req))
  {
  }

  /** "Block all" and "unblock all" keep the list matching the tracker set. */
  lemma SetAllKeepsListMatching(p: Panel, blocked: bool)
    requires ListMatches(p)
    ensures ListMatches(SetAllTrackers(p, blocked).panel)
  {
  }

  /** A checkbox change keeps the list matching the tracker set. */
  lemma CheckboxKeepsListMatching(p: Panel, i: nat)
    requires ListMatches(p) && i < |p.list|
    ensures ListMatches(OnCheckboxChange(p, i).panel)
  {
  }

  /** Reporting the same blocked request twice is the same as reporting it once. */
  lemma BlockedRequestIdempotent(p: Panel, req: Request)
    requires req.msg == "blocked-request"
    ensures OnMessage(OnMessage(p, req), req) == OnMessage(p, req)
  {
  }
}
