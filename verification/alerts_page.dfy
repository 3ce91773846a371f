/**
 * The alerts page (frontend/src/pages/Alerts.jsx): the fetched alert list,
 * its split into unacknowledged, acknowledged and critical alerts, the tab
 * that chooses which list is shown, and the selection acknowledged in bulk.
 */
module AlertsPage {
  import opened Wrappers
  import opened Js
  import opened Seqs
  import opened AlertList

  /** The response body of the alert query; `data` is missing or `null` when `None`. */
  datatype AlertsBody = AlertsBody(data: Option<seq<Alert>>)

  /** The three tabs, in their on-screen order (tab values 0, 1, 2). */
  datatype Tab = UnacknowledgedTab | AcknowledgedTab | AllTab

  /** The page's own state: the open tab and the selected alert ids. */
  datatype PageState = PageState(tab: Tab, selected: seq<Value>)

  /** The page as it first renders. */
  const InitialPage: PageState := PageState(UnacknowledgedTab, [])

  /** `alertsData?.data || []`: no response, or no list in it, reads as no alerts. */
  function AlertsOf(alertsData: Option<AlertsBody>): (r: seq<Alert>)
    ensures alertsData.None? ==> r == []
    ensures alertsData.Some? && alertsData.value.data.None? ==> r == []
    ensures alertsData.Some? && alertsData.value.data.Some? ==> r == alertsData.value.data.value
  {
    match alertsData
    case None => []
    case Some(body) => body.data.GetOr([])
  }

  predicate IsUnacknowledged(a: Alert) {
    !Truthy(a.isAcknowledged)
  }

  predicate IsAcknowledged(a: Alert) {
    Truthy(a.isAcknowledged)
  }

  predicate IsCriticalSeverity(a: Alert) {
    a.severity == Critical
  }

  /** The critical-alert filter: `a.severity === 'critical' && !a.is_acknowledged`. */
  predicate IsOpenCritical(a: Alert) {
    a.severity == Critical && !Truthy(a.isAcknowledged)
  }

  function Unacknowledged(alerts: seq<Alert>): (r: seq<Alert>)
    ensures forall a :: a in r <==> a in alerts && !Truthy(a.isAcknowledged)
  {
    Filter(alerts, IsUnacknowledged)
  }

  function Acknowledged(alerts: seq<Alert>): (r: seq<Alert>)
    ensures forall a :: a in r <==> a in alerts && Truthy(a.isAcknowledged)
  {
    Filter(alerts, IsAcknowledged)
  }

  function CriticalAlerts(alerts: seq<Alert>): (r: seq<Alert>)
    ensures forall a :: a in r <==> a in alerts && a.severity == Critical && !Truthy(a.isAcknowledged)
  {
    Filter(alerts, IsOpenCritical)
  }

  /**
   * The unacknowledged and acknowledged lists partition the alerts: every
   * alert is in exactly one of them and their lengths add up to the total.
   */
  lemma Partition(alerts: seq<Alert>)
    ensures |Unacknowledged(alerts)| + |Acknowledged(alerts)| == |alerts|
    ensures forall a :: a in alerts <==> a in Unacknowledged(alerts) || a in Acknowledged(alerts)
    ensures forall a :: !(a in Unacknowledged(alerts) && a in Acknowledged(alerts))
  {
    FilterComplementLength(alerts, IsAcknowledged, IsUnacknowledged);
  }

  /** The three lists keep the fetched order: each distributes over concatenation. */
  lemma FiltersKeepOrder(a: seq<Alert>, b: seq<Alert>)
    ensures Unacknowledged(a + b) == Unacknowledged(a) + Unacknowledged(b)
    ensures Acknowledged(a + b) == Acknowledged(a) + Acknowledged(b)
    ensures CriticalAlerts(a + b) == CriticalAlerts(a) + CriticalAlerts(b)
  {
    FilterConcat(a, b, IsUnacknowledged);
    FilterConcat(a, b, IsAcknowledged);
    FilterConcat(a, b, IsOpenCritical);
  }

  /**
   * The critical alerts are exactly the unacknowledged alerts of critical
   * severity, in the same order, so there are never more of them.
   */
  lemma CriticalWithinUnacknowledged(alerts: seq<Alert>)
    ensures CriticalAlerts(alerts) == Filter(Unacknowledged(alerts), IsCriticalSeverity)
    ensures |CriticalAlerts(alerts)| <= |Unacknowledged(alerts)|
  {
    FilterFilter(alerts, IsUnacknowledged, IsCriticalSeverity, IsOpenCritical);
  }

  /** The three summary figures: unacknowledged, critical, total. */
  datatype Summary = Summary(unacknowledged: nat, critical: nat, total: nat)

  function SummaryOf(alerts: seq<Alert>): (r: Summary) {
    Summary(|Unacknowledged(alerts)|, |CriticalAlerts(alerts)|, |alerts|)
  }

  /** The summary cards are ordered: critical, then unacknowledged, then total. */
  lemma SummaryBounds(alerts: seq<Alert>)
    ensures SummaryOf(alerts).critical <= SummaryOf(alerts).unacknowledged <= SummaryOf(alerts).total
    ensures SummaryOf(alerts).total - SummaryOf(alerts).unacknowledged == |Acknowledged(alerts)|
  {
    Partition(alerts);
    CriticalWithinUnacknowledged(alerts);
  }

  /** Which list a tab shows and whether it passes the selection callback. */
  datatype Listing = Listing(alerts: seq<Alert>, selectable: bool)

  function ListingFor(tab: Tab, alerts: seq<Alert>): (l: Listing)
    ensures l.selectable <==> tab != AcknowledgedTab
    ensures tab == UnacknowledgedTab ==> l.alerts == Unacknowledged(alerts)
    ensures tab == AcknowledgedTab ==> l.alerts == Acknowledged(alerts)
    ensures tab == AllTab ==> l.alerts == alerts
    ensures forall a :: a in l.alerts ==> a in alerts
  {
    match tab
    case UnacknowledgedTab => Listing(Unacknowledged(alerts), true)
    case AcknowledgedTab => Listing(Acknowledged(alerts), false)
    case AllTab => Listing(alerts, true)
  }

  /** The alert list component as a tab renders it. */
  function TabView(tab: Tab, alerts: seq<Alert>, selected: seq<Value>): (v: View) {
    Render(ListingFor(tab, alerts).alerts, selected, ListingFor(tab, alerts).selectable)
  }

  /**
   * What each tab offers: no card on any tab shows a per-alert Acknowledge
   * button, since the only tab without selection lists acknowledged alerts
   * only; every card on the unacknowledged tab has a checkbox; no card on the
   * acknowledged tab has one.
   */
  lemma TabControls(tab: Tab, alerts: seq<Alert>, selected: seq<Value>)
    ensures TabView(tab, alerts, selected).Cards? ==>
      forall c :: c in TabView(tab, alerts, selected).cards ==> !c.acknowledgeButton
    ensures tab == UnacknowledgedTab && TabView(tab, alerts, selected).Cards? ==>
      forall c :: c in TabView(tab, alerts, selected).cards ==> c.checkbox
    ensures tab == AcknowledgedTab && TabView(tab, alerts, selected).Cards? ==>
      forall c :: c in TabView(tab, alerts, selected).cards ==> !c.checkbox
  {
    var l := ListingFor(tab, alerts);
    var v := TabView(tab, alerts, selected);
    if v.Cards? {
      forall c | c in v.cards
        ensures !c.acknowledgeButton
        ensures tab == UnacknowledgedTab ==> c.checkbox
        ensures tab == AcknowledgedTab ==> !c.checkbox
      {
        var i :| 0 <= i < |v.cards| && v.cards[i] == c;
        assert l.alerts[i] in l.alerts;
      }
    }
  }

  /** Clicking an alert's checkbox on the current tab: the list's toggle, applied through `setSelectedAlerts`. */
  function SelectAlert(st: PageState, alerts: seq<Alert>, id: Value): (r: PageState)
    ensures r.tab == st.tab
    ensures st.tab == AcknowledgedTab ==> r == st
    ensures st.tab != AcknowledgedTab ==> r.selected == Toggle(st.selected, id)
  {
    match HandleSelectAlert(st.selected, id, ListingFor(st.tab, alerts).selectable)
    case None => st
    case Some(sel) => st.(selected := sel)
  }

  /** `setTabValue`: switching tabs keeps the selection. */
  function SwitchTab(st: PageState, tab: Tab): (r: PageState)
    ensures r.tab == tab && r.selected == st.selected
  {
    st.(tab := tab)
  }

  /** `handleAcknowledgeSelected`: the ids sent in the bulk request, if one is sent. */
  function AcknowledgeSelected(st: PageState): (req: Option<seq<Value>>)
    ensures req.Some? <==> |st.selected| > 0
    ensures req.Some? ==> req.value == st.selected
  {
    if |st.selected| > 0 then Some(st.selected) else None
  }

  /** The header's "Acknowledge (n)" button is shown exactly when clicking it sends a request. */
  predicate ShowBulkAcknowledge(st: PageState) {
    |st.selected| > 0
  }

  lemma BulkButtonMatchesRequest(st: PageState)
    ensures ShowBulkAcknowledge(st) <==> AcknowledgeSelected(st).Some?
  {
  }

  /** The outcome of the bulk acknowledge mutation: success empties the selection, failure keeps it. */
  function OnBulkAcknowledged(st: PageState, success: bool): (r: PageState)
    ensures r.tab == st.tab
    ensures success ==> r.selected == [] && AcknowledgeSelected(r).None?
    ensures !success ==> r == st
  {
    if success then st.(selected := []) else st
  }
}
