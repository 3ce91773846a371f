/**
 * The alert list component (frontend/src/components/Alerts/AlertList.jsx):
 * the alert record it displays, the severity colour, the toggle of an alert
 * id in the caller's selection, and which controls each alert card shows.
 *
 * `selectable` stands for "an `onSelectAlert` callback was given": the
 * component uses that one prop both to enable selection and to choose
 * between checkboxes and per-alert Acknowledge buttons.
 */
module AlertList {
  import opened Wrappers
  import opened Js
  import opened Seqs

  /**
   * An alert as the API returns it. The fields the logic reads are explicit;
   * the display-only ones (reactor name, message, values, timestamps, ...)
   * stay in `details`.
   */
  datatype Alert = Alert(alertId: Value, severity: Value, isAcknowledged: Value, details: Record)

  /** The Material UI palette colours used for severity chips and card borders. */
  datatype Color = Error | Warning | Info | Default

  const Critical: Value := Str("critical")
  const WarningSeverity: Value := Str("warning")
  const InfoSeverity: Value := Str("info")

  /** `getSeverityColor`: a `switch` on the severity, compared with `===`. */
  function SeverityColor(severity: Value): (c: Color)
    ensures c == Error <==> severity == Critical
    ensures c == Warning <==> severity == WarningSeverity
    ensures c == Info <==> severity == InfoSeverity
  {
    if severity == Critical then Error
    else if severity == WarningSeverity then Warning
    else if severity == InfoSeverity then Info
    else Default
  }

  /** Two severities with the same non-default colour are the same severity. */
  lemma SeverityColorInjective(a: Value, b: Value)
    requires SeverityColor(a) == SeverityColor(b) != Default
    ensures a == b
  {
  }

  /** Anything but the three known severity strings, `undefined` and other casings included, is drawn in the default colour. */
  lemma UnknownSeverityIsDefault(severity: Value)
    requires severity !in {Critical, WarningSeverity, InfoSeverity}
    ensures SeverityColor(severity) == Default
  {
  }

  /**
   * The selection after toggling `id`: every occurrence removed when it is
   * already selected, otherwise appended at the end.
   */
  function Toggle(selected: seq<Value>, id: Value): (r: seq<Value>)
    ensures id in r <==> id !in selected
    ensures id in selected ==> forall x :: x in r <==> x in selected && x != id
    ensures id in selected ==> multiset(r) == multiset(selected)[id := 0]
    ensures id !in selected ==> r == selected + [id]
  {
    if id in selected then
      FilterMultiset(selected, Differs(id));
      assert multiset(Filter(selected, Differs(id))) == multiset(selected)[id := 0];
      Filter(selected, Differs(id))
    else selected + [id]
  }

  /**
   * Removal by toggling keeps the other ids in their relative order: it acts
   * on each part of a split selection independently.
   */
  lemma ToggleKeepsOrder(a: seq<Value>, b: seq<Value>, id: Value)
    requires id in a
    ensures id in b ==> Toggle(a + b, id) == Toggle(a, id) + Toggle(b, id)
    ensures id !in b ==> Toggle(a + b, id) == Toggle(a, id) + b
  {
    assert id in a + b;
    FilterConcat(a, b, Differs(id));
    if id !in b {
      FilterKeepsAll(b, Differs(id));
    }
  }

  /** `handleSelectAlert`: `None` when no callback was given, otherwise the selection handed to it. */
  function HandleSelectAlert(selected: seq<Value>, id: Value, selectable: bool): (r: Option<seq<Value>>)
    ensures r.Some? <==> selectable
    ensures r.Some? ==> r.value == Toggle(selected, id)
    ensures r.Some? ==> (id in r.value <==> id !in selected)
  {
    if !selectable then None else Some(Toggle(selected, id))
  }

  /** A duplicate-free selection stays duplicate-free under toggling. */
  lemma ToggleNoDup(selected: seq<Value>, id: Value)
    requires NoDup(selected)
    ensures NoDup(Toggle(selected, id))
  {
    if id in selected {
      FilterNoDup(selected, Differs(id));
    } else {
      var r := selected + [id];
      forall i, j | 0 <= i < j < |r|
        ensures r[i] != r[j]
      {
        if j == |selected| {
          assert r[i] == selected[i];
        }
      }
    }
  }

  /** Toggling an unselected id twice restores the selection exactly. */
  lemma ToggleTwiceAbsent(selected: seq<Value>, id: Value)
    requires id !in selected
    ensures Toggle(Toggle(selected, id), id) == selected
  {
    FilterConcat(selected, [id], Differs(id));
    FilterKeepsAll(selected, Differs(id));
    assert Filter([id], Differs(id)) == [];
  }

  /**
   * Toggling a selected id twice removes it and re-appends it at the end:
   * the same ids are selected afterwards.
   */
  lemma ToggleTwicePresent(selected: seq<Value>, id: Value)
    requires id in selected
    ensures Toggle(Toggle(selected, id), id) == Filter(selected, Differs(id)) + [id]
    ensures forall x :: x in Toggle(Toggle(selected, id), id) <==> x in selected
  {
    var once := Filter(selected, Differs(id));
    assert Toggle(selected, id) == once;
    assert id !in once;
  }

  /**
   * For a duplicate-free selection holding the id, toggling it twice restores
   * the sequence exactly when the id was the last one selected.
   */
  lemma ToggleTwiceRestoresIffLast(selected: seq<Value>, id: Value)
    requires NoDup(selected) && id in selected
    ensures Toggle(Toggle(selected, id), id) == selected <==> selected[|selected| - 1] == id
  {
    ToggleTwicePresent(selected, id);
    var twice := Toggle(Toggle(selected, id), id);
    if selected[|selected| - 1] == id {
      RestoredWhenLast(selected, id);
    }
    if twice == selected {
      assert selected[|selected| - 1] == twice[|twice| - 1];
    }
  }

  /** The sequence case of `ToggleTwicePresent`: removing the last, unique id and re-appending it. */
  lemma RestoredWhenLast(selected: seq<Value>, id: Value)
    requires NoDup(selected) && |selected| > 0 && selected[|selected| - 1] == id
    ensures Filter(selected, Differs(id)) + [id] == selected
  {
    var n := |selected| - 1;
    var front := selected[..n];
    assert selected == front + [id];
    forall i | 0 <= i < |front|
      ensures Differs(id)(front[i])
    {
      assert front[i] == selected[i];
      assert selected[i] != selected[n];
    }
    FilterKeepsAll(front, Differs(id));
    FilterConcat(front, [id], Differs(id));
    assert Filter([id], Differs(id)) == [];
  }

  /** The checkbox: only in select mode and only for an unacknowledged alert. */
  predicate ShowCheckbox(selectable: bool, a: Alert) {
    selectable && !Truthy(a.isAcknowledged)
  }

  /** The Acknowledge button: only outside select mode and only for an unacknowledged alert. */
  predicate ShowAcknowledgeButton(selectable: bool, a: Alert) {
    !Truthy(a.isAcknowledged) && !selectable
  }

  /**
   * The two controls are never shown together; an unacknowledged alert shows
   * exactly one of them and an acknowledged alert shows neither.
   */
  lemma ControlsExclusive(selectable: bool, a: Alert)
    ensures !(ShowCheckbox(selectable, a) && ShowAcknowledgeButton(selectable, a))
    ensures !Truthy(a.isAcknowledged) ==> ShowCheckbox(selectable, a) || ShowAcknowledgeButton(selectable, a)
    ensures Truthy(a.isAcknowledged) ==> !ShowCheckbox(selectable, a) && !ShowAcknowledgeButton(selectable, a)
  {
  }

  /** What one alert card shows: its colour and its controls. */
  datatype Card = Card(alertId: Value, color: Color, checkbox: bool, checked: bool, acknowledgeButton: bool)

  /** The whole component: the "No alerts found" notice, or one card per alert. */
  datatype View = NoAlerts | Cards(cards: seq<Card>)

  function CardFor(a: Alert, selected: seq<Value>, selectable: bool): (c: Card) {
    Card(a.alertId, SeverityColor(a.severity), ShowCheckbox(selectable, a), a.alertId in selected,
         ShowAcknowledgeButton(selectable, a))
  }

  function Render(alerts: seq<Alert>, selected: seq<Value>, selectable: bool): (v: View)
    ensures v.NoAlerts? <==> |alerts| == 0
    ensures v.Cards? ==> |v.cards| == |alerts|
    ensures v.Cards? ==> forall i :: 0 <= i < |alerts| ==>
      && v.cards[i].alertId == alerts[i].alertId
      && v.cards[i].color == SeverityColor(alerts[i].severity)
      && v.cards[i].checkbox == ShowCheckbox(selectable, alerts[i])
      && v.cards[i].acknowledgeButton == ShowAcknowledgeButton(selectable, alerts[i])
      && !(v.cards[i].checkbox && v.cards[i].acknowledgeButton)
      && (v.cards[i].checked <==> alerts[i].alertId in selected)
  {
    if |alerts| == 0 then NoAlerts
    else Cards(seq(|alerts|, i requires 0 <= i < |alerts| => CardFor(alerts[i], selected, selectable)))
  }
}
