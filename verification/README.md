# Bio-monitor front-end state logic in Dafny

Bio-monitor watches bioreactor telemetry and raises alerts when readings leave
their setpoint bounds. This project models the parts of its web front end that
decide things: the two client-side stores, the route guard, the alert list and
alerts page, and the change-password dialog. Each is a pure function from the
old state (and the user's input) to the new state. Lemmas state the laws that
relate these functions to each other.

The server imports `alertService` and `dataRetentionService`
(`backend/server.js:6-7`). Their source is not available, so this model
covers the front-end logic.

Modules, one per source file, plus three shared ones:

- `Wrappers` (`wrappers.dfy`) defines `Option`, which stands for JavaScript `null` and for "no call happened".
- `Js` (`js.dfy`) holds primitive values, truthiness, `||`, `String(v)`, and object spread on plain records.
- `Seqs` (`seqs.dfy`) models `Array.prototype.filter` and its laws.
- `ReactorStore` models `frontend/src/store/reactorStore.js`.
- `AuthStore` models `frontend/src/store/authStore.js`. `localStorage` is a `map<string, string>` kept with the state. The slice saved under `auth-storage` is kept beside it as a decoded value.
- `ProtectedRoute` models `frontend/src/components/Auth/ProtectedRoute.jsx`.
- `AlertList` models `frontend/src/components/Alerts/AlertList.jsx`.
- `AlertsPage` models `frontend/src/pages/Alerts.jsx`.
- `Profile` models the change-password dialog of `frontend/src/pages/Profile.jsx`.

Toggling an alert id twice restores the selection exactly only when the id was
not selected before. If it was selected, the second toggle appends it at the
end. In that case the same ids are selected, and for a selection without
duplicates the sequence comes back unchanged exactly when the id was the last
one. `AlertList.ToggleTwiceAbsent`, `AlertList.ToggleTwicePresent` and
`AlertList.ToggleTwiceRestoresIffLast` prove these cases.

On the alerts page, no alert card ever shows its own Acknowledge button.
The page passes the selection callback to the unacknowledged and all-alerts
tabs, and on those tabs the list shows checkboxes instead. The only tab
without the callback lists acknowledged alerts, and those get no button.
`AlertsPage.TabControls` proves this.

## Model

| member | source | states |
|---|---|---|
| ReactorStore.SetSelectedReactor | frontend/src/store/reactorStore.js:11 | sets the selected reactor and leaves the reactor list alone |
| ReactorStore.SetReactors | frontend/src/store/reactorStore.js:13 | replaces the list and leaves the selection alone |
| ReactorStore.SettersIndependent | frontend/src/store/reactorStore.js:11-13 | the two setters commute, the last call of each wins, and together they set the whole state |
| ReactorStore.RemoveLeavesStaleSelection | frontend/src/store/reactorStore.js:11-27 | removing the selected reactor's id leaves it selected although it is gone from the list |
| ReactorStore.AddReactor | frontend/src/store/reactorStore.js:15-17 | adds one element at the end: length + 1, earlier elements unchanged, new last element is the reactor |
| ReactorStore.UpdateReactor | frontend/src/store/reactorStore.js:19-23 | keeps length and order; reactors with another id are unchanged; a matching reactor takes each property present in the updates and keeps its own for the rest |
| ReactorStore.RemoveReactor | frontend/src/store/reactorStore.js:25-27 | no survivor carries the id; a reactor survives iff it was there and has another id |
| ReactorStore.RemoveKeepsOrder | frontend/src/store/reactorStore.js:25-27 | removal distributes over concatenation, so survivors keep their relative order |
| ReactorStore.RemoveIdempotent | frontend/src/store/reactorStore.js:25-27 | removing twice equals removing once |
| ReactorStore.RemoveAbsentIsIdentity | frontend/src/store/reactorStore.js:25-27 | removing an id nobody carries changes nothing |
| ReactorStore.RemoveLength | frontend/src/store/reactorStore.js:25-27 | the list shrinks by exactly the number of reactors carrying the id |
| ReactorStore.AddThenRemove | frontend/src/store/reactorStore.js:15-27 | adding a reactor with a fresh id, then removing that id, restores the state |
| ReactorStore.UpdateIdempotent | frontend/src/store/reactorStore.js:19-23 | updating twice with the same arguments equals updating once, even when the update rewrites `reactor_id` |
| ReactorStore.UpdateEmptyIsIdentity | frontend/src/store/reactorStore.js:19-23 | an empty update changes nothing |
| ReactorStore.UpdateThenRemove | frontend/src/store/reactorStore.js:19-27 | if the update keeps `reactor_id`, removing afterwards is the same as just removing |
| AuthStore.InitialState | frontend/src/store/authStore.js:10-13 | the initializer, before the saved slice is merged in: no user; authenticated iff storage holds a non-empty token, and then the token equals the stored one; the refresh token is the stored value when that is non-empty and null otherwise |
| AuthStore.Login | frontend/src/store/authStore.js:16-26 | authenticated, with the supplied user and tokens in the state; both tokens, as strings, in storage; other keys unchanged; the saved slice is the new user with the flag set |
| AuthStore.Logout | frontend/src/store/authStore.js:28-38 | user and both tokens null, not authenticated, both storage keys gone, other keys unchanged, saved slice signed out |
| AuthStore.UpdateUser | frontend/src/store/authStore.js:40-44 | supplied fields override and the others are kept; a null prior user yields exactly the supplied fields; tokens, flag and token storage unchanged; the saved slice carries the new user |
| AuthStore.SetTokens | frontend/src/store/authStore.js:46-56 | user and flag unchanged; token always stored; a falsy refresh token leaves the stored one untouched and sets the state's refresh token to undefined; every other storage key unchanged |
| AuthStore.Partialize | frontend/src/store/authStore.js:60-63 | the persisted slice is exactly the user and the flag |
| AuthStore.PartializeIgnoresTokens | frontend/src/store/authStore.js:60-63 | states that differ only in tokens persist the same slice |
| AuthStore.SetTokensKeepsPersisted | frontend/src/store/authStore.js:46-64 | refreshing tokens saves the same slice as before |
| AuthStore.Reload | frontend/src/store/authStore.js:7-13 | a page load reads the tokens back through the initializer; when a slice was saved under `auth-storage`, its user and flag replace the initializer's |
| AuthStore.ActionsKeepInSync | frontend/src/store/authStore.js:58-64 | after every action the saved slice matches the state, so a reload restores user and flag |
| AuthStore.UpdateUserIdempotent | frontend/src/store/authStore.js:40-44 | updating the user twice with the same fields equals updating once |
| AuthStore.LogoutForgets | frontend/src/store/authStore.js:28-38 | logout leads to the same session whatever the previous state and tokens were |
| AuthStore.LogoutIdempotent | frontend/src/store/authStore.js:28-38 | logging out twice equals logging out once |
| AuthStore.ReloadAfterLogin | frontend/src/store/authStore.js:7-26 | after login with a non-empty token, a reload restores the logged-in user, the flag and the token, and keeps a non-empty refresh token |
| AuthStore.ReloadAfterLogout | frontend/src/store/authStore.js:7-38 | after logout, a reload starts signed out with no user and no tokens |
| AuthStore.ReloadAfterSetTokens | frontend/src/store/authStore.js:7-64 | after setting a non-empty token, a reload reads that token back, while user and flag come from the saved slice |
| AuthStore.SetTokensAfterLogoutStaysSignedOut | frontend/src/store/authStore.js:11-64 | setting a token after logout makes the initializer see a token, yet a reload starts signed out because the saved flag wins |
| ProtectedRoute.Guard | frontend/src/components/Auth/ProtectedRoute.jsx:8-36 | Loading iff the flag is undefined; a dashboard redirect only for an authenticated visitor whose role differs from a required role; Render only when authenticated |
| ProtectedRoute.FalsyRedirectsToLogin | frontend/src/components/Auth/ProtectedRoute.jsx:26-28 | a login redirect happens iff the flag is falsy but not undefined |
| ProtectedRoute.RoleMismatchRedirectsToDashboard | frontend/src/components/Auth/ProtectedRoute.jsx:31-33 | when authenticated with a required role, a dashboard redirect happens iff the user's role differs; a missing user always redirects |
| ProtectedRoute.NoRoleRenders | frontend/src/components/Auth/ProtectedRoute.jsx:31-35 | authenticated with no required role always renders |
| ProtectedRoute.StoreNeverLoading | frontend/src/components/Auth/ProtectedRoute.jsx:12-28 | with the flag read from the store, which is always boolean, the guard never shows Loading, and it redirects to login iff the store is unauthenticated |
| ProtectedRoute.LoginThenGuard | frontend/src/components/Auth/ProtectedRoute.jsx:26-35 | right after login an unrestricted route renders, and a role route renders iff the logged-in user has that role |
| ProtectedRoute.LogoutThenGuard | frontend/src/components/Auth/ProtectedRoute.jsx:26-28 | after logout every protected route redirects to login |
| ProtectedRoute.AdminRoute | frontend/src/App.js:46-53 | the admin route renders exactly for an authenticated user whose role is "admin" |
| ProtectedRoute.UpdateUserThenGuard | frontend/src/components/Auth/ProtectedRoute.jsx:31-33 | `updateUser` changes a guard decision only through `role`: without one the decision is unchanged, with one the user's role becomes it |
| AlertList.SeverityColor | frontend/src/components/Alerts/AlertList.jsx:50-61 | each named colour corresponds to exactly one severity string; anything else is default |
| AlertList.SeverityColorInjective | frontend/src/components/Alerts/AlertList.jsx:50-61 | two severities with the same non-default colour are equal |
| AlertList.UnknownSeverityIsDefault | frontend/src/components/Alerts/AlertList.jsx:58-59 | any severity other than the three names gets the default colour |
| AlertList.Toggle | frontend/src/components/Alerts/AlertList.jsx:39-43 | the id ends up selected iff it was not; a selected id loses every occurrence while every other id keeps its multiplicity; an unselected id is appended at the end |
| AlertList.ToggleKeepsOrder | frontend/src/components/Alerts/AlertList.jsx:39-40 | removal by toggling acts on each part of a split selection independently, so the other ids keep their order |
| AlertList.HandleSelectAlert | frontend/src/components/Alerts/AlertList.jsx:36-44 | the callback is called iff one was given (otherwise a no-op), and it receives exactly the toggled selection |
| AlertList.ToggleNoDup | frontend/src/components/Alerts/AlertList.jsx:39-43 | a selection without duplicates stays without duplicates |
| AlertList.ToggleTwiceAbsent | frontend/src/components/Alerts/AlertList.jsx:39-43 | toggling an unselected id twice restores the selection exactly |
| AlertList.ToggleTwicePresent | frontend/src/components/Alerts/AlertList.jsx:39-43 | toggling a selected id twice removes it and re-appends it at the end; the same ids are selected |
| AlertList.ToggleTwiceRestoresIffLast | frontend/src/components/Alerts/AlertList.jsx:39-43 | for a selection without duplicates, toggling a selected id twice leaves the sequence unchanged iff the id was last |
| AlertList.ControlsExclusive | frontend/src/components/Alerts/AlertList.jsx:85-90 | checkbox and Acknowledge button never show together; an unacknowledged alert shows exactly one, an acknowledged alert neither |
| AlertList.Render | frontend/src/components/Alerts/AlertList.jsx:63-154 | "No alerts found" iff the list is empty; otherwise one card per alert, in order, with the severity colour, checkbox and Acknowledge button as the two visibility rules say, checked iff its id is selected |
| AlertsPage.AlertsOf | frontend/src/pages/Alerts.jsx:69 | a missing response, or missing data in it, yields an empty list |
| AlertsPage.Unacknowledged | frontend/src/pages/Alerts.jsx:72 | holds exactly the fetched alerts whose acknowledged flag is falsy |
| AlertsPage.Acknowledged | frontend/src/pages/Alerts.jsx:73 | holds exactly the fetched alerts whose acknowledged flag is truthy |
| AlertsPage.CriticalAlerts | frontend/src/pages/Alerts.jsx:74 | holds exactly the unacknowledged fetched alerts of severity "critical" |
| AlertsPage.Partition | frontend/src/pages/Alerts.jsx:72-73 | the two lists partition the alerts: lengths sum to the total, each alert in one, none in both |
| AlertsPage.FiltersKeepOrder | frontend/src/pages/Alerts.jsx:72-74 | all three filters distribute over concatenation, so they keep the fetched order |
| AlertsPage.CriticalWithinUnacknowledged | frontend/src/pages/Alerts.jsx:72-74 | the critical list equals the unacknowledged list filtered by severity, so it is never longer |
| AlertsPage.SummaryBounds | frontend/src/pages/Alerts.jsx:119-155 | the summary figures satisfy critical ≤ unacknowledged ≤ total, and total minus unacknowledged is the acknowledged count |
| AlertsPage.ListingFor | frontend/src/pages/Alerts.jsx:181-197 | the tabs show the unacknowledged alerts, the acknowledged alerts and all alerts, in that order; selection is offered on every tab except the acknowledged one |
| AlertsPage.TabControls | frontend/src/pages/Alerts.jsx:181-197 | in the rendered cards, no tab shows a per-alert Acknowledge button; every card on the unacknowledged tab has a checkbox; no card on the acknowledged tab has one |
| AlertsPage.SelectAlert | frontend/src/pages/Alerts.jsx:36 | checking an alert toggles it in the page's selection, except on the acknowledged tab, where nothing changes |
| AlertsPage.SwitchTab | frontend/src/pages/Alerts.jsx:160 | switching tabs keeps the selection |
| AlertsPage.AcknowledgeSelected | frontend/src/pages/Alerts.jsx:76-80 | a bulk request is issued iff the selection is non-empty, and it carries exactly the selection |
| AlertsPage.BulkButtonMatchesRequest | frontend/src/pages/Alerts.jsx:98-107 | the bulk Acknowledge button is shown exactly when clicking it issues a request |
| AlertsPage.OnBulkAcknowledged | frontend/src/pages/Alerts.jsx:59-66 | success empties the selection, so no further request can follow; failure changes nothing |
| Profile.Validate | frontend/src/pages/Profile.jsx:70-78 | passes iff new equals confirm and has at least 6 characters; a mismatch reports the mismatch message, and a short matching password the length message |
| Profile.EditField | frontend/src/pages/Profile.jsx:56-62 | writes only the named field and clears the error |
| Profile.HandleChangePassword | frontend/src/pages/Profile.jsx:69-91 | a request is made iff validation passes; failure sets the error and nothing else; success sends current and new (not confirm), closes the dialog and empties all fields |
| Profile.MismatchTakesPrecedence | frontend/src/pages/Profile.jsx:70-78 | a mismatch reports the mismatch error whatever the length, and makes no request |
| Profile.OpenDialog | frontend/src/pages/Profile.jsx:224 | opening the dialog keeps fields and error |
| Profile.CloseDialog | frontend/src/pages/Profile.jsx:278-286 | closing or cancelling gives a closed dialog with empty fields and no error (Cancel, lines 340-347, does the same) |
| Profile.EnabledMeansValid | frontend/src/pages/Profile.jsx:354-359 | the button is enabled iff the handler's checks pass and a current password is typed, so an enabled click always sends the request |
| Profile.HintDisablesSubmit | frontend/src/pages/Profile.jsx:327-336 | whenever the confirm field shows its mismatch hint, the submit button is disabled |
| Profile.StepKeepsErrorCurrent | frontend/src/pages/Profile.jsx:56-91 | every dialog action keeps the error line either empty or equal to what validation says about the current fields |
| Profile.ReachableErrorIsCurrent | frontend/src/pages/Profile.jsx:56-91 | after any sequence of actions the error line is current, so a successful submit never leaves a stale error |

## Left out

- The alert-evaluation and data-retention services are left out. The server imports them (`backend/server.js:6-7`), but their source is not part of this model.
- `backend/server.js` is left out. It is process start-up, signal handling, timers and the HTTP/Socket.IO server.
- `backend/scripts/createAdminUser.js` is left out. It consists of database and bcrypt calls.
- The HTTP wrappers in `frontend/src/api/*.js` are left out. The requests appear only as the values handed to them, for example `AlertsPage.AcknowledgeSelected` and `Profile.HandleChangePassword`.
- Query caching, cache invalidation, refetching, toasts and pending flags are left out. These are side effects handled by the React Query and toast libraries.
- The single-alert Acknowledge mutation in `AlertList.jsx` (lines 24-34 and 46-48) is left out. It only forwards the id to the HTTP layer.
- Rendering-only components are left out: App layout, Layout, LineChart, dashboard and stat cards, ReactorCard, ErrorMessage and AlertCard. AlertCard repeats the severity mapping in `AlertList.SeverityColor`.
- ReactorForm, ReactorsList and Login are left out. They are form plumbing around HTTP mutations.
- The profile-details editor in `Profile.jsx` (lines 49-54 and 64-67) is left out. It passes the form straight to the profile update call.
- JavaScript numbers are modelled as integers. NaN and fractions are not represented, so `===` and `includes` coincide.
- Record properties hold primitive values only. Nested objects, and the identity semantics of `===` on them, are not modelled.
- Password length counts characters, while JavaScript counts UTF-16 code units. The two differ only for characters outside the Basic Multilingual Plane.
- The JSON encoding of the `auth-storage` entry is left out. `AuthStore.Session` keeps that entry's decoded slice beside the other storage keys, so the `Storage` frames of the auth actions speak about every key except `auth-storage`.
- Type errors are not modelled. They include a `null` reactor in the list, a missing `tokens` argument to `login`, and a non-array `data` in the alert response.
- `Profile.EditField` models only the dialog's three field names. `handlePasswordChange` would also write a property under any other `name` attribute, but the dialog renders no other field.
