# Monitor list page: a verified model

This project models the controller logic of the monitor list page of the
Checkmate client (`Client/src/Pages/Monitors/index.jsx`). The page lists the
monitors of the logged-in user's team. It shows how many are up, down and
paused, and it gives each row an action menu. From that menu a monitor can be
opened, inspected, configured or deleted after a confirmation.

The model has two halves, following the shape of the source:

- **Pure derivations** (`MonitorList`, `Sequences`). These cover the up count
  (a left fold, as `reduce` is), the down and paused figures, and one table row
  per monitor. Each row holds the title, the fixed percentage 100, the
  "up"/"down" label, the colour keyed by the same test, and the checks
  reversed. The choice of layout is the skeleton, the empty-state invitation
  or the dashboard.
- **The per-row action menu** (`ActionsMenuState.ActionsMenu`), a class. Its
  fields are the three React state cells of `ActionsMenu`: `menuOpen` (the
  menu's anchor element is set), `target` (the `actions` cell) and `modalOpen`
  (the confirmation modal). A fourth field, `log`, records every effect the
  menu issues, in order. The effects are delete requests, list reloads, toast
  texts, navigation paths and URLs opened in a new window. The result of the
  asynchronous delete dispatch is a method argument (`fulfilled`).

JavaScript details kept on purpose:

- `status === true` is strict. A monitor's status is an `Option<bool>`, and
  only `Some(true)` counts as up. A missing status is down.
- `null` and `undefined` differ for urls (`JsUrl`). The "Open site" entry is
  hidden only for `null`. So a non-ping monitor whose url field is absent still
  offers it, and so does the empty initial target `{}`.
- The router, the window, the toast service and the Redux store are outside
  the model. What the page hands them is recorded as an `Effect`.

The model follows the code: "Details" and "Configure" navigate but leave the
menu open; `closeMenu` clears only the anchor and keeps the target; "Open site"
closes the menu.

## Model

| member | source | states |
|---|---|---|
| `MonitorRecord.DetailsPathInjective` | Client/src/Pages/Monitors/index.jsx:112-119 | `/monitors/{id}` determines the id: two details paths are equal exactly when the ids are |
| `MonitorRecord.ConfigurePathInjective` | Client/src/Pages/Monitors/index.jsx:122-130 | `/monitors/configure/{id}` determines the id in the same way |
| `MonitorRecord.RouteFamiliesOverlap` | Client/src/Pages/Monitors/index.jsx:115-126 | the two route families and the creation route overlap: the details path of id "create" is `/monitors/create`, and the details path of id "configure/x" is the configure path of "x"; `CreatePath` is the target of both create buttons (lines 373 and 397) |
| `Sequences.Reversed` | Client/src/Pages/Monitors/index.jsx:314 | the latest-first copy of the checks has as many checks as the original |
| `Sequences.ReversedAt` | Client/src/Pages/Monitors/index.jsx:313-314 | position k of the copy holds the check k places from the end |
| `Sequences.ReversedTwice` | Client/src/Pages/Monitors/index.jsx:314 | reversing twice gives back the original order (round trip) |
| `Sequences.ReversedSameElements` | Client/src/Pages/Monitors/index.jsx:314 | the copy holds the same checks, each as often as the original |
| `MonitorList.UpCount` | Client/src/Pages/Monitors/index.jsx:275-277 | the fold never counts more monitors than the list holds |
| `MonitorList.UpCountCountsUpMonitors` | Client/src/Pages/Monitors/index.jsx:275-279 | the fold equals the number of monitors whose status is `true`; length minus it equals the number of the others |
| `MonitorList.Tally` | Client/src/Pages/Monitors/index.jsx:409-411 | up counts the up monitors and down the rest, so up + down = length; paused is 0; an empty list gives 0, 0, 0 |
| `MonitorList.RowShowsMonitor` | Client/src/Pages/Monitors/index.jsx:302-321 | of `ToRow`, the map callback: row id = monitor id, title = name, percentage = 100; label "up" iff status is `true`, else "down"; colour is the up colour iff the label is "up"; the chart's checks reversed are the monitor's checks; the row's click handler navigates to `/monitors/{id}` |
| `MonitorList.Rows` | Client/src/Pages/Monitors/index.jsx:302-347 | one row per monitor, row i built from monitor i, so fetch order is kept |
| `MonitorList.RowIdsInFetchOrder` | Client/src/Pages/Monitors/index.jsx:316-321 | row i carries the id and the details path of monitor i |
| `MonitorList.View` | Client/src/Pages/Monitors/index.jsx:349-379 | skeleton iff loading with an empty list; the empty state iff not loading and empty, never the table; the dashboard iff the list is non-empty, and it shows exactly `Tally(ms)` (lines 275-279, 409-411) and `Rows(ms)` (lines 302-347), with up + down = total = rows = length and paused 0; the header create button iff the list is non-empty |
| `ActionsMenuState.MenuUrl` | Client/src/Pages/Monitors/index.jsx:78-82 | a ping monitor hands `null`; any other monitor hands its own url; the result is `null` iff the type is ping or the url is `null` |
| `ActionsMenuState.OpenSiteOfferedFor` | Client/src/Pages/Monitors/index.jsx:99-111 | with `OpenSiteShown` as the test `actions.url !== null`: "Open site" is offered iff the monitor is not a ping monitor and its url is not `null`; a ping monitor never offers it |
| `ActionsMenuState.RemoveReportsOutcome` | Client/src/Pages/Monitors/index.jsx:41-51 | of `RemoveEffects`, the effects of one confirmed delete: a delete issues one delete request, first, for the given id; one reload with the auth token iff fulfilled; the success toast iff fulfilled and the failure toast iff not, so a failure is never reported as success |
| `ActionsMenuState.ActionsMenu.constructor` | Client/src/Pages/Monitors/index.jsx:32-34 | a row's menu starts closed, with the modal closed, the empty target and no effects |
| `ActionsMenuState.ActionsMenu.OpenMenu` | Client/src/Pages/Monitors/index.jsx:54-59 | opens the menu and replaces the whole target with {id, url}, so no trace of an earlier target is left; issues nothing |
| `ActionsMenuState.ActionsMenu.ClickSettings` | Client/src/Pages/Monitors/index.jsx:76-83 | opens the menu on the row's monitor; the target url is `null` iff the monitor is ping or has a `null` url |
| `ActionsMenuState.ActionsMenu.CloseMenu` | Client/src/Pages/Monitors/index.jsx:66-69 | clears the anchor only: target, modal and log unchanged |
| `ActionsMenuState.ActionsMenu.OpenRemove` | Client/src/Pages/Monitors/index.jsx:61-64 | leaves the menu closed and the modal open on the same target; the two are never open together (`Valid`) |
| `ActionsMenuState.ActionsMenu.CloseModal` | Client/src/Pages/Monitors/index.jsx:143-144 | the modal's close and the Cancel button (line 180) close the modal and the menu itself issues no delete, nor anything else (see "## Left out" on event propagation) |
| `ActionsMenuState.ActionsMenu.ChooseOpenSite` | Client/src/Pages/Monitors/index.jsx:99-108 | offered only for a non-null url; closes the menu and opens the target url |
| `ActionsMenuState.ActionsMenu.ChooseDetails` | Client/src/Pages/Monitors/index.jsx:112-119 | navigates to `/monitors/{target id}`; menu, modal and target unchanged |
| `ActionsMenuState.ActionsMenu.ChooseConfigure` | Client/src/Pages/Monitors/index.jsx:122-130 | navigates to `/monitors/configure/{target id}`; menu, modal and target unchanged |
| `ActionsMenuState.ActionsMenu.HandleRemove` | Client/src/Pages/Monitors/index.jsx:38-52 | deletes the id of the last opened target. Fulfilled: the modal closes, exactly one reload is added, and the success toast shows. Otherwise: the modal stays open, no reload is added, and the failure toast shows |

## Left out

- Rendering is not modelled. This covers the JSX/MUI markup, styling, theme values, the `Host` cell, `SkeletonLayout`'s shapes, `BasicTable` pagination, the column headers, the greeting with the user's first name, and the disabled "Incidents" entry (it has no handler and so no transition).
- The fetch on mount (lines 271-273) is not modelled. `getUptimeMonitorsByTeamId` and `deleteUptimeMonitor` are Redux thunks whose code is not part of this model. The fetched list and its `isLoading` flag are inputs to `MonitorList.View`, and the delete's outcome is the `fulfilled` argument of `HandleRemove`.
- Browser and router calls are recorded, not performed. `window.open`, `navigate` and `createToast` appear only as the URL, path or text in the effect log. `preventDefault` and `stopPropagation` have no model. Every menu handler stops propagation except the modal's close (line 144) and Cancel (line 180), and the modal is rendered in place (`disablePortal`, line 145) inside the row's Actions cell (line 343). So if the table calls a row's click handler, a Cancel or a backdrop close also bubbles up to it and navigates to `/monitors/{id}`. `CloseModal`'s log does not record that navigation, because the table component that would call the handler is not part of this model.
- Asynchrony is not modelled. `HandleRemove` runs from the click to the awaited result as one step, so in the model nothing can happen to the menu while the delete is pending. In the source the modal stays open during the await, because `isOpen` is cleared only at line 46. So a second click on Delete sends a second delete request for the same id. And a Cancel during the wait, followed by a rejection, leaves the modal closed, which `HandleRemove`'s `modalOpen <==> !fulfilled` does not describe.
- The per-cell ids `idx` to `idx+4` (lines 323-343) are not modelled. They carry no behaviour.
- The two "create monitor" buttons are not modelled beyond the header button's presence in `View`. Both navigate to `/monitors/create`.
- The click handlers carry their UI reachability as preconditions. Menu entries require the menu to be open. The Delete button requires the modal to be open; closing the modal (its own close and Cancel) requires nothing, since clearing `isOpen` is harmless in any state. The settings button requires the modal to be closed, because the modal's backdrop covers the page.
