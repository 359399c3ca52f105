/**
 * The per-row action menu of the monitor list page: the settings button
 * that opens the menu on a monitor, the menu entries, the delete
 * confirmation modal, and the delete workflow behind its Delete button.
 */
module ActionsMenuState {
  import opened Wrappers
  import opened MonitorRecord

  /**
   * The `actions` state cell: the monitor the menu was last opened on.
   * Before the first opening it is the empty object, whose id and url are
   * both `undefined`.
   */
  datatype Target = Target(id: Option<string>, url: JsUrl)

  const NoTarget: Target := Target(None, Undefined)

  /** What the menu asks of the world outside the page, in the order it asks. */
  datatype Effect =
    | DeleteRequest(authToken: string, monitorId: string)
    | ReloadRequest(authToken: string)
    | Toast(body: string)
    | Navigate(path: string)
    | OpenWindow(url: JsUrl)

  const DeleteSucceeded: string := "Monitor deleted successfully."
  const DeleteFailed: string := "Failed to delete monitor."

  /** The url the settings button hands to the menu: none for a ping monitor, the monitor's own url otherwise. */
  function MenuUrl(m: Monitor): (u: JsUrl)
    ensures m.monitorType == "ping" ==> u == Null
    ensures m.monitorType != "ping" ==> u == m.url
    ensures u == Null <==> m.monitorType == "ping" || m.url == Null
  {
    if m.monitorType == "ping" then Null else m.url
  }

  /** The "Open site" entry is rendered when the target url is anything but `null`. */
  predicate OpenSiteShown(t: Target) {
    t.url != Null
  }

  /** A menu opened on a ping monitor never offers "Open site"; any other monitor offers it unless its url is `null`. */
  lemma OpenSiteOfferedFor(m: Monitor)
    ensures OpenSiteShown(Target(Some(m.id), MenuUrl(m))) <==> m.monitorType != "ping" && m.url != Null
    ensures m.monitorType == "ping" ==> !OpenSiteShown(Target(Some(m.id), MenuUrl(m)))
  {
  }

  /** The number of reload requests in an effect log. */
  function Reloads(log: seq<Effect>): (n: nat)
    ensures n <= |log|
  {
    if |log| == 0 then 0
    else Reloads(log[..|log| - 1]) + (if log[|log| - 1].ReloadRequest? then 1 else 0)
  }

  /** The number of delete requests in an effect log. */
  function Deletes(log: seq<Effect>): (n: nat)
    ensures n <= |log|
  {
    if |log| == 0 then 0
    else Deletes(log[..|log| - 1]) + (if log[|log| - 1].DeleteRequest? then 1 else 0)
  }

  /** Counting requests in two stretches of the log adds up. */
  lemma {:induction false} CountsAppend(a: seq<Effect>, b: seq<Effect>)
    ensures Reloads(a + b) == Reloads(a) + Reloads(b)
    ensures Deletes(a + b) == Deletes(a) + Deletes(b)
  {
    if |b| > 0 {
      var n := |b| - 1;
      CountsAppend(a, b[..n]);
      assert (a + b)[..|a + b| - 1] == a + b[..n];
    } else {
      assert a + b == a;
    }
  }

  /**
   * The effects of confirming a delete of monitor `id`: the delete request
   * first; then, once the store reports it fulfilled, one reload of the list
   * and the success toast, otherwise only the failure toast.
   */
  function RemoveEffects(authToken: string, id: string, fulfilled: bool): (effects: seq<Effect>) {
    [DeleteRequest(authToken, id)]
      + (if fulfilled then [ReloadRequest(authToken), Toast(DeleteSucceeded)] else [Toast(DeleteFailed)])
  }

  /**
   * A delete issues exactly one delete request, for the given id, before anything
   * else; it reloads the list exactly once when fulfilled and never otherwise; and
   * the success toast appears exactly when the delete was fulfilled, the failure
   * toast exactly when it was not.
   */
  lemma RemoveReportsOutcome(authToken: string, id: string, fulfilled: bool)
    ensures RemoveEffects(authToken, id, fulfilled)[0] == DeleteRequest(authToken, id)
    ensures Deletes(RemoveEffects(authToken, id, fulfilled)) == 1
    ensures Reloads(RemoveEffects(authToken, id, fulfilled)) == if fulfilled then 1 else 0
    ensures forall e :: e in RemoveEffects(authToken, id, fulfilled) && e.ReloadRequest? ==> e.authToken == authToken
    ensures Toast(DeleteSucceeded) in RemoveEffects(authToken, id, fulfilled) <==> fulfilled
    ensures Toast(DeleteFailed) in RemoveEffects(authToken, id, fulfilled) <==> !fulfilled
  {
    var request := [DeleteRequest(authToken, id)];
    var outcome := if fulfilled then [ReloadRequest(authToken), Toast(DeleteSucceeded)] else [Toast(DeleteFailed)];
    CountsAppend(request, outcome);
    assert request[..0] == [];
    if fulfilled {
      assert outcome[..1] == [ReloadRequest(authToken)];
      assert outcome[..1][..0] == [];
    } else {
      assert outcome[..0] == [];
    }
  }

  /**
   * The state of one row's action menu. `menuOpen` stands for the menu's
   * anchor element being set, `target` for the `actions` cell, `modalOpen`
   * for the confirmation modal, and `log` records every effect issued so far.
   */
  class ActionsMenu {
    var menuOpen: bool
    var target: Target
    var modalOpen: bool
    var log: seq<Effect>

    /** The menu and the modal are never open together, and either is open only once a target is set. */
    predicate Valid()
      reads this
    {
      && !(menuOpen && modalOpen)
      && (menuOpen || modalOpen ==> target.id.Some?)
    }

    /** A row mounts with the menu closed, the modal closed and the empty target. */
    constructor ()
      ensures Valid()
      ensures !menuOpen && !modalOpen && target == NoTarget && log == []
    {
      menuOpen := false;
      target := NoTarget;
      modalOpen := false;
      log := [];
    }

    /** Opens the menu on (`id`, `url`), replacing the whole previous target. */
    method OpenMenu(id: string, url: JsUrl)
      requires Valid() && !modalOpen
      modifies this
      ensures Valid()
      ensures menuOpen && target == Target(Some(id), url)
      ensures modalOpen == old(modalOpen) && log == old(log)
    {
      menuOpen := true;
      target := Target(Some(id), url);
    }

    /** The settings button of the row showing `m`: opens the menu on its id and its menu url. */
    method ClickSettings(m: Monitor)
      requires Valid() && !modalOpen
      modifies this
      ensures Valid()
      ensures menuOpen && target == Target(Some(m.id), MenuUrl(m))
      ensures target.url == Null <==> m.monitorType == "ping" || m.url == Null
      ensures modalOpen == old(modalOpen) && log == old(log)
    {
      OpenMenu(m.id, MenuUrl(m));
    }

    /** Clears the anchor only: the target stays as it was. */
    method CloseMenu()
      requires Valid()
      modifies this
      ensures Valid()
      ensures !menuOpen
      ensures target == old(target) && modalOpen == old(modalOpen) && log == old(log)
    {
      menuOpen := false;
    }

    /** The "Remove" entry: closes the menu, then opens the confirmation modal on the same target. */
    method OpenRemove()
      requires Valid() && menuOpen
      modifies this
      ensures Valid()
      ensures !menuOpen && modalOpen
      ensures target == old(target) && log == old(log)
    {
      CloseMenu();
      modalOpen := true;
    }

    /** The modal's own close and its Cancel button: closes the modal and issues nothing. */
    method CloseModal()
      requires Valid()
      modifies this
      ensures Valid()
      ensures !modalOpen
      ensures menuOpen == old(menuOpen) && target == old(target) && log == old(log)
    {
      modalOpen := false;
    }

    /** The "Open site" entry, rendered only for a non-null url: closes the menu and opens the target url. */
    method ChooseOpenSite()
      requires Valid() && menuOpen && OpenSiteShown(target)
      modifies this
      ensures Valid()
      ensures !menuOpen
      ensures target == old(target) && modalOpen == old(modalOpen)
      ensures log == old(log) + [OpenWindow(target.url)]
    {
      CloseMenu();
      log := log + [OpenWindow(target.url)];
    }

    /** The "Details" entry: navigates to the target's details view and leaves the menu as it is. */
    method ChooseDetails()
      requires Valid() && menuOpen
      modifies this
      ensures Valid()
      ensures menuOpen == old(menuOpen) && target == old(target) && modalOpen == old(modalOpen)
      ensures log == old(log) + [Navigate(DetailsPath(target.id.value))]
    {
      log := log + [Navigate(DetailsPath(target.id.value))];
    }

    /** The "Configure" entry: navigates to the target's configuration view and leaves the menu as it is. */
    method ChooseConfigure()
      requires Valid() && menuOpen
      modifies this
      ensures Valid()
      ensures menuOpen == old(menuOpen) && target == old(target) && modalOpen == old(modalOpen)
      ensures log == old(log) + [Navigate(ConfigurePath(target.id.value))]
    {
      log := log + [Navigate(ConfigurePath(target.id.value))];
    }

    /**
     * The modal's Delete button. It deletes the id the menu was last opened on
     * and receives whether the store reports the request fulfilled. Fulfilled:
     * the modal closes, the list is reloaded once with the auth token, and the
     * success toast shows. Otherwise the modal stays open, nothing is reloaded,
     * and the failure toast shows.
     */
    method HandleRemove(authToken: string, fulfilled: bool)
      requires Valid() && modalOpen
      modifies this
      ensures Valid()
      ensures log == old(log) + RemoveEffects(authToken, old(target.id.value), fulfilled)
      ensures Reloads(log) == Reloads(old(log)) + (if fulfilled then 1 else 0)
      ensures Deletes(log) == Deletes(old(log)) + 1
      ensures modalOpen <==> !fulfilled
      ensures menuOpen == old(menuOpen) && target == old(target)
    {
      var id := target.id.value;
      log := log + [DeleteRequest(authToken, id)];
      if fulfilled {
        modalOpen := false;
        log := log + [ReloadRequest(authToken)];
        log := log + [Toast(DeleteSucceeded)];
      } else {
        log := log + [Toast(DeleteFailed)];
      }
      assert log == old(log) + RemoveEffects(authToken, id, fulfilled);
      CountsAppend(old(log), RemoveEffects(authToken, id, fulfilled));
      RemoveReportsOutcome(authToken, id, fulfilled);
    }
  }
}
