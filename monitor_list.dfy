/**
 * The pure derivations of the monitor list page: the up/down/paused tally,
 * one table row per monitor, and the choice between the loading skeleton,
 * the empty-state invitation and the populated dashboard.
 */
module MonitorList {
  import opened Wrappers
  import opened MonitorRecord
  import opened Sequences

  /** The number of monitors whose status is `true`, folded from the left as `reduce` does. */
  function UpCount(ms: seq<Monitor>): (n: nat)
    ensures n <= |ms|
  {
    if |ms| == 0 then 0
    else UpCount(ms[..|ms| - 1]) + (if IsUp(ms[|ms| - 1]) then 1 else 0)
  }

  /** Positions of the monitors that are up. */
  ghost function UpIndices(ms: seq<Monitor>): set<int> {
    set i | 0 <= i < |ms| && IsUp(ms[i])
  }

  /** Positions of the monitors that are not up (status `false`, or not a boolean `true`). */
  ghost function DownIndices(ms: seq<Monitor>): set<int> {
    set i | 0 <= i < |ms| && !IsUp(ms[i])
  }

  /** The fold counts exactly the up monitors, and what remains counts exactly the others. */
  lemma {:induction false} UpCountCountsUpMonitors(ms: seq<Monitor>)
    ensures UpCount(ms) == |UpIndices(ms)|
    ensures |ms| - UpCount(ms) == |DownIndices(ms)|
  {
    if |ms| == 0 {
      assert UpIndices(ms) == {};
      assert DownIndices(ms) == {};
    } else {
      var n := |ms| - 1;
      var prefix := ms[..n];
      UpCountCountsUpMonitors(prefix);
      if IsUp(ms[n]) {
        assert UpIndices(ms) == UpIndices(prefix) + {n};
        assert DownIndices(ms) == DownIndices(prefix);
      } else {
        assert UpIndices(ms) == UpIndices(prefix);
        assert DownIndices(ms) == DownIndices(prefix) + {n};
      }
    }
  }

  /** The three figures shown above the table. */
  datatype Counts = Counts(up: nat, down: nat, paused: nat)

  /** Up is the number of up monitors, down the rest, paused always zero. */
  function Tally(ms: seq<Monitor>): (c: Counts)
    ensures c.up == |UpIndices(ms)| && c.down == |DownIndices(ms)|
    ensures c.up + c.down == |ms|
    ensures c.paused == 0
    ensures ms == [] ==> c == Counts(0, 0, 0)
  {
    UpCountCountsUpMonitors(ms);
    var up := UpCount(ms);
    Counts(up, |ms| - up, 0)
  }

  const UpColour: string := "var(--env-var-color-17)"
  const DownColour: string := "var(--env-var-color-19)"

  /**
   * One table row: the host cell (title, percentage and its colour), the
   * status label, the bar chart's checks, the type cell, the monitor handed
   * to the row's action menu, and the path the row's click handler navigates to.
   */
  datatype Row = Row(
    id: string,
    title: string,
    percentage: nat,
    percentageColor: string,
    status: string,
    checks: seq<Check>,
    monitorType: string,
    actionsMonitor: Monitor,
    clickPath: string)

  function ToRow(m: Monitor): (r: Row) {
    Row(
      m.id,
      m.name,
      100,
      if IsUp(m) then UpColour else DownColour,
      if IsUp(m) then "up" else "down",
      Reversed(m.checks),
      m.monitorType,
      m,
      DetailsPath(m.id))
  }

  /**
   * A row shows its monitor: id and title copied, percentage fixed at 100,
   * label "up" exactly for an up monitor and "down" otherwise, colour chosen
   * by that same label, and the chart's checks latest-first, which reversed
   * once more are the monitor's checks unchanged.
   */
  lemma RowShowsMonitor(m: Monitor)
    ensures ToRow(m).id == m.id && ToRow(m).title == m.name
    ensures ToRow(m).percentage == 100
    ensures ToRow(m).status == "up" <==> IsUp(m)
    ensures ToRow(m).status == "down" <==> !IsUp(m)
    ensures ToRow(m).percentageColor == UpColour <==> ToRow(m).status == "up"
    ensures ToRow(m).percentageColor == DownColour <==> ToRow(m).status == "down"
    ensures Reversed(ToRow(m).checks) == m.checks
    ensures |ToRow(m).checks| == |m.checks|
    ensures ToRow(m).clickPath == DetailsPath(m.id)
  {
    ReversedTwice(m.checks);
  }

  /** One row per monitor, in the order the monitors were fetched. */
  function Rows(ms: seq<Monitor>): (rs: seq<Row>)
    ensures |rs| == |ms|
    ensures forall i :: 0 <= i < |ms| ==> rs[i] == ToRow(ms[i])
  {
    if |ms| == 0 then []
    else Rows(ms[..|ms| - 1]) + [ToRow(ms[|ms| - 1])]
  }

  /** Row `i` carries the id of monitor `i`, so ids keep the fetch order. */
  lemma RowIdsInFetchOrder(ms: seq<Monitor>)
    ensures |Rows(ms)| == |ms|
    ensures forall i :: 0 <= i < |ms| ==> Rows(ms)[i].id == ms[i].id && Rows(ms)[i].clickPath == DetailsPath(ms[i].id)
  {
  }

  /** What the body of a page that is not loading holds. */
  datatype Content = EmptyState | Dashboard(counts: Counts, total: nat, rows: seq<Row>)

  /** The page: the loading skeleton, or the greeting header (with or without a create button) over a content. */
  datatype Layout = Skeleton | Page(createButton: bool, content: Content)

  /**
   * The skeleton shows exactly while loading with nothing fetched yet; a page
   * with no monitors shows the empty-state invitation and never the table; any
   * fetched monitor puts the counts and the table on the page, even during a
   * reload; the header offers "Create monitor" only above a non-empty list.
   */
  function View(isLoading: bool, ms: seq<Monitor>): (v: Layout)
    ensures v.Skeleton? <==> isLoading && |ms| == 0
    ensures v.Page? && v.content.EmptyState? <==> !isLoading && |ms| == 0
    ensures v.Page? && v.content.Dashboard? <==> |ms| != 0
    ensures v.Page? ==> (v.createButton <==> |ms| != 0)
    ensures v.Page? && v.content.Dashboard? ==> v.content.counts == Tally(ms) && v.content.rows == Rows(ms)
    ensures v.Page? && v.content.Dashboard? ==>
      && v.content.counts.up + v.content.counts.down == v.content.total == |ms|
      && v.content.counts.paused == 0
      && |v.content.rows| == |ms|
  {
    var loading := isLoading && |ms| == 0;
    if loading then Skeleton
    else Page(|ms| != 0, if |ms| == 0 then EmptyState else Dashboard(Tally(ms), |ms|, Rows(ms)))
  }
}
