/**
 * The monitor record as the monitor list page receives it from the store,
 * and the routes the page navigates to.
 */
module MonitorRecord {
  import opened Wrappers

  /**
   * A JavaScript url-valued field. `null` and `undefined` are different
   * values to the page: the "Open site" entry is hidden only for `null`.
   */
  datatype JsUrl = Null | Undefined | Url(text: string)

  /** One historical probe result. The page only reorders checks, it never looks inside one. */
  datatype Check = Check(record: string)

  /**
   * A monitor as fetched for the current team. `status` is the raw field:
   * only the boolean `true` means up, so an absent status (None) or `false` is down.
   */
  datatype Monitor = Monitor(
    id: string,
    name: string,
    url: JsUrl,
    monitorType: string,
    status: Option<bool>,
    checks: seq<Check>)

  /** The test `monitor.status === true`. */
  predicate IsUp(m: Monitor) {
    m.status == Some(true)
  }

  const DetailsPrefix: string := "/monitors/"
  const ConfigurePrefix: string := "/monitors/configure/"
  const CreatePath: string := "/monitors/create"

  /** The details view of monitor `id`. */
  function DetailsPath(id: string): (path: string) {
    DetailsPrefix + id
  }

  /** The configuration view of monitor `id`. */
  function ConfigurePath(id: string): (path: string) {
    ConfigurePrefix + id
  }

  /** The monitor id can be read back from a details path: two details paths are equal only for equal ids. */
  lemma DetailsPathInjective(a: string, b: string)
    ensures DetailsPath(a) == DetailsPath(b) <==> a == b
  {
    if DetailsPath(a) == DetailsPath(b) {
      assert a == DetailsPath(a)[|DetailsPrefix|..];
      assert b == DetailsPath(b)[|DetailsPrefix|..];
    }
  }

  /** The monitor id can be read back from a configuration path in the same way. */
  lemma ConfigurePathInjective(a: string, b: string)
    ensures ConfigurePath(a) == ConfigurePath(b) <==> a == b
  {
    if ConfigurePath(a) == ConfigurePath(b) {
      assert a == ConfigurePath(a)[|ConfigurePrefix|..];
      assert b == ConfigurePath(b)[|ConfigurePrefix|..];
    }
  }

  /**
   * The route families overlap: an id "create" gives the details path that is
   * the creation page, and an id "configure/x" gives the configuration path of
   * monitor "x". Injectivity holds within one family only.
   */
  lemma RouteFamiliesOverlap(x: string)
    ensures DetailsPath("create") == CreatePath
    ensures DetailsPath("configure/" + x) == ConfigurePath(x)
  {
  }
}
