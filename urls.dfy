/**
 * The front end's builders of links to cards, dashboards, pulses and table queries. Every ID
 * is taken as the text JavaScript's string concatenation gives it.
 */
module Urls {
  import opened Wrappers
  import opened Text

  const CardPrefix: string := "/card/"
  const CardSuffix: string := "?clone"
  const DashboardPrefix: string := "/dash/"
  const PulsePrefix: string := "/pulse/#"
  const TableQueryPrefix: string := "/q/?db="
  const TableQueryInfix: string := "&table="

  /** The link of an ephemeral (cloned) card, not of the editable card. */
  function Card(cardID: string): (r: string)
    ensures |r| == |CardPrefix| + |cardID| + |CardSuffix|
    ensures HasPrefix(r, CardPrefix) && r[|CardPrefix|..|r| - |CardSuffix|] == cardID && r[|r| - |CardSuffix|..] == CardSuffix
  {
    CardPrefix + cardID + CardSuffix
  }

  function Dashboard(dashboardID: string): (r: string)
    ensures HasPrefix(r, DashboardPrefix) && r[|DashboardPrefix|..] == dashboardID
  {
    DashboardPrefix + dashboardID
  }

  function Pulse(pulseID: string): (r: string)
    ensures HasPrefix(r, PulsePrefix) && r[|PulsePrefix|..] == pulseID
  {
    PulsePrefix + pulseID
  }

  /** The link of a model by its name; null (None) for any model other than the three. */
  function ModelToUrl(model: string, modelID: string): (r: Option<string>)
    ensures r.None? <==> model != "card" && model != "dashboard" && model != "pulse"
    ensures model == "card" ==> r == Some(Card(modelID))
    ensures model == "dashboard" ==> r == Some(Dashboard(modelID))
    ensures model == "pulse" ==> r == Some(Pulse(modelID))
  {
    match model
    case "card" => Some(Card(modelID))
    case "dashboard" => Some(Dashboard(modelID))
    case "pulse" => Some(Pulse(modelID))
    case _ => None
  }

  /** The ad-hoc query link that opens a table's rows. */
  function TableRowsQuery(databaseID: string, tableID: string): (r: string)
    ensures |r| == |TableQueryPrefix| + |databaseID| + |TableQueryInfix| + |tableID|
    ensures HasPrefix(r, TableQueryPrefix)
    ensures r[|TableQueryPrefix|..|TableQueryPrefix| + |databaseID|] == databaseID
    ensures r[|TableQueryPrefix| + |databaseID|..|TableQueryPrefix| + |databaseID| + |TableQueryInfix|] == TableQueryInfix
    ensures r[|TableQueryPrefix| + |databaseID| + |TableQueryInfix|..] == tableID
  {
    TableQueryPrefix + databaseID + TableQueryInfix + tableID
  }

  /** The ID between a prefix and a suffix, when the link has both. */
  function Between(url: string, prefix: string, suffix: string): (r: Option<string>)
    ensures r.Some? ==> prefix + r.value + suffix == url
  {
    if |prefix| + |suffix| <= |url| && url[..|prefix|] == prefix && url[|url| - |suffix|..] == suffix then
      Some(url[|prefix|..|url| - |suffix|])
    else None
  }

  lemma BetweenOfConcat(prefix: string, id: string, suffix: string)
    ensures Between(prefix + id + suffix, prefix, suffix) == Some(id)
  {
    var url := prefix + id + suffix;
    assert url[..|prefix|] == prefix;
    assert url[|url| - |suffix|..] == suffix;
    assert url[|prefix|..|url| - |suffix|] == id;
  }

  /** The card ID a card link names. */
  function CardIDOf(url: string): Option<string> {
    Between(url, CardPrefix, CardSuffix)
  }

  function DashboardIDOf(url: string): Option<string> {
    Between(url, DashboardPrefix, "")
  }

  function PulseIDOf(url: string): Option<string> {
    Between(url, PulsePrefix, "")
  }

  /** Each builder is inverted by its reader, and a link its reader accepts is built from what it reads. */
  lemma LinksRoundTrip(id: string, url: string)
    ensures CardIDOf(Card(id)) == Some(id) && DashboardIDOf(Dashboard(id)) == Some(id) && PulseIDOf(Pulse(id)) == Some(id)
    ensures CardIDOf(url).Some? ==> Card(CardIDOf(url).value) == url
    ensures DashboardIDOf(url).Some? ==> Dashboard(DashboardIDOf(url).value) == url
    ensures PulseIDOf(url).Some? ==> Pulse(PulseIDOf(url).value) == url
  {
    BetweenOfConcat(CardPrefix, id, CardSuffix);
    BetweenOfConcat(DashboardPrefix, id, "");
    assert Dashboard(id) == DashboardPrefix + id + "";
    BetweenOfConcat(PulsePrefix, id, "");
    assert Pulse(id) == PulsePrefix + id + "";
    if DashboardIDOf(url).Some? {
      assert DashboardPrefix + DashboardIDOf(url).value + "" == url;
    }
    if PulseIDOf(url).Some? {
      assert PulsePrefix + PulseIDOf(url).value + "" == url;
    }
  }

  /** A card, a dashboard and a pulse link are never the same link. */
  lemma KindsNeverCollide(a: string, b: string, c: string)
    ensures Card(a) != Dashboard(b) && Dashboard(b) != Pulse(c) && Card(a) != Pulse(c)
  {
    assert Card(a)[1] == 'c' && Dashboard(b)[1] == 'd' && Pulse(c)[1] == 'p';
  }

  /** Without a "&" in the database ID, the query link determines both IDs. */
  lemma TableRowsQueryInjective(db1: string, table1: string, db2: string, table2: string)
    requires !Contains(db1, '&') && !Contains(db2, '&')
    requires TableRowsQuery(db1, table1) == TableRowsQuery(db2, table2)
    ensures db1 == db2 && table1 == table2
  {
    var u := TableRowsQuery(db1, table1);
    var p := |TableQueryPrefix|;
    assert u == TableQueryPrefix + db1 + TableQueryInfix + table1;
    assert u == TableQueryPrefix + db2 + TableQueryInfix + table2;
    assert u[p + |db1|] == '&' && u[p + |db2|] == '&';
    assert db1 == u[p..p + |db1|] == db2;
    assert table1 == u[p + |db1| + |TableQueryInfix|..] == table2;
  }

  /** The IDs are not escaped: a database ID holding "&table=" can pass for another pair. */
  lemma TableRowsQueryUnescaped()
    ensures TableRowsQuery("1&table=2", "3") == TableRowsQuery("1", "2&table=3")
  {
  }
}
