/**
 * The `NeoChart` component: it turns the fetched Near-Earth-Object records
 * into rows, lists the bodies they orbit, filters the rows by the body chosen
 * in the dropdown and shows them as a bar chart or a table.
 */
module Chart {
  import opened Wrappers
  import opened Strings
  import opened Arrays
  import Filter

  /** One close-approach event of a record; `orbiting_body` may be missing. */
  datatype CloseApproach = CloseApproach(orbitingBody: Option<string>)

  /** A fetched record, reduced to the fields the component reads. */
  datatype Neo = Neo(name: string, diameterMinKm: real, diameterMaxKm: real, closeApproaches: seq<CloseApproach>)

  /** A diameter column holds a number in data rows and a caption in header rows. */
  datatype Cell = Number(km: real) | Text(caption: string)

  /** A four-column row: name, min diameter, max diameter, orbit. */
  datatype Row = Row(name: string, minDiameter: Cell, maxDiameter: Cell, orbit: string)

  /** A row handed to the bar chart: the first three columns. */
  datatype ChartRow = ChartRow(name: string, minDiameter: Cell, maxDiameter: Cell)

  /** What the fetch delivers: the records, or a failure of any kind. */
  datatype Fetch = Fetched(neos: seq<Neo>) | NetworkError

  datatype View = GraphView | TableView

  datatype Panel = BarChart(chartRows: seq<ChartRow>, height: string) | Table(tableRows: seq<Row>)

  /** What the component renders. */
  datatype Screen =
    | Loading
    | ErrorMessage(message: string)
    | Ready(bodies: seq<string>, filterLabel: string, allHighlighted: bool, panel: Panel)

  const Unknown := "Unknown"
  const LoadError := "Unable to load the data."
  const Header := Row("Name", Text("Min Diameter"), Text("Max Diameter"), "Orbit")
  const ChartHeader := ChartRow("Name", Text("Min Diameter"), Text("Max Diameter"))

  /** The body of the first close approach, unless there is none or it is
      missing or empty, in which case "Unknown". */
  function OrbitLabel(approaches: seq<CloseApproach>): (body: string)
    ensures body != ""
    ensures body == Unknown || (|approaches| > 0 && approaches[0].orbitingBody == Some(body))
    ensures |approaches| > 0 && approaches[0].orbitingBody.Some? && approaches[0].orbitingBody.value != ""
      ==> body == approaches[0].orbitingBody.value
  {
    if |approaches| > 0 && approaches[0].orbitingBody.Some? && approaches[0].orbitingBody.value != ""
    then approaches[0].orbitingBody.value
    else Unknown
  }

  function ToRow(neo: Neo): Row
  {
    Row(neo.name, Number(neo.diameterMinKm), Number(neo.diameterMaxKm), OrbitLabel(neo.closeApproaches))
  }

  /** The rows built from the fetched records (`chartData`). */
  function ToRows(neos: seq<Neo>): seq<Row>
  {
    MapSeq(neos, ToRow)
  }

  /** One row per record, in the same order, carrying that record's name and
      diameters unchanged and its orbit label. */
  lemma ToRowsAt(neos: seq<Neo>, i: int)
    requires 0 <= i < |neos|
    ensures |ToRows(neos)| == |neos|
    ensures ToRows(neos)[i].name == neos[i].name
    ensures ToRows(neos)[i].minDiameter == Number(neos[i].diameterMinKm)
    ensures ToRows(neos)[i].maxDiameter == Number(neos[i].diameterMaxKm)
    ensures ToRows(neos)[i].orbit == OrbitLabel(neos[i].closeApproaches)
  {
    MapSeqAt(neos, ToRow, i);
  }

  lemma ToRowsLength(neos: seq<Neo>)
    ensures |ToRows(neos)| == |neos|
  {
    MapSeqLength(neos, ToRow);
  }

  function Orbits(rows: seq<Row>): seq<string>
  {
    MapSeq(rows, (row: Row) => row.orbit)
  }

  /** The distinct orbit labels of the rows, sorted. */
  function OrbitalBodies(rows: seq<Row>): seq<string>
  {
    SortStrings(Dedupe(Orbits(rows)))
  }

  lemma OrbitsMembers(rows: seq<Row>)
    ensures forall b :: b in Orbits(rows) <==> exists i :: 0 <= i < |rows| && rows[i].orbit == b
  {
    MapSeqLength(rows, (row: Row) => row.orbit);
    forall i | 0 <= i < |rows|
      ensures Orbits(rows)[i] == rows[i].orbit
    {
      MapSeqAt(rows, (row: Row) => row.orbit, i);
    }
  }

  /** The body list is strictly ascending and holds exactly the rows' orbits. */
  lemma OrbitalBodiesSpec(rows: seq<Row>)
    ensures Ascending(OrbitalBodies(rows))
    ensures forall b :: b in OrbitalBodies(rows) <==> exists i :: 0 <= i < |rows| && rows[i].orbit == b
  {
    var distinct := Dedupe(Orbits(rows));
    SortStringsAscending(distinct);
    SortStringsContents(distinct);
    OrbitsMembers(rows);
    forall b
      ensures b in OrbitalBodies(rows) <==> b in distinct
    {
      assert b in OrbitalBodies(rows) <==> b in multiset(OrbitalBodies(rows));
      assert b in distinct <==> b in multiset(distinct);
    }
  }

  /** Any strictly ascending list of exactly the rows' orbits is the body
      list: it does not depend on how the sort is carried out. */
  lemma OrbitalBodiesUnique(rows: seq<Row>, listed: seq<string>)
    requires Ascending(listed)
    requires forall b :: b in listed <==> exists i :: 0 <= i < |rows| && rows[i].orbit == b
    ensures listed == OrbitalBodies(rows)
  {
    OrbitalBodiesSpec(rows);
    AscendingUnique(listed, OrbitalBodies(rows));
  }

  /** Rows built from records never carry an empty orbit. */
  lemma ToRowsOrbits(neos: seq<Neo>)
    ensures forall i :: 0 <= i < |ToRows(neos)| ==> ToRows(neos)[i].orbit != ""
  {
    ToRowsLength(neos);
    forall i | 0 <= i < |ToRows(neos)|
      ensures ToRows(neos)[i].orbit != ""
    {
      ToRowsAt(neos, i);
    }
  }

  /** The stored table: the header row, then the rows. */
  function WithHeader(rows: seq<Row>): seq<Row>
  {
    [Header] + rows
  }

  /** The selection effect: the rows whose orbit is the selected body, or
      `data` itself when nothing is selected. */
  function SelectRows(data: seq<Row>, selected: string): seq<Row>
  {
    if selected != "" then KeepIf(data, (row: Row) => row.orbit == selected) else data
  }

  /** A selection keeps, in order and with their multiplicity, exactly the
      rows whose orbit equals the selected body. */
  lemma SelectRowsMatching(data: seq<Row>, selected: string)
    requires selected != ""
    ensures forall row :: row in SelectRows(data, selected) <==> row in data && row.orbit == selected
    ensures forall row ::
      multiset(SelectRows(data, selected))[row] == (if row.orbit == selected then multiset(data)[row] else 0)
    ensures IsSubsequence(SelectRows(data, selected), data)
  {
    var p := (row: Row) => row.orbit == selected;
    KeepIfMembers(data, p);
    KeepIfSubsequence(data, p);
    forall row
      ensures multiset(SelectRows(data, selected))[row] == if row.orbit == selected then multiset(data)[row] else 0
    {
      KeepIfCounts(data, p, row);
    }
  }

  /** Re-running the effect on its own output changes nothing. */
  lemma SelectRowsIdempotent(data: seq<Row>, selected: string)
    ensures SelectRows(SelectRows(data, selected), selected) == SelectRows(data, selected)
  {
    if selected != "" {
      KeepIfIdempotent(data, (row: Row) => row.orbit == selected);
    }
  }

  /** A selection drops the header row, unless a body is literally named "Orbit". */
  lemma SelectionDropsHeader(rows: seq<Row>, selected: string)
    requires selected != "" && selected != Header.orbit
    ensures SelectRows(WithHeader(rows), selected) == SelectRows(rows, selected)
  {
  }

  function Project(row: Row): ChartRow
  {
    ChartRow(row.name, row.minDiameter, row.maxDiameter)
  }

  /** The chart's data: its own three-column header, then the first three
      columns of every filtered row. */
  function ChartRows(filtered: seq<Row>): seq<ChartRow>
  {
    [ChartHeader] + MapSeq(filtered, Project)
  }

  lemma ChartRowsAt(filtered: seq<Row>, i: int)
    requires 0 <= i < |filtered|
    ensures |ChartRows(filtered)| == |filtered| + 1 && ChartRows(filtered)[0] == ChartHeader
    ensures ChartRows(filtered)[i + 1].name == filtered[i].name
    ensures ChartRows(filtered)[i + 1].minDiameter == filtered[i].minDiameter
    ensures ChartRows(filtered)[i + 1].maxDiameter == filtered[i].maxDiameter
  {
    MapSeqAt(filtered, Project, i);
  }

  lemma ChartRowsLength(filtered: seq<Row>)
    ensures |ChartRows(filtered)| == |filtered| + 1
  {
    MapSeqLength(filtered, Project);
  }

  /** With no selection the stored header row stays among the rows shown: the
      table lists it as a row and the chart gets its captions a second time. */
  lemma EmptySelectionKeepsHeader(rows: seq<Row>)
    ensures SelectRows(WithHeader(rows), "") == WithHeader(rows)
    ensures SelectRows(WithHeader(rows), "")[0] == Header
    ensures ChartRows(SelectRows(WithHeader(rows), ""))[..2] == [ChartHeader, ChartHeader]
  {
  }

  /** Every listed body is a real selection that leaves at least one row. */
  lemma ListedBodyHasRows(rows: seq<Row>, body: string)
    requires forall i :: 0 <= i < |rows| ==> rows[i].orbit != ""
    requires body in OrbitalBodies(rows)
    ensures body != "" && SelectRows(WithHeader(rows), body) != []
  {
    OrbitalBodiesSpec(rows);
    var i :| 0 <= i < |rows| && rows[i].orbit == body;
    SelectRowsMatching(WithHeader(rows), body);
    assert rows[i] in WithHeader(rows);
  }

  /** Selecting a listed body in a stored table shows exactly its rows, and some. */
  lemma SelectListedBody(data: seq<Row>, body: string)
    requires data != [] && data[0] == Header
    requires forall i :: 1 <= i < |data| ==> data[i].orbit != ""
    requires body in OrbitalBodies(data[1..])
    ensures SelectRows(data, body) != []
    ensures forall row :: row in SelectRows(data, body) <==> row in data && row.orbit == body
  {
    assert data == WithHeader(data[1..]);
    ListedBodyHasRows(data[1..], body);
    SelectRowsMatching(data, body);
  }

  function ChartHeight(selected: string): (height: string)
    ensures height == "600px" || height == "400px"
    ensures height == "600px" <==> selected == ""
  {
    if selected == "" then "600px" else "400px"
  }

  class NeoChart {
    var data: seq<Row>
    var filteredData: seq<Row>
    var loading: bool
    var error: Option<string>
    var orbitalBodies: seq<string>
    var selectedBody: string
    var view: View

    /** Before the fetch returns nothing is stored; a failed fetch leaves only
        the message; a successful one stores the header, the rows and their
        bodies; the rows shown are always stored rows, in stored order. */
    ghost predicate Valid()
      reads this
    {
      && (loading ==> data == [] && filteredData == [] && error == None)
      && (error.Some? ==> error.value == LoadError && data == [])
      && (data == [] ==> orbitalBodies == [])
      && (data != [] ==> data[0] == Header && orbitalBodies == OrbitalBodies(data[1..]))
      && (forall i :: 1 <= i < |data| ==> data[i].orbit != "")
      && IsSubsequence(filteredData, data)
    }

    constructor ()
      ensures Valid()
      ensures data == [] && filteredData == [] && loading && error == None
      ensures orbitalBodies == [] && selectedBody == "" && view == GraphView
    {
      data := [];
      filteredData := [];
      loading := true;
      error := None;
      orbitalBodies := [];
      selectedBody := "";
      view := GraphView;
    }

    /** Completion of the fetch started on mount (`getData`). */
    method Load(fetch: Fetch)
      requires Valid() && loading
      modifies this
      ensures Valid() && !loading
      ensures selectedBody == old(selectedBody) && view == old(view)
      ensures fetch.Fetched? ==>
        && error == None
        && data == WithHeader(ToRows(fetch.neos))
        && filteredData == ToRows(fetch.neos)
        && orbitalBodies == OrbitalBodies(ToRows(fetch.neos))
      ensures fetch.NetworkError? ==>
        error == Some(LoadError) && data == [] && filteredData == [] && orbitalBodies == []
    {
      match fetch {
        case Fetched(neos) =>
          var chartData := ToRows(neos);
          var bodies := OrbitalBodies(chartData);
          data := WithHeader(chartData);
          filteredData := chartData;
          orbitalBodies := bodies;
          assert data[1..] == chartData;
          SubsequenceReflexive(chartData);
          ToRowsOrbits(neos);
        case NetworkError =>
          error := Some(LoadError);
      }
      loading := false;
    }

    /** The effect that runs whenever `selectedBody` or `data` changes. */
    method ApplySelection()
      requires Valid()
      modifies this`filteredData
      ensures Valid()
      ensures filteredData == SelectRows(data, selectedBody)
    {
      if selectedBody != "" {
        SelectRowsMatching(data, selectedBody);
      } else {
        SubsequenceReflexive(data);
      }
      filteredData := SelectRows(data, selectedBody);
    }

    /** The `onFilterChange` callback handed to the dropdown. */
    method SetSelectedBody(body: string)
      requires Valid()
      modifies this`selectedBody
      ensures Valid() && selectedBody == body
    {
      selectedBody := body;
    }

    /** The "Graph View" button. */
    method ShowGraph()
      requires Valid()
      modifies this`view
      ensures Valid() && view == GraphView
    {
      view := GraphView;
    }

    /** The "Table View" button. */
    method ShowTable()
      requires Valid()
      modifies this`view
      ensures Valid() && view == TableView
    {
      view := TableView;
    }

    /** The rendered output. The dropdown is given no `selectedOrbit`, so its
        button always reads "All" and "All" is always the highlighted entry. */
    function Render(): (screen: Screen)
      reads this
      requires Valid()
      ensures screen.Loading? <==> loading
      ensures screen.ErrorMessage? ==> screen.message == LoadError && data == []
      ensures screen.Ready? ==> !loading && error == None && screen.bodies == orbitalBodies
      ensures screen.Ready? ==> screen.filterLabel == "Orbiting Body (All)"
      ensures screen.Ready? ==> screen.allHighlighted == Filter.AllHighlighted(None) && screen.allHighlighted
      ensures screen.Ready? ==> (screen.panel.BarChart? <==> view == GraphView)
      ensures screen.Ready? && screen.panel.BarChart? ==>
        |screen.panel.chartRows| == |filteredData| + 1 && (screen.panel.height == "600px" <==> selectedBody == "")
      ensures screen.Ready? && screen.panel.Table? ==> screen.panel.tableRows == filteredData
    {
      ChartRowsLength(filteredData);
      if loading then Loading
      else if error.Some? then ErrorMessage(error.value)
      else
        var panel := if view == GraphView then BarChart(ChartRows(filteredData), ChartHeight(selectedBody))
                     else Table(filteredData);
        Ready(orbitalBodies, Filter.Label(None), Filter.AllHighlighted(None), panel)
    }
  }

  /** Mounting the component: the first render's effects, the fetch, and the
      selection effect running again because `data` changed. */
  method Mount(fetch: Fetch) returns (c: NeoChart)
    ensures c.Valid() && !c.loading && c.selectedBody == "" && c.view == GraphView
    ensures fetch.Fetched? ==> c.data == WithHeader(ToRows(fetch.neos)) && c.filteredData == c.data
    ensures fetch.Fetched? ==> c.orbitalBodies == OrbitalBodies(ToRows(fetch.neos))
    ensures fetch.NetworkError? ==> c.Render() == ErrorMessage(LoadError) && c.data == [] && c.filteredData == []
  {
    c := new NeoChart();
    c.ApplySelection();
    c.Load(fetch);
    if fetch.Fetched? {
      c.ApplySelection();
    }
  }

  /** Picking a listed body in the dropdown: the dropdown closes, the body is
      selected and the rows shown are exactly the stored rows that orbit it,
      of which there is at least one. */
  method ChooseBody(c: NeoChart, d: Filter.FilterDropdown, body: string)
    requires c.Valid() && !c.loading
    requires d.isDropdownOpen && body in d.FilteredBodies(c.orbitalBodies)
    modifies c, d
    ensures c.Valid() && !d.isDropdownOpen && c.selectedBody == body
    ensures c.data == old(c.data) && c.orbitalBodies == old(c.orbitalBodies) && c.view == old(c.view)
    ensures c.loading == old(c.loading) && c.error == old(c.error) && d.searchTerm == old(d.searchTerm)
    ensures c.filteredData == SelectRows(c.data, body) && c.filteredData != []
    ensures forall row :: row in c.filteredData <==> row in c.data && row.orbit == body
  {
    assert body in c.orbitalBodies;
    SelectListedBody(c.data, body);
    var reported := d.ChooseBody(c.orbitalBodies, body);
    c.SetSelectedBody(reported);
    c.ApplySelection();
  }

  /** Picking "All": the dropdown closes and every stored row is shown again,
      the header row included. */
  method ChooseAll(c: NeoChart, d: Filter.FilterDropdown)
    requires c.Valid() && !c.loading && d.isDropdownOpen
    modifies c, d
    ensures c.Valid() && !d.isDropdownOpen && c.selectedBody == ""
    ensures c.data == old(c.data) && c.orbitalBodies == old(c.orbitalBodies) && c.view == old(c.view)
    ensures c.loading == old(c.loading) && c.error == old(c.error) && d.searchTerm == old(d.searchTerm)
    ensures c.filteredData == c.data
  {
    var reported := d.ChooseAll();
    c.SetSelectedBody(reported);
    c.ApplySelection();
  }

  /** The two-record example: an Earth-orbiting and a Mars-orbiting object. */
  lemma EarthMarsExample()
    ensures
      var neos := [Neo("A", 0.1, 0.3, [CloseApproach(Some("Earth"))]),
                   Neo("B", 0.5, 0.9, [CloseApproach(Some("Mars"))])];
      var rows := ToRows(neos);
      && rows == [Row("A", Number(0.1), Number(0.3), "Earth"), Row("B", Number(0.5), Number(0.9), "Mars")]
      && OrbitalBodies(rows) == ["Earth", "Mars"]
      && SelectRows(WithHeader(rows), "Mars") == [rows[1]]
  {
    var neos := [Neo("A", 0.1, 0.3, [CloseApproach(Some("Earth"))]),
                 Neo("B", 0.5, 0.9, [CloseApproach(Some("Mars"))])];
    var rows := ToRows(neos);
    assert neos[1..] == [neos[1]] && neos[1..][1..] == [];
    assert rows == [ToRow(neos[0]), ToRow(neos[1])];
    assert rows == [Row("A", Number(0.1), Number(0.3), "Earth"), Row("B", Number(0.5), Number(0.9), "Mars")];
    assert Orbits(rows) == ["Earth", "Mars"] by {
      OrbitsMembers(rows);
      MapSeqAt(rows, (row: Row) => row.orbit, 0);
      MapSeqAt(rows, (row: Row) => row.orbit, 1);
    }
    assert Dedupe(["Earth", "Mars"]) == ["Earth", "Mars"] by {
      assert ["Earth", "Mars"][..1] == ["Earth"];
      assert ["Earth"][..0] == [];
    }
    assert Less("Earth", "Mars");
    assert SortStrings(["Earth", "Mars"]) == ["Earth", "Mars"] by {
      assert ["Earth", "Mars"][1..] == ["Mars"];
      assert ["Mars"][1..] == [];
    }
    assert WithHeader(rows)[1..] == rows;
    assert rows[1..] == [rows[1]] && rows[1..][1..] == [];
  }
}
