/**
 * The landing-page route selector (src/components/sklg/CareerNavigationMap.tsx):
 * it looks up the selected career among the engine's careers, filters the
 * fixed route table down to that career's routes, and keeps the active
 * route, which the route buttons change.
 */
module CareerNavigationMap {
  import opened Wrappers
  import opened FakeEngine

  /** A route of the landing-page map (its SVG path text is presentation only). */
  datatype Route = Route(id: string, name: string, nodes: seq<string>)

  /** The ids of the landing-page graph's nodes (labels, icons and coordinates left out). */
  const MapNodeIds: seq<string> := ["start", "exam", "cert", "intern", "college", "company", "destination"]

  const RouteTable: seq<Route> := [
    Route("route1", "Traditional Academic", ["start", "exam", "college", "destination"]),
    Route("route2", "Certification Path", ["start", "cert", "college", "destination"]),
    Route("route3", "Industry First", ["start", "intern", "company", "destination"]),
    Route("route4", "Hybrid Path", ["start", "cert", "company", "destination"])
  ]

  /** The ids of a route list, in order. */
  function RouteIds(rs: seq<Route>): (r: seq<string>)
    ensures |r| == |rs|
    ensures forall i :: 0 <= i < |rs| ==> r[i] == rs[i].id
  {
    if rs == [] then [] else [rs[0].id] + RouteIds(rs[1..])
  }

  /** The route table lists route1..route4 in that order: exactly `KnownRouteIds`, the set every engine route id is drawn from. */
  lemma RouteTableIds()
    ensures RouteIds(RouteTable) == ["route1", "route2", "route3", "route4"]
    ensures forall id :: id in KnownRouteIds <==> id in RouteIds(RouteTable)
    ensures forall k, m :: 0 <= k < m < |RouteTable| ==> RouteTable[k].id != RouteTable[m].id
  {
  }

  /** Every route runs from "start" to "destination" through nodes of the graph. */
  lemma RouteTableNodes()
    ensures forall k, j :: 0 <= k < |RouteTable| && 0 <= j < |RouteTable[k].nodes| ==> RouteTable[k].nodes[j] in MapNodeIds
    ensures forall k :: 0 <= k < |RouteTable| ==>
      |RouteTable[k].nodes| == 4 && RouteTable[k].nodes[0] == "start" && RouteTable[k].nodes[3] == "destination"
  {
    forall k, j | 0 <= k < |RouteTable| && 0 <= j < |RouteTable[k].nodes|
      ensures RouteTable[k].nodes[j] in MapNodeIds
    {
      assert MapNodeIds[0] == "start" && MapNodeIds[1] == "exam" && MapNodeIds[2] == "cert" && MapNodeIds[3] == "intern";
      assert MapNodeIds[4] == "college" && MapNodeIds[5] == "company" && MapNodeIds[6] == "destination";
    }
  }

  /** `careers.find((c) => c.id === id)`: the first career with that id, if any. */
  function FindCareer(cs: seq<Career>, id: string): (r: Option<Career>)
    ensures r.None? <==> forall i :: 0 <= i < |cs| ==> cs[i].id != id
    ensures r.Some? ==> exists k :: 0 <= k < |cs| && cs[k] == r.value && r.value.id == id
                          && forall j :: 0 <= j < k ==> cs[j].id != id
  {
    if cs == [] then None
    else if cs[0].id == id then Some(cs[0])
    else
      var r := FindCareer(cs[1..], id);
      if r.Some? then
        var k :| 0 <= k < |cs[1..]| && cs[1..][k] == r.value && r.value.id == id
                 && forall j :: 0 <= j < k ==> cs[1..][j].id != id;
        assert cs[k + 1] == r.value;
        r
      else
        r
  }

  /**
   * The career the map is drawn for: the one whose id is the stored
   * `selectedCareer`, or the first career when none matches or nothing is stored.
   */
  function SelectCareer(cs: seq<Career>, selected: Option<string>): (r: Career)
    requires |cs| > 0
    ensures r in cs
    ensures selected.Some? && (exists i :: 0 <= i < |cs| && cs[i].id == selected.value) ==> r.id == selected.value
    ensures selected.None? || (forall i :: 0 <= i < |cs| ==> cs[i].id != selected.value) ==> r == cs[0]
    ensures selected.Some? && FindCareer(cs, selected.value).Some? ==> r == FindCareer(cs, selected.value).value
  {
    match selected
    case None => cs[0]
    case Some(id) =>
      match FindCareer(cs, id)
      case Some(c) => c
      case None => cs[0]
  }

  /** `rs.filter((r) => ids.includes(r.id))`. */
  function FilterRoutes(rs: seq<Route>, ids: seq<string>): (r: seq<Route>)
    ensures |r| <= |rs|
    ensures forall x :: x in r <==> x in rs && x.id in ids
  {
    if rs == [] then []
    else (if rs[0].id in ids then [rs[0]] else []) + FilterRoutes(rs[1..], ids)
  }

  /**
   * Filtering distributes over concatenation, which together with the
   * one-element case says the filter keeps the table's order.
   */
  lemma {:induction false} FilterRoutesAppend(xs: seq<Route>, ys: seq<Route>, ids: seq<string>)
    ensures FilterRoutes(xs + ys, ids) == FilterRoutes(xs, ids) + FilterRoutes(ys, ids)
    decreases |xs|
  {
    if xs == [] {
      assert xs + ys == ys;
    } else {
      assert (xs + ys)[1..] == xs[1..] + ys;
      FilterRoutesAppend(xs[1..], ys, ids);
    }
  }

  lemma FilterRoutesCons(x: Route, rs: seq<Route>, ids: seq<string>)
    ensures FilterRoutes([x] + rs, ids) == (if x.id in ids then [x] else []) + FilterRoutes(rs, ids)
  {
    assert ([x] + rs)[1..] == rs;
  }

  /** `visibleRoutes`: the table routes the career names, in table order. */
  function VisibleRoutes(career: Career): (r: seq<Route>)
    ensures forall x :: x in r <==> x in RouteTable && x.id in career.routes
  {
    FilterRoutes(RouteTable, career.routes)
  }

  /** Table order, not the career's order: data-scientist's [route2, route4, route1] shows as route1, route2, route4. */
  lemma DataScientistRoutesInTableOrder()
    ensures RouteIds(VisibleRoutes(TechnologyCareers[0])) == ["route1", "route2", "route4"]
  {
    var ids := TechnologyCareers[0].routes;
    var t := RouteTable;
    assert t[0].id in ids && t[1].id in ids && t[2].id !in ids && t[3].id in ids by {
      assert ids == ["route2", "route4", "route1"];
      assert t[2].id == "route3";
    }
    assert t == [t[0]] + ([t[1]] + ([t[2]] + ([t[3]] + [])));
    FilterSkipsThird(t[0], t[1], t[2], t[3], ids);
  }

  /** The filter over four routes of which only the third is not named. */
  lemma FilterSkipsThird(a: Route, b: Route, c: Route, d: Route, ids: seq<string>)
    requires a.id in ids && b.id in ids && c.id !in ids && d.id in ids
    ensures FilterRoutes([a] + ([b] + ([c] + ([d] + []))), ids) == [a, b, d]
  {
    FilterRoutesCons(d, [], ids);
    FilterRoutesCons(c, [d] + [], ids);
    FilterRoutesCons(b, [c] + ([d] + []), ids);
    FilterRoutesCons(a, [b] + ([c] + ([d] + [])), ids);
  }

  /** `visibleRoutes[0]?.id`: the route shown first. */
  function InitialActiveRoute(visible: seq<Route>): (r: Option<string>)
    ensures r.None? <==> visible == []
    ensures r.Some? ==> r.value == visible[0].id
  {
    if visible == [] then None else Some(visible[0].id)
  }

  /** A career naming at least one known route has a visible route. */
  lemma KnownRouteIsVisible(career: Career)
    requires |career.routes| > 0 && career.routes[0] in KnownRouteIds
    ensures VisibleRoutes(career) != []
  {
    var id := career.routes[0];
    var t := RouteTable;
    assert t[0].id == "route1" && t[1].id == "route2" && t[2].id == "route3" && t[3].id == "route4";
    var k := if id == "route1" then 0 else if id == "route2" then 1 else if id == "route3" then 2 else 3;
    assert t[k].id == id;
    assert t[k] in VisibleRoutes(career);
  }

  /**
   * Whatever the stored profile and the stored selection, the chosen
   * career has a visible route, so the map opens with an active route.
   */
  lemma EngineCareerHasActiveRoute(stored: Profile, selected: Option<string>)
    ensures var career := SelectCareer(FakeCareerEngine(stored).careers, selected);
      VisibleRoutes(career) != [] && InitialActiveRoute(VisibleRoutes(career)).Some?
  {
    var cs := FakeCareerEngine(stored).careers;
    assert WellFormedList(cs);
    var career := SelectCareer(cs, selected);
    var i :| 0 <= i < |cs| && cs[i] == career;
    assert career.routes[0] in KnownRouteIds;
    KnownRouteIsVisible(career);
  }

  /** `visibleRoutes.find((r) => r.id === activeRoute)`. */
  function ActiveRouteData(visible: seq<Route>, active: Option<string>): (r: Option<Route>)
    ensures r.Some? ==> r.value in visible && active == Some(r.value.id)
    ensures r.None? ==> active.None? || forall i :: 0 <= i < |visible| ==> visible[i].id != active.value
  {
    if visible == [] || active.None? then None
    else if visible[0].id == active.value then Some(visible[0])
    else ActiveRouteData(visible[1..], active)
  }

  /** `activeRouteData?.nodes.includes(node.id)`: the node is drawn highlighted. */
  predicate IsOnActiveRoute(visible: seq<Route>, active: Option<string>, nodeId: string)
  {
    match ActiveRouteData(visible, active)
    case None => false
    case Some(r) => nodeId in r.nodes
  }

  /** The routes drawn dashed: the visible routes other than the active one. */
  function InactiveRoutes(visible: seq<Route>, active: Option<string>): (r: seq<Route>)
    ensures |r| <= |visible|
    ensures forall x :: x in r <==> x in visible && active != Some(x.id)
  {
    if visible == [] then []
    else (if active != Some(visible[0].id) then [visible[0]] else []) + InactiveRoutes(visible[1..], active)
  }

  /** No two routes share an id. */
  predicate DistinctIds(rs: seq<Route>)
  {
    forall k, m :: 0 <= k < m < |rs| ==> rs[k].id != rs[m].id
  }

  lemma VisibleRoutesDistinct(career: Career)
    ensures DistinctIds(VisibleRoutes(career))
  {
    RouteTableIds();
    FilterDistinct(RouteTable, career.routes);
  }

  lemma {:induction false} FilterDistinct(rs: seq<Route>, ids: seq<string>)
    requires DistinctIds(rs)
    ensures DistinctIds(FilterRoutes(rs, ids))
    decreases |rs|
  {
    if rs != [] {
      FilterDistinct(rs[1..], ids);
      var tail := FilterRoutes(rs[1..], ids);
      forall x | x in tail ensures x.id != rs[0].id {
        var m :| 0 <= m < |rs[1..]| && rs[1..][m] == x;
        assert rs[m + 1] == x;
      }
    }
  }

  /**
   * Among routes with distinct ids, a node is highlighted exactly when it
   * lies on the visible route whose id is the active one.
   */
  lemma HighlightedIffOnActiveRoute(visible: seq<Route>, active: Option<string>, nodeId: string)
    requires DistinctIds(visible)
    ensures IsOnActiveRoute(visible, active, nodeId)
        <==> exists k :: 0 <= k < |visible| && Some(visible[k].id) == active && nodeId in visible[k].nodes
  {
    var d := ActiveRouteData(visible, active);
    if k :| 0 <= k < |visible| && Some(visible[k].id) == active && nodeId in visible[k].nodes {
      var m :| 0 <= m < |visible| && visible[m] == d.value;
      assert m == k;
    }
  }

  /** The landing-page map's state: the career and its routes are fixed, the active route changes. */
  class RouteSelector {
    const career: Career
    const visibleRoutes: seq<Route>
    var activeRoute: Option<string>

    /** The active route, when there is one, is a visible route. */
    predicate Valid()
      reads this
    {
      && visibleRoutes == VisibleRoutes(career)
      && (activeRoute.None? <==> visibleRoutes == [])
      && (activeRoute.Some? ==> exists k :: 0 <= k < |visibleRoutes| && visibleRoutes[k].id == activeRoute.value)
    }

    constructor (careers: seq<Career>, selected: Option<string>)
      requires |careers| > 0
      ensures career == SelectCareer(careers, selected)
      ensures visibleRoutes == VisibleRoutes(career)
      ensures activeRoute == InitialActiveRoute(visibleRoutes)
      ensures Valid()
    {
      career := SelectCareer(careers, selected);
      visibleRoutes := VisibleRoutes(SelectCareer(careers, selected));
      activeRoute := InitialActiveRoute(VisibleRoutes(SelectCareer(careers, selected)));
    }

    /** A click on the button of the `k`-th visible route. */
    method ClickRoute(k: nat)
      requires Valid()
      requires k < |visibleRoutes|
      modifies this
      ensures activeRoute == Some(visibleRoutes[k].id)
      ensures Valid()
    {
      activeRoute := Some(visibleRoutes[k].id);
    }

    /** The route drawn solid: it exists whenever the state is valid and a route is visible. */
    function ActiveRoute(): (r: Option<Route>)
      reads this
      requires Valid()
      ensures r.Some? <==> visibleRoutes != []
      ensures r.Some? ==> r.value in visibleRoutes && activeRoute == Some(r.value.id)
    {
      ActiveRouteData(visibleRoutes, activeRoute)
    }
  }
}
