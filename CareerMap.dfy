/**
 * The career-map page (src/pages/CareerMap.tsx): a fixed table of stages,
 * two fixed routes through them, a start stage chosen from the student's
 * age, and the page state (`routeType`, `activeNode`) that three buttons
 * change: advance along the active route, jump to a stage, switch route.
 */
module CareerMap {
  import opened Wrappers
  import opened JsText

  /** A stage of the map (its coordinates and icon are presentation only). */
  datatype Node = Node(id: string, name: string)

  const Nodes: seq<Node> := [
    Node("start", "Start"),
    Node("school", "School (10–12)"),
    Node("exam", "Entrance Exams"),
    Node("govt", "Govt / Top College"),
    Node("private", "Private College"),
    Node("learn", "Skill Learning"),
    Node("cert", "Certifications"),
    Node("job", "Job (Software Engineer)")
  ]

  datatype RouteType = Best | Alternate

  /** `ROUTES[routeType]`. */
  function Stages(t: RouteType): (r: seq<string>)
  {
    match t
    case Best => ["start", "school", "exam", "govt", "learn", "cert", "job"]
    case Alternate => ["start", "school", "exam", "private", "learn", "cert", "job"]
  }

  /** The first node of `ns` with the given id, if any. */
  function FindNode(ns: seq<Node>, id: string): (r: Option<Node>)
    ensures r.Some? ==> r.value in ns && r.value.id == id
    ensures r.None? ==> forall i :: 0 <= i < |ns| ==> ns[i].id != id
  {
    if ns == [] then None
    else if ns[0].id == id then Some(ns[0])
    else FindNode(ns[1..], id)
  }

  /** The ids of the node table, in table order. */
  function NodeIds(): (r: seq<string>)
    ensures |r| == |Nodes|
    ensures forall i :: 0 <= i < |Nodes| ==> r[i] == Nodes[i].id
  {
    seq(|Nodes|, i requires 0 <= i < |Nodes| => Nodes[i].id)
  }

  lemma NodeIdsListed()
    ensures NodeIds() == ["start", "school", "exam", "govt", "private", "learn", "cert", "job"]
  {
  }

  predicate IsNodeId(id: string)
  {
    id in NodeIds()
  }

  /** `nodeById(id)`, with the missing case made explicit instead of asserted away. */
  function NodeById(id: string): (r: Option<Node>)
    ensures r.Some? <==> IsNodeId(id)
    ensures r.Some? ==> r.value in Nodes && r.value.id == id
  {
    FindNode(Nodes, id)
  }

  /**
   * Both routes have seven stages ending at "job", repeat no stage, and
   * name only stages of the node table, so `nodeById` never fails on a
   * route stage.
   */
  lemma RoutesWellFormed(t: RouteType)
    ensures |Stages(t)| == 7 && Stages(t)[6] == "job"
    ensures NoDuplicates(Stages(t))
    ensures forall i :: 0 <= i < |Stages(t)| ==> IsNodeId(Stages(t)[i])
  {
    NodeIdsListed();
  }

  /** `Number(profile.age || 15)`: a missing or empty age reads as 15. */
  function AgeOrDefault(age: Option<int>): (r: int)
    ensures age.None? ==> r == 15
    ensures age.Some? ==> r == age.value
  {
    match age
    case None => 15
    case Some(a) => a
  }

  /** `getStartNodeByAge()`: the stage the page opens on. */
  function StartNodeByAge(age: int): (r: string)
    ensures r == "school" <==> age < 17
    ensures r == "exam" <==> 17 <= age <= 20
    ensures r == "learn" <==> age > 20
  {
    if age < 17 then "school"
    else if age <= 20 then "exam"
    else "learn"
  }

  /** The start stage is a stage of the node table and of both routes. */
  lemma StartNodeOnBothRoutes(age: int)
    ensures IsNodeId(StartNodeByAge(age))
    ensures StartNodeByAge(age) in Stages(Best) && StartNodeByAge(age) in Stages(Alternate)
  {
    NodeIdsListed();
    var r := StartNodeByAge(age);
    assert r == "school" || r == "exam" || r == "learn";
    assert Stages(Best)[1] == "school" && Stages(Best)[2] == "exam" && Stages(Best)[4] == "learn";
    assert Stages(Alternate)[1] == "school" && Stages(Alternate)[2] == "exam" && Stages(Alternate)[4] == "learn";
  }

  /** Without a stored age the page opens on "school". */
  lemma MissingAgeStartsAtSchool()
    ensures StartNodeByAge(AgeOrDefault(None)) == "school"
  {
  }

  /**
   * `moveNext`'s new active stage, on an arbitrary list of stage ids: the
   * stage after the first occurrence of `node`, or `node` itself when it is
   * the last stage or absent.
   */
  function AdvanceIn(route: seq<string>, node: string): (r: string)
  {
    if |route| < 2 then node
    else if route[0] == node then route[1]
    else AdvanceIn(route[1..], node)
  }

  /** `AdvanceIn` agrees with the page's lookup through `indexOf`. */
  lemma {:induction false} AdvanceInByIndex(route: seq<string>, node: string)
    ensures var index := IndexOf(route, node);
            AdvanceIn(route, node) == if index == -1 || index == |route| - 1 then node else route[index + 1]
  {
    if |route| >= 2 && route[0] != node {
      AdvanceInByIndex(route[1..], node);
    }
  }

  /** Advancing either stays put or lands on a stage of the route. */
  lemma {:induction false} AdvanceInStaysOnRoute(route: seq<string>, node: string)
    ensures AdvanceIn(route, node) == node || AdvanceIn(route, node) in route
  {
    if |route| >= 2 && route[0] != node {
      AdvanceInStaysOnRoute(route[1..], node);
    }
  }

  /** `moveNext`'s new active stage on route `t`. */
  function Advance(t: RouteType, node: string): (r: string)
  {
    AdvanceIn(Stages(t), node)
  }

  /**
   * On a route without repeated stages, advancing moves to the stage after
   * `node`; nothing moves when `node` is the last stage or is not on the route.
   */
  lemma AdvanceInSpec(route: seq<string>, node: string)
    requires NoDuplicates(route)
    ensures node !in route ==> AdvanceIn(route, node) == node
    ensures |route| > 0 && node == route[|route| - 1] ==> AdvanceIn(route, node) == node
    ensures forall i :: 0 <= i < |route| - 1 && route[i] == node ==> AdvanceIn(route, node) == route[i + 1]
  {
    AdvanceInByIndex(route, node);
    forall i | 0 <= i < |route| && route[i] == node
      ensures IndexOf(route, node) == i
    {
      IndexOfDistinct(route, i);
    }
  }

  /** The same statement for the two routes of the page. */
  lemma AdvanceSpec(t: RouteType, node: string)
    ensures node !in Stages(t) ==> Advance(t, node) == node
    ensures node == Stages(t)[|Stages(t)| - 1] ==> Advance(t, node) == node
    ensures forall i :: 0 <= i < |Stages(t)| - 1 && Stages(t)[i] == node ==> Advance(t, node) == Stages(t)[i + 1]
  {
    RoutesWellFormed(t);
    AdvanceInSpec(Stages(t), node);
  }

  /** `setRouteType(routeType === "best" ? "alternate" : "best")`. */
  function Flip(t: RouteType): (r: RouteType)
    ensures r != t
  {
    if t == Best then Alternate else Best
  }

  /** The page state. */
  datatype MapState = MapState(routeType: RouteType, activeNode: string)

  /** What the user can do on the page: the two buttons and a click on a stage. */
  datatype Event = Next | Select(id: string) | Toggle

  /** A click can only land on a stage of the node table. */
  predicate PossibleEvent(e: Event)
  {
    e.Select? ==> IsNodeId(e.id)
  }

  function InitialState(age: int): (s: MapState)
  {
    MapState(Best, StartNodeByAge(age))
  }

  function Step(s: MapState, e: Event): (r: MapState)
  {
    match e
    case Next => s.(activeNode := Advance(s.routeType, s.activeNode))
    case Select(id) => s.(activeNode := id)
    case Toggle => s.(routeType := Flip(s.routeType))
  }

  function Run(s: MapState, es: seq<Event>): (r: MapState)
    decreases |es|
  {
    if es == [] then s else Run(Step(s, es[0]), es[1..])
  }

  /** The active stage is always a stage of the node table, so its label can be shown. */
  predicate Invariant(s: MapState)
  {
    IsNodeId(s.activeNode)
  }

  lemma InitialStateValid(age: int)
    ensures Invariant(InitialState(age))
  {
    StartNodeOnBothRoutes(age);
  }

  /** Each event keeps the invariant. */
  lemma StepKeepsInvariant(s: MapState, e: Event)
    requires Invariant(s) && PossibleEvent(e)
    ensures Invariant(Step(s, e))
  {
    if e.Next? {
      RoutesWellFormed(s.routeType);
      AdvanceInStaysOnRoute(Stages(s.routeType), s.activeNode);
    }
  }

  /** Any sequence of events keeps the invariant. */
  lemma {:induction false} RunKeepsInvariant(s: MapState, es: seq<Event>)
    requires Invariant(s)
    requires forall k :: 0 <= k < |es| ==> PossibleEvent(es[k])
    ensures Invariant(Run(s, es))
    decreases |es|
  {
    if es != [] {
      StepKeepsInvariant(s, es[0]);
      RunKeepsInvariant(Step(s, es[0]), es[1..]);
    }
  }

  /** Select jumps to any stage, on the active route or not, and keeps the route. */
  lemma SelectJumpsAnywhere(s: MapState, id: string)
    ensures Step(s, Select(id)) == MapState(s.routeType, id)
  {
  }

  /** Toggle switches the route, keeps the stage, and toggling twice restores the state. */
  lemma ToggleTwiceRestores(s: MapState)
    ensures Step(s, Toggle).routeType != s.routeType
    ensures Step(s, Toggle).activeNode == s.activeNode
    ensures Step(Step(s, Toggle), Toggle) == s
  {
  }

  /** "govt" is not on the alternate route, so advancing from it there does nothing. */
  lemma NextIsNoOpOffRoute()
    ensures Step(MapState(Alternate, "govt"), Next) == MapState(Alternate, "govt")
  {
    assert "govt" !in Stages(Alternate);
    AdvanceSpec(Alternate, "govt");
  }

  /** `n` presses of the advance button. */
  function NextTimes(s: MapState, n: nat): (r: MapState)
    decreases n
  {
    if n == 0 then s else NextTimes(Step(s, Next), n - 1)
  }

  function Min(a: int, b: int): (r: int)
  {
    if a <= b then a else b
  }

  /** The state whose active stage is the one at index `i` of route `t`. */
  function StateAt(t: RouteType, i: nat): (s: MapState)
    requires i < |Stages(t)|
    ensures s.routeType == t && s.activeNode == Stages(t)[i]
  {
    MapState(t, Stages(t)[i])
  }

  /** One advance from the stage at index `i` of the active route reaches index min(i + 1, 6). */
  lemma NextAlongRoute(t: RouteType, i: nat)
    requires i < |Stages(t)|
    ensures Step(StateAt(t, i), Next) == StateAt(t, Min(i + 1, |Stages(t)| - 1))
  {
    AdvanceSpec(t, Stages(t)[i]);
  }

  /** `n` advances along a list of stage ids, starting from `node`. */
  function AdvanceTimes(route: seq<string>, node: string, n: nat): (r: string)
    decreases n
  {
    if n == 0 then node else AdvanceTimes(route, AdvanceIn(route, node), n - 1)
  }

  /** On a route without repeated stages, `k` advances from index `i` reach index min(i + k, last). */
  lemma {:induction false} AdvanceTimesAlong(route: seq<string>, i: nat, k: nat)
    requires NoDuplicates(route) && i < |route|
    ensures AdvanceTimes(route, route[i], k) == route[Min(i + k, |route| - 1)]
    decreases k
  {
    if k > 0 {
      var j := Min(i + 1, |route| - 1);
      AdvanceInSpec(route, route[i]);
      assert AdvanceIn(route, route[i]) == route[j];
      AdvanceTimesAlong(route, j, k - 1);
    }
  }

  /** Pressing the advance button `n` times only moves the active stage, `n` times along the active route. */
  lemma {:induction false} NextTimesIsAdvanceTimes(s: MapState, n: nat)
    ensures NextTimes(s, n) == MapState(s.routeType, AdvanceTimes(Stages(s.routeType), s.activeNode, n))
    decreases n
  {
    if n > 0 {
      var route := Stages(s.routeType);
      var s' := MapState(s.routeType, AdvanceIn(route, s.activeNode));
      assert Step(s, Next) == s';
      NextTimesIsAdvanceTimes(s', n - 1);
    }
  }

  /** From the stage at index `i` of the active route, `k` advances reach index min(i + k, 6). */
  lemma NextTimesAlongRoute(t: RouteType, i: nat, k: nat)
    requires i < |Stages(t)|
    ensures NextTimes(StateAt(t, i), k) == StateAt(t, Min(i + k, |Stages(t)| - 1))
  {
    RoutesWellFormed(t);
    NextTimesIsAdvanceTimes(StateAt(t, i), k);
    AdvanceTimesAlong(Stages(t), i, k);
  }

  /** At "job" the advance button is a fixed point, however often it is pressed. */
  lemma NextAtJobStaysAtJob(t: RouteType, n: nat)
    ensures NextTimes(MapState(t, "job"), n) == MapState(t, "job")
  {
    RoutesWellFormed(t);
    assert StateAt(t, 6) == MapState(t, "job");
    NextTimesAlongRoute(t, 6, n);
  }

  /** From the age-based start stage, on either route, six advances reach "job". */
  lemma StartReachesJobWithinSix(age: int, t: RouteType, n: nat)
    requires n >= 6
    ensures NextTimes(MapState(t, StartNodeByAge(age)), n).activeNode == "job"
  {
    RoutesWellFormed(t);
    StartNodeOnBothRoutes(age);
    var i := IndexOf(Stages(t), StartNodeByAge(age));
    assert StateAt(t, i) == MapState(t, StartNodeByAge(age));
    NextTimesAlongRoute(t, i, n);
  }

  /** The page's state, as React keeps it between renders. */
  class CareerMapPage {
    var routeType: RouteType
    var activeNode: string

    function State(): (s: MapState)
      reads this
    {
      MapState(routeType, activeNode)
    }

    predicate Valid()
      reads this
    {
      Invariant(State())
    }

    /** `useState("best")` and `useState(getStartNodeByAge())`. */
    constructor (age: int)
      ensures State() == InitialState(age)
      ensures Valid()
    {
      routeType := Best;
      activeNode := StartNodeByAge(age);
      new;
      InitialStateValid(age);
    }

    /** The "I completed this stage" button. */
    method MoveNext()
      requires Valid()
      modifies this
      ensures State() == Step(old(State()), Next)
      ensures Valid()
    {
      StepKeepsInvariant(State(), Next);
      AdvanceInByIndex(Stages(routeType), activeNode);
      var route := Stages(routeType);
      var index := IndexOf(route, activeNode);
      if index == -1 || index == |route| - 1 {
        return;
      }
      activeNode := route[index + 1];
    }

    /** A click on a stage of the map. */
    method SelectNode(id: string)
      requires IsNodeId(id)
      modifies this
      ensures State() == Step(old(State()), Select(id))
      ensures Valid()
    {
      activeNode := id;
    }

    /** The "Re-route to another option" button. */
    method ToggleRoute()
      requires Valid()
      modifies this
      ensures State() == Step(old(State()), Toggle)
      ensures Valid()
    {
      routeType := if routeType == Best then Alternate else Best;
    }

    /** `nodeById(activeNode)`, which the info panel shows: it always exists. */
    function ActiveNodeData(): (n: Node)
      reads this
      requires Valid()
      ensures n in Nodes && n.id == activeNode
    {
      NodeById(activeNode).value
    }
  }
}
