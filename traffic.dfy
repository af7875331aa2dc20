/** The agents of server/traffic/agent.py: the traffic-light timer, the rule
    that decides whether a car may enter a cell, the breadth-first route
    search of a car, its move, and the removal of cars that reach their
    destination. The mesa `MultiGrid` (bounded, not a torus) is a map from
    cells to the agents in them, each agent represented by the attributes
    these rules read. */
module Traffic {
  import opened Common

  datatype Pos = Pos(x: int, y: int)

  /** A road's `direction`; any other text is `NoDirection`. */
  datatype Direction = Right | Left | Up | Down | NoDirection

  /** What a cell of the grid can hold. A car names the id of its
      destination; a light carries its `state` (true is green). */
  datatype Agent =
    | CarAgent(car: nat, goal: Option<nat>)
    | LightAgent(light: nat, green: bool)
    | DestinationAgent(dest: nat)
    | RoadAgent(road: nat, direction: Direction)
    | ObstacleAgent(obstacle: nat)

  /** A destination: its id and the cell it stands on. */
  datatype Dest = Dest(id: nat, pos: Pos)

  /** The grid as the rules see it at one instant. */
  datatype Snapshot = Snapshot(width: nat, height: nat, cells: map<Pos, seq<Agent>>)

  /** `grid.get_cell_list_contents(p)`. */
  function Contents(g: Snapshot, p: Pos): seq<Agent>
  {
    if p in g.cells then g.cells[p] else []
  }

  // ------------------------------------------------------ Traffic_Light.step

  datatype LightState = LightState(state: bool, timer: int, timeToChange: int)

  /** One `step`: the timer counts up; on reaching `timeToChange` the light
      switches and the timer restarts. */
  function Tick(l: LightState): LightState
  {
    if l.timer + 1 >= l.timeToChange then LightState(!l.state, 0, l.timeToChange)
    else LightState(l.state, l.timer + 1, l.timeToChange)
  }

  function Run(l: LightState, n: nat): LightState
  {
    if n == 0 then l else Tick(Run(l, n - 1))
  }

  lemma DivModNext(n: nat, m: nat)
    requires m >= 1
    ensures n % m + 1 == m ==> (n + 1) % m == 0 && (n + 1) / m == n / m + 1
    ensures n % m + 1 < m ==> (n + 1) % m == n % m + 1 && (n + 1) / m == n / m
  {
    var q, r := n / m, n % m;
    assert n == m * q + r;
    if r + 1 == m {
      assert n + 1 == m * (q + 1);
      DivModUnique(n + 1, m, q + 1, 0);
    } else {
      assert n + 1 == m * q + (r + 1);
      DivModUnique(n + 1, m, q, r + 1);
    }
  }

  lemma DivModUnique(a: nat, m: nat, q: int, r: int)
    requires m >= 1 && 0 <= r < m && a == m * q + r
    ensures a / m == q && a % m == r
  {
    var q', r' := a / m, a % m;
    assert a == m * q' + r';
    assert m * (q - q') == r' - r;
    if q > q' {
      MulAtLeast(m, q - q');
    } else if q < q' {
      MulAtLeast(m, q' - q);
    }
  }

  lemma {:induction false} MulAtLeast(m: nat, d: nat)
    requires d >= 1
    ensures m * d >= m
  {
    if d > 1 {
      MulAtLeast(m, d - 1);
      assert m * d == m * (d - 1) + m;
    }
  }

  /** From timer 0, after `n` steps the timer is `n % timeToChange` and the
      light has switched once per completed period. */
  lemma {:induction false} RunFromZero(state: bool, timeToChange: int, n: nat)
    requires timeToChange >= 1
    ensures Run(LightState(state, 0, timeToChange), n) ==
      LightState(if (n / timeToChange) % 2 == 0 then state else !state, n % timeToChange, timeToChange)
  {
    if n > 0 {
      RunFromZero(state, timeToChange, n - 1);
      DivModNext(n - 1, timeToChange);
    }
  }

  /** From timer 0 the timer stays in `[0, timeToChange)`. */
  lemma TimerInRange(state: bool, timeToChange: int, n: nat)
    requires timeToChange >= 1
    ensures 0 <= Run(LightState(state, 0, timeToChange), n).timer < timeToChange
  {
    RunFromZero(state, timeToChange, n);
  }

  /** The light switches at step `n + 1` exactly when `n + 1` completes a period. */
  lemma SwitchesExactlyEachPeriod(state: bool, timeToChange: int, n: nat)
    requires timeToChange >= 1
    ensures Run(LightState(state, 0, timeToChange), n + 1).state != Run(LightState(state, 0, timeToChange), n).state
      <==> (n + 1) % timeToChange == 0
  {
    RunFromZero(state, timeToChange, n);
    RunFromZero(state, timeToChange, n + 1);
    DivModNext(n, timeToChange);
  }

  /** A light on the grid. */
  class TrafficLight {
    var state: bool
    var timeToChange: int
    var timer: int

    constructor(state: bool, timeToChange: int)
      ensures this.state == state && this.timeToChange == timeToChange && timer == 0
    {
      this.state := state;
      this.timeToChange := timeToChange;
      timer := 0;
    }

    function Current(): LightState
      reads this
    {
      LightState(state, timer, timeToChange)
    }

    /** `Traffic_Light.step`. */
    method Step()
      modifies this
      ensures Current() == Tick(old(Current()))
    {
      timer := timer + 1;
      if timer >= timeToChange {
        state := !state;
        timer := 0;
      }
    }
  }

  // ---------------------------------------------------------- is_valid_move

  predicate HasDestination(cs: seq<Agent>)
  {
    exists i :: 0 <= i < |cs| && cs[i].DestinationAgent?
  }

  predicate HasRoad(cs: seq<Agent>)
  {
    exists i :: 0 <= i < |cs| && cs[i].RoadAgent?
  }

  predicate HasLight(cs: seq<Agent>)
  {
    exists i :: 0 <= i < |cs| && cs[i].LightAgent?
  }

  predicate HasCar(cs: seq<Agent>)
  {
    exists i :: 0 <= i < |cs| && cs[i].CarAgent?
  }

  /** The direction of the first road in the cell. */
  function FirstRoadDirection(cs: seq<Agent>): (d: Option<Direction>)
    ensures d.Some? <==> HasRoad(cs)
  {
    if |cs| == 0 then None
    else if cs[0].RoadAgent? then Some(cs[0].direction)
    else
      var d := FirstRoadDirection(cs[1..]);
      assert HasRoad(cs[1..]) ==> HasRoad(cs);
      assert HasRoad(cs) ==> HasRoad(cs[1..]) by {
        if HasRoad(cs) {
          var i :| 0 <= i < |cs| && cs[i].RoadAgent?;
          assert cs[1..][i - 1] == cs[i];
        }
      }
      d
  }

  /** Whether a road pointing `d` lets a car go from `cur` to `next`. */
  predicate DirectionAllows(d: Direction, cur: Pos, next: Pos)
  {
    match d
    case Right => next.x > cur.x
    case Left => next.x < cur.x
    case Up => next.y > cur.y
    case Down => next.y < cur.y
    case NoDirection => false
  }

  /** `is_valid_move(current_pos, next_pos)` for a car heading to `dest`,
      given what `next_pos` holds. */
  predicate IsValidMove(cs: seq<Agent>, dest: Option<Dest>, cur: Pos, next: Pos)
  {
    if HasDestination(cs) then dest.Some? && DestinationAgent(dest.value.id) in cs
    else if !HasRoad(cs) && !HasLight(cs) then false
    else if HasRoad(cs) && DirectionAllows(FirstRoadDirection(cs).value, cur, next) then true
    else HasLight(cs)
  }

  /** The move rule, case by case: a cell with a destination admits only the
      car heading there; otherwise a cell with neither road nor light admits
      nothing, a cell with a light admits any move, and a road cell without a
      light admits only moves along the direction of its first road. */
  lemma ValidMoveCases(cs: seq<Agent>, dest: Option<Dest>, cur: Pos, next: Pos)
    ensures HasDestination(cs) ==>
      (IsValidMove(cs, dest, cur, next) <==> dest.Some? && DestinationAgent(dest.value.id) in cs)
    ensures !HasDestination(cs) && !HasRoad(cs) && !HasLight(cs) ==> !IsValidMove(cs, dest, cur, next)
    ensures !HasDestination(cs) && HasLight(cs) ==> IsValidMove(cs, dest, cur, next)
    ensures !HasDestination(cs) && !HasLight(cs) && HasRoad(cs) ==>
      (IsValidMove(cs, dest, cur, next) <==> DirectionAllows(FirstRoadDirection(cs).value, cur, next))
  {
  }

  /** A road admits exactly one kind of step: right by increasing x, left by
      decreasing x, up by increasing y, down by decreasing y. */
  lemma RoadDirections(cs: seq<Agent>, dest: Option<Dest>, cur: Pos, next: Pos)
    requires !HasDestination(cs) && !HasLight(cs) && |cs| > 0 && cs[0].RoadAgent?
    ensures cs[0].direction == Right ==> (IsValidMove(cs, dest, cur, next) <==> next.x > cur.x)
    ensures cs[0].direction == Left ==> (IsValidMove(cs, dest, cur, next) <==> next.x < cur.x)
    ensures cs[0].direction == Up ==> (IsValidMove(cs, dest, cur, next) <==> next.y > cur.y)
    ensures cs[0].direction == Down ==> (IsValidMove(cs, dest, cur, next) <==> next.y < cur.y)
    ensures cs[0].direction == NoDirection ==> !IsValidMove(cs, dest, cur, next)
  {
    assert HasRoad(cs);
  }

  // --------------------------------------------------------------- bfs

  predicate InGrid(g: Snapshot, p: Pos)
  {
    0 <= p.x < g.width && 0 <= p.y < g.height
  }

  /** Moore neighbours: the eight cells around `u`. */
  predicate Adjacent(u: Pos, v: Pos)
  {
    -1 <= v.x - u.x <= 1 && -1 <= v.y - u.y <= 1 && u != v
  }

  function InGridOnly(g: Snapshot, ps: seq<Pos>): (r: seq<Pos>)
    ensures forall v :: v in r <==> v in ps && InGrid(g, v)
  {
    if |ps| == 0 then []
    else (if InGrid(g, ps[0]) then [ps[0]] else []) + InGridOnly(g, ps[1..])
  }

  /** `grid.get_neighborhood(p, moore=True, include_center=False)` on a grid
      that is not a torus: the Moore neighbours inside the grid, x-offset
      major. */
  function Neighbourhood(g: Snapshot, p: Pos): (ns: seq<Pos>)
    ensures forall v :: v in ns <==> InGrid(g, v) && Adjacent(p, v)
  {
    var x, y := p.x, p.y;
    var around := [Pos(x - 1, y - 1), Pos(x - 1, y), Pos(x - 1, y + 1), Pos(x, y - 1),
                   Pos(x, y + 1), Pos(x + 1, y - 1), Pos(x + 1, y), Pos(x + 1, y + 1)];
    assert forall v :: Adjacent(p, v) ==> v in around by {
      forall v | Adjacent(p, v)
        ensures v in around
      {
        if v.x == x - 1 {
          assert v == around[0] || v == around[1] || v == around[2];
        } else if v.x == x {
          assert v == around[3] || v == around[4];
        } else {
          assert v == around[5] || v == around[6] || v == around[7];
        }
      }
    }
    InGridOnly(g, around)
  }

  /** One step the search may take from `u` to `v`: a neighbour in the grid
      the move rule admits and no car occupies. */
  predicate Edge(g: Snapshot, dest: Option<Dest>, u: Pos, v: Pos)
  {
    InGrid(g, v) && Adjacent(u, v) && IsValidMove(Contents(g, v), dest, u, v) && !HasCar(Contents(g, v))
  }

  ghost predicate IsWalk(g: Snapshot, dest: Option<Dest>, q: seq<Pos>)
  {
    |q| >= 1 && forall i :: 0 <= i < |q| - 1 ==> Edge(g, dest, q[i], q[i + 1])
  }

  ghost predicate WalkFromTo(g: Snapshot, dest: Option<Dest>, q: seq<Pos>, a: Pos, b: Pos)
  {
    IsWalk(g, dest, q) && q[0] == a && q[|q| - 1] == b
  }

  ghost predicate Distinct(q: seq<Pos>)
  {
    forall i, j :: 0 <= i < j < |q| ==> q[i] != q[j]
  }

  /** A route from `a` to `b` of no repeated cell than which no route is shorter. */
  ghost predicate Shortest(g: Snapshot, dest: Option<Dest>, q: seq<Pos>, a: Pos, b: Pos)
  {
    WalkFromTo(g, dest, q, a, b) && Distinct(q) &&
    forall q' :: WalkFromTo(g, dest, q', a, b) ==> |q| <= |q'|
  }

  ghost predicate Unreachable(g: Snapshot, dest: Option<Dest>, a: Pos, b: Pos)
  {
    forall q :: !WalkFromTo(g, dest, q, a, b)
  }

  /** A queue entry: a cell and the route that reached it. */
  type Entry = (Pos, seq<Pos>)

  function QueueSet(queue: seq<Entry>): set<Pos>
  {
    set i | 0 <= i < |queue| :: queue[i].0
  }

  /** Every recorded route is a route without repeats from the start to its
      cell, through recorded cells only. */
  ghost predicate Recorded(g: Snapshot, dest: Option<Dest>, start: Pos, paths: map<Pos, seq<Pos>>)
  {
    forall v :: v in paths ==>
      WalkFromTo(g, dest, paths[v], start, v) && Distinct(paths[v]) &&
      forall i :: 0 <= i < |paths[v]| ==> paths[v][i] in paths
  }

  ghost predicate QueueRecorded(queue: seq<Entry>, paths: map<Pos, seq<Pos>>)
  {
    forall i :: 0 <= i < |queue| ==> queue[i].0 in paths && queue[i].1 == paths[queue[i].0]
  }

  /** Route lengths along the queue never decrease and span at most one. */
  ghost predicate Sorted(queue: seq<Entry>)
  {
    forall i, j :: 0 <= i <= j < |queue| ==> |queue[i].1| <= |queue[j].1| <= |queue[i].1| + 1
  }

  ghost predicate ProcessedBelow(queue: seq<Entry>, paths: map<Pos, seq<Pos>>, processed: set<Pos>)
  {
    |queue| > 0 ==> forall u :: u in processed && u in paths ==> |paths[u]| <= |queue[0].1|
  }

  /** Every step out of a processed cell leads to a recorded cell at most one
      longer. */
  ghost predicate Closed(g: Snapshot, dest: Option<Dest>, paths: map<Pos, seq<Pos>>, processed: set<Pos>)
  {
    forall u, v :: u in processed && Edge(g, dest, u, v) ==>
      u in paths && v in paths && |paths[v]| <= |paths[u]| + 1
  }

  /** Along a walk from the start, a cell reached within the first `L` cells
      is recorded with a route no longer than the walk so far, when every
      cell not yet processed has a route of at least `L` cells. */
  lemma {:induction false} WalkBound(g: Snapshot, dest: Option<Dest>, start: Pos, paths: map<Pos, seq<Pos>>,
                                     processed: set<Pos>, L: nat, q: seq<Pos>, i: nat)
    requires start in paths && |paths[start]| == 1
    requires forall v :: v in paths && v !in processed ==> |paths[v]| >= L
    requires Closed(g, dest, paths, processed)
    requires IsWalk(g, dest, q) && q[0] == start
    requires i < |q| && i + 1 <= L
    ensures q[i] in paths && |paths[q[i]]| <= i + 1
  {
    if i > 0 {
      WalkBound(g, dest, start, paths, processed, L, q, i - 1);
      assert Edge(g, dest, q[i - 1], q[i]);
    }
  }

  /** When every recorded cell is processed, every walk from the start stays
      on recorded cells. */
  lemma {:induction false} ReachAll(g: Snapshot, dest: Option<Dest>, start: Pos, paths: map<Pos, seq<Pos>>,
                                    processed: set<Pos>, q: seq<Pos>, i: nat)
    requires start in paths && paths.Keys <= processed
    requires Closed(g, dest, paths, processed)
    requires IsWalk(g, dest, q) && q[0] == start && i < |q|
    ensures q[i] in paths
  {
    if i > 0 {
      ReachAll(g, dest, start, paths, processed, q, i - 1);
      assert Edge(g, dest, q[i - 1], q[i]);
    }
  }

  lemma QueuedAtLeastFront(queue: seq<Entry>, paths: map<Pos, seq<Pos>>, processed: set<Pos>)
    requires |queue| > 0 && paths.Keys == processed + QueueSet(queue)
    requires QueueRecorded(queue, paths) && Sorted(queue)
    ensures forall v :: v in paths && v !in processed ==> |paths[v]| >= |queue[0].1|
    ensures forall v :: v in paths && v !in processed ==> |paths[v]| <= |queue[0].1| + 1
  {
    forall v | v in paths && v !in processed
      ensures |queue[0].1| <= |paths[v]| <= |queue[0].1| + 1
    {
      var i :| 0 <= i < |queue| && queue[i].0 == v;
      assert paths[v] == queue[i].1;
    }
  }

  /** When the destination is taken from the front of the queue, its route is
      a shortest one. */
  lemma ShortestOnPop(g: Snapshot, dest: Option<Dest>, start: Pos, end: Pos, paths: map<Pos, seq<Pos>>,
                      processed: set<Pos>, queue: seq<Entry>)
    requires |queue| > 0 && queue[0].0 == end
    requires start in paths && paths[start] == [start]
    requires paths.Keys == processed + QueueSet(queue)
    requires Recorded(g, dest, start, paths) && QueueRecorded(queue, paths) && Sorted(queue)
    requires Closed(g, dest, paths, processed)
    ensures Shortest(g, dest, queue[0].1, start, end)
  {
    QueuedAtLeastFront(queue, paths, processed);
    var p := queue[0].1;
    assert paths[end] == p;
    forall q' | WalkFromTo(g, dest, q', start, end)
      ensures |p| <= |q'|
    {
      if |q'| < |p| {
        WalkBound(g, dest, start, paths, processed, |p|, q', |q'| - 1);
      }
    }
  }

  /** When the queue runs dry without reaching the destination, no walk
      reaches it. */
  lemma UnreachableOnEmpty(g: Snapshot, dest: Option<Dest>, start: Pos, end: Pos, paths: map<Pos, seq<Pos>>,
                           processed: set<Pos>)
    requires start in paths && paths.Keys <= processed && end !in processed
    requires Closed(g, dest, paths, processed)
    ensures Unreachable(g, dest, start, end)
  {
    forall q | IsWalk(g, dest, q) && q[0] == start
      ensures q[|q| - 1] != end
    {
      ReachAll(g, dest, start, paths, processed, q, |q| - 1);
    }
  }

  lemma RecordedAdd(g: Snapshot, dest: Option<Dest>, start: Pos, paths: map<Pos, seq<Pos>>, cur: Pos, n: Pos)
    requires Recorded(g, dest, start, paths) && cur in paths && n !in paths && Edge(g, dest, cur, n)
    ensures Recorded(g, dest, start, paths[n := paths[cur] + [n]])
  {
    var p := paths[cur];
    var p' := p + [n];
    var paths' := paths[n := p'];
    assert IsWalk(g, dest, p') by {
      forall i | 0 <= i < |p'| - 1
        ensures Edge(g, dest, p'[i], p'[i + 1])
      {
        if i < |p| - 1 {
          assert p'[i] == p[i] && p'[i + 1] == p[i + 1];
        }
      }
    }
    assert Distinct(p') by {
      forall i, j | 0 <= i < j < |p'|
        ensures p'[i] != p'[j]
      {
        if j < |p| {
          assert p'[i] == p[i] && p'[j] == p[j];
        } else {
          assert p[i] in paths;
        }
      }
    }
    forall v | v in paths'
      ensures WalkFromTo(g, dest, paths'[v], start, v) && Distinct(paths'[v])
      ensures forall i :: 0 <= i < |paths'[v]| ==> paths'[v][i] in paths'
    {
      if v == n {
        assert forall i :: 0 <= i < |p| ==> p'[i] == p[i];
      }
    }
  }

  lemma QueueSetAppend(queue: seq<Entry>, e: Entry)
    ensures QueueSet(queue + [e]) == QueueSet(queue) + {e.0}
  {
    var q' := queue + [e];
    forall v | v in QueueSet(q')
      ensures v in QueueSet(queue) + {e.0}
    {
      var i :| 0 <= i < |q'| && q'[i].0 == v;
      if i < |queue| {
        assert queue[i] == q'[i];
      }
    }
    forall v | v in QueueSet(queue)
      ensures v in QueueSet(q')
    {
      var i :| 0 <= i < |queue| && queue[i].0 == v;
      assert q'[i] == queue[i];
    }
    assert q'[|queue|] == e;
  }

  lemma QueueSetTail(queue: seq<Entry>)
    requires |queue| > 0
    ensures QueueSet(queue) == {queue[0].0} + QueueSet(queue[1..])
  {
    forall v | v in QueueSet(queue)
      ensures v in {queue[0].0} + QueueSet(queue[1..])
    {
      var i :| 0 <= i < |queue| && queue[i].0 == v;
      if i > 0 {
        assert queue[1..][i - 1] == queue[i];
      }
    }
    forall v | v in QueueSet(queue[1..])
      ensures v in QueueSet(queue)
    {
      var i :| 0 <= i < |queue| - 1 && queue[1..][i].0 == v;
      assert queue[i + 1] == queue[1..][i];
    }
  }

  /** What the inner loop of `bfs` keeps: the cells added since the round
      began are recorded with the current route extended by one cell, and
      queued in that order behind the earlier entries. */
  ghost predicate Grown(g: Snapshot, dest: Option<Dest>, start: Pos, curPath: seq<Pos>,
                        queue0: seq<Entry>, paths0: map<Pos, seq<Pos>>,
                        visited: set<Pos>, queue: seq<Entry>, paths: map<Pos, seq<Pos>>)
  {
    visited == paths.Keys && paths0.Keys <= paths.Keys &&
    (forall v :: v in paths0 ==> paths[v] == paths0[v]) &&
    (forall v :: v in paths && v !in paths0 ==> |paths[v]| == |curPath| + 1 && InGrid(g, v)) &&
    Recorded(g, dest, start, paths) && QueueRecorded(queue, paths) &&
    |queue0| <= |queue| && queue[..|queue0|] == queue0 &&
    (forall i :: |queue0| <= i < |queue| ==> |queue[i].1| == |curPath| + 1) &&
    QueueSet(queue) == QueueSet(queue0) + (paths.Keys - paths0.Keys) &&
    (paths.Keys == paths0.Keys ==> queue == queue0)
  }

  /** Marking a new neighbour visited and queueing it keeps `Grown`. */
  lemma GrownAdd(g: Snapshot, dest: Option<Dest>, start: Pos, cur: Pos, curPath: seq<Pos>,
                 queue0: seq<Entry>, paths0: map<Pos, seq<Pos>>,
                 visited: set<Pos>, queue: seq<Entry>, paths: map<Pos, seq<Pos>>, n: Pos)
    requires Grown(g, dest, start, curPath, queue0, paths0, visited, queue, paths)
    requires cur in paths0 && paths0[cur] == curPath
    requires n !in visited && Edge(g, dest, cur, n)
    ensures Grown(g, dest, start, curPath, queue0, paths0, visited + {n},
                  queue + [(n, curPath + [n])], paths[n := curPath + [n]])
  {
    RecordedAdd(g, dest, start, paths, cur, n);
    QueueSetAppend(queue, (n, curPath + [n]));
    var queue' := queue + [(n, curPath + [n])];
    assert queue'[..|queue0|] == queue[..|queue0|];
    assert QueueRecorded(queue', paths[n := curPath + [n]]) by {
      forall i | 0 <= i < |queue'|
        ensures queue'[i].0 in paths[n := curPath + [n]]
        ensures queue'[i].1 == paths[n := curPath + [n]][queue'[i].0]
      {
        if i < |queue| {
          assert queue'[i] == queue[i];
        }
      }
    }
  }

  /** The test of the inner loop of `bfs`: the neighbour is not visited, the
      move rule admits it and no car stands on it. */
  predicate Enqueues(g: Snapshot, dest: Option<Dest>, cur: Pos, n: Pos, visited: set<Pos>)
  {
    n !in visited && IsValidMove(Contents(g, n), dest, cur, n) && !HasCar(Contents(g, n))
  }

  /** The entries the inner loop of `bfs` appends to the queue, from `visited`
      on: in the order of `ns`, each neighbour that passes the test (a
      neighbour queued earlier in the loop counts as visited), with the route
      extended by it. */
  function Admitted(g: Snapshot, dest: Option<Dest>, cur: Pos, curPath: seq<Pos>, ns: seq<Pos>, visited: set<Pos>): seq<Entry>
    decreases |ns|
  {
    if |ns| == 0 then []
    else if Enqueues(g, dest, cur, ns[0], visited) then
      [(ns[0], curPath + [ns[0]])] + Admitted(g, dest, cur, curPath, ns[1..], visited + {ns[0]})
    else Admitted(g, dest, cur, curPath, ns[1..], visited)
  }

  /** Every appended entry is a neighbour from `ns`, not visited before, that
      passes the test, with the current route extended by it; no neighbour is
      appended twice. */
  lemma {:induction false} AdmittedSound(g: Snapshot, dest: Option<Dest>, cur: Pos, curPath: seq<Pos>, ns: seq<Pos>, visited: set<Pos>)
    ensures forall e :: e in Admitted(g, dest, cur, curPath, ns, visited) ==>
      e.0 in ns && e.0 !in visited && IsValidMove(Contents(g, e.0), dest, cur, e.0) &&
      !HasCar(Contents(g, e.0)) && e.1 == curPath + [e.0]
    ensures forall i, j :: 0 <= i < j < |Admitted(g, dest, cur, curPath, ns, visited)| ==>
      Admitted(g, dest, cur, curPath, ns, visited)[i].0 != Admitted(g, dest, cur, curPath, ns, visited)[j].0
    decreases |ns|
  {
    if |ns| > 0 {
      var n := ns[0];
      if Enqueues(g, dest, cur, n, visited) {
        AdmittedSound(g, dest, cur, curPath, ns[1..], visited + {n});
        var rest := Admitted(g, dest, cur, curPath, ns[1..], visited + {n});
        var q := [(n, curPath + [n])] + rest;
        assert Admitted(g, dest, cur, curPath, ns, visited) == q;
        forall i, j | 0 <= i < j < |q|
          ensures q[i].0 != q[j].0
        {
          assert q[j] == rest[j - 1] && rest[j - 1] in rest;
          if i > 0 {
            assert q[i] == rest[i - 1];
          }
        }
      } else {
        AdmittedSound(g, dest, cur, curPath, ns[1..], visited);
      }
      assert forall v :: v in ns[1..] ==> v in ns;
    }
  }

  /** Every neighbour in `ns` that the move rule admits and that has no car
      ends up visited: it was visited before or it is appended. */
  lemma {:induction false} AdmittedComplete(g: Snapshot, dest: Option<Dest>, cur: Pos, curPath: seq<Pos>, ns: seq<Pos>, visited: set<Pos>)
    ensures forall v :: v in ns && IsValidMove(Contents(g, v), dest, cur, v) && !HasCar(Contents(g, v)) ==>
      v in visited || v in QueueSet(Admitted(g, dest, cur, curPath, ns, visited))
    decreases |ns|
  {
    if |ns| > 0 {
      var n := ns[0];
      if Enqueues(g, dest, cur, n, visited) {
        AdmittedComplete(g, dest, cur, curPath, ns[1..], visited + {n});
        QueueSetTail([(n, curPath + [n])] + Admitted(g, dest, cur, curPath, ns[1..], visited + {n}));
        assert ([(n, curPath + [n])] + Admitted(g, dest, cur, curPath, ns[1..], visited + {n}))[1..] ==
          Admitted(g, dest, cur, curPath, ns[1..], visited + {n});
      } else {
        AdmittedComplete(g, dest, cur, curPath, ns[1..], visited);
      }
      assert forall v :: v in ns ==> v == n || v in ns[1..];
    }
  }

  /** One neighbour of the inner loop handled: what remains to be appended
      shrinks by what was appended. */
  lemma AdmittedStep(g: Snapshot, dest: Option<Dest>, cur: Pos, curPath: seq<Pos>, nbrs: seq<Pos>, k: nat,
                     visited: set<Pos>, queue: seq<Entry>, visited': set<Pos>, queue': seq<Entry>)
    requires k < |nbrs|
    requires Enqueues(g, dest, cur, nbrs[k], visited) ==>
      visited' == visited + {nbrs[k]} && queue' == queue + [(nbrs[k], curPath + [nbrs[k]])]
    requires !Enqueues(g, dest, cur, nbrs[k], visited) ==> visited' == visited && queue' == queue
    ensures queue + Admitted(g, dest, cur, curPath, nbrs[k..], visited) ==
      queue' + Admitted(g, dest, cur, curPath, nbrs[k + 1..], visited')
    ensures visited + QueueSet(Admitted(g, dest, cur, curPath, nbrs[k..], visited)) ==
      visited' + QueueSet(Admitted(g, dest, cur, curPath, nbrs[k + 1..], visited'))
  {
    var n := nbrs[k];
    assert nbrs[k..][0] == n && nbrs[k..][1..] == nbrs[k + 1..];
    var rest := Admitted(g, dest, cur, curPath, nbrs[k + 1..], visited');
    if Enqueues(g, dest, cur, n, visited) {
      var e := (n, curPath + [n]);
      assert Admitted(g, dest, cur, curPath, nbrs[k..], visited) == [e] + rest;
      assert queue + ([e] + rest) == (queue + [e]) + rest;
      QueueSetTail([e] + rest);
      assert ([e] + rest)[1..] == rest;
    }
  }

  /** Before the inner loop of `bfs` nothing has been added yet. */
  lemma GrownStart(g: Snapshot, dest: Option<Dest>, start: Pos, curPath: seq<Pos>,
                   visited: set<Pos>, queue: seq<Entry>, paths: map<Pos, seq<Pos>>)
    requires visited == paths.Keys && Recorded(g, dest, start, paths) && QueueRecorded(queue, paths)
    ensures Grown(g, dest, start, curPath, queue, paths, visited, queue, paths)
  {
    assert queue[..|queue|] == queue;
  }

  /** Every neighbour in `ns` that the move rule admits from `cur` is among `keys`. */
  ghost predicate Reached(g: Snapshot, dest: Option<Dest>, cur: Pos, ns: seq<Pos>, keys: set<Pos>)
  {
    forall v :: v in ns && Edge(g, dest, cur, v) ==> v in keys
  }

  /** One more neighbour handled, with no key lost, keeps `Reached`. */
  lemma ReachedStep(g: Snapshot, dest: Option<Dest>, cur: Pos, nbrs: seq<Pos>, k: nat, keys: set<Pos>, keys': set<Pos>)
    requires k < |nbrs| && Reached(g, dest, cur, nbrs[..k], keys) && keys <= keys'
    requires Edge(g, dest, cur, nbrs[k]) ==> nbrs[k] in keys'
    ensures Reached(g, dest, cur, nbrs[..k + 1], keys')
  {
    assert nbrs[..k + 1] == nbrs[..k] + [nbrs[k]];
    forall v | v in nbrs[..k + 1] && Edge(g, dest, cur, v)
      ensures v in keys'
    {
      if v != nbrs[k] {
        assert v in nbrs[..k];
      }
    }
  }


  /** The inner `for neighbor in neighbors` of `bfs`: every neighbour not
      visited, admitted by the move rule and free of cars is marked visited
      and queued with its route. */
  method Expand(g: Snapshot, dest: Option<Dest>, cur: Pos, curPath: seq<Pos>, nbrs: seq<Pos>,
                visited0: set<Pos>, queue0: seq<Entry>, ghost start: Pos, ghost paths0: map<Pos, seq<Pos>>)
    returns (visited: set<Pos>, queue: seq<Entry>, ghost paths: map<Pos, seq<Pos>>)
    requires visited0 == paths0.Keys && cur in paths0 && paths0[cur] == curPath
    requires Recorded(g, dest, start, paths0) && QueueRecorded(queue0, paths0)
    requires forall v :: v in nbrs ==> InGrid(g, v) && Adjacent(cur, v)
    ensures queue == queue0 + Admitted(g, dest, cur, curPath, nbrs, visited0)
    ensures visited == visited0 + QueueSet(Admitted(g, dest, cur, curPath, nbrs, visited0))
    ensures Grown(g, dest, start, curPath, queue0, paths0, visited, queue, paths)
    ensures forall v :: v in nbrs && Edge(g, dest, cur, v) ==> v in paths
  {
    visited, queue, paths := visited0, queue0, paths0;
    GrownStart(g, dest, start, curPath, visited, queue, paths);
    ghost var all := Admitted(g, dest, cur, curPath, nbrs, visited0);
    var k := 0;
    while k < |nbrs|
      invariant 0 <= k <= |nbrs|
      invariant queue0 + all == queue + Admitted(g, dest, cur, curPath, nbrs[k..], visited)
      invariant visited0 + QueueSet(all) == visited + QueueSet(Admitted(g, dest, cur, curPath, nbrs[k..], visited))
      invariant Grown(g, dest, start, curPath, queue0, paths0, visited, queue, paths)
      invariant Reached(g, dest, cur, nbrs[..k], paths.Keys)
    {
      ghost var keys := paths.Keys;
      ghost var visitedBefore, queueBefore := visited, queue;
      visited, queue, paths := ExpandTo(g, dest, cur, curPath, nbrs[k], visited, queue, start, queue0, paths0, paths);
      AdmittedStep(g, dest, cur, curPath, nbrs, k, visitedBefore, queueBefore, visited, queue);
      ReachedStep(g, dest, cur, nbrs, k, keys, paths.Keys);
      k := k + 1;
    }
    assert nbrs[..k] == nbrs;
    assert nbrs[k..] == [];
  }

  /** One neighbour of the `for` loop of `bfs`: queue it when the move is valid,
      it has no car and it has not been visited. */
  method ExpandTo(g: Snapshot, dest: Option<Dest>, cur: Pos, curPath: seq<Pos>, n: Pos,
                  visited0: set<Pos>, queue0: seq<Entry>, ghost start: Pos, ghost queueStart: seq<Entry>,
                  ghost pathsStart: map<Pos, seq<Pos>>, ghost paths0: map<Pos, seq<Pos>>)
    returns (visited: set<Pos>, queue: seq<Entry>, ghost paths: map<Pos, seq<Pos>>)
    requires Grown(g, dest, start, curPath, queueStart, pathsStart, visited0, queue0, paths0)
    requires cur in pathsStart && pathsStart[cur] == curPath && InGrid(g, n) && Adjacent(cur, n)
    ensures Enqueues(g, dest, cur, n, visited0) ==>
      visited == visited0 + {n} && queue == queue0 + [(n, curPath + [n])]
    ensures !Enqueues(g, dest, cur, n, visited0) ==> visited == visited0 && queue == queue0
    ensures Grown(g, dest, start, curPath, queueStart, pathsStart, visited, queue, paths)
    ensures paths0.Keys <= paths.Keys
    ensures Edge(g, dest, cur, n) ==> n in paths
  {
    visited, queue, paths := visited0, queue0, paths0;
    if n !in visited && IsValidMove(Contents(g, n), dest, cur, n) && !HasCar(Contents(g, n)) {
      GrownAdd(g, dest, start, cur, curPath, queueStart, pathsStart, visited, queue, paths, n);
      paths := paths[n := curPath + [n]];
      visited := visited + {n};
      queue := queue + [(n, curPath + [n])];
    }
  }

  function GridCells(g: Snapshot): set<Pos>
  {
    set x: int, y: int | 0 <= x < g.width && 0 <= y < g.height :: Pos(x, y)
  }

  lemma {:induction false} SubsetCard(a: set<Pos>, b: set<Pos>)
    requires a <= b
    ensures |a| <= |b|
    decreases |b|
  {
    if a != {} {
      var x :| x in a;
      SubsetCard(a - {x}, b - {x});
    }
  }

  lemma ProperSubsetCard(a: set<Pos>, b: set<Pos>)
    requires a < b
    ensures |a| < |b|
  {
    assert b - a != {} by {
      if b - a == {} {
        forall x | x in b
          ensures x in a
        {
          assert x !in b - a;
        }
      }
    }
    var x :| x in b - a;
    SubsetCard(a, b - {x});
  }

  /** The loop invariant of `bfs`. */
  ghost predicate SearchInv(g: Snapshot, dest: Option<Dest>, start: Pos, end: Pos, visited: set<Pos>,
                            queue: seq<Entry>, paths: map<Pos, seq<Pos>>, processed: set<Pos>)
  {
    visited == paths.Keys && start in paths && paths[start] == [start] &&
    visited <= GridCells(g) + {start} && end !in processed &&
    paths.Keys == processed + QueueSet(queue) &&
    Recorded(g, dest, start, paths) && QueueRecorded(queue, paths) && Sorted(queue) &&
    ProcessedBelow(queue, paths, processed) && Closed(g, dest, paths, processed)
  }

  /** Every recorded cell's route is at most one longer than the front's. */
  lemma AllNearFront(queue: seq<Entry>, paths: map<Pos, seq<Pos>>, processed: set<Pos>)
    requires |queue| > 0 && paths.Keys == processed + QueueSet(queue)
    requires QueueRecorded(queue, paths) && Sorted(queue) && ProcessedBelow(queue, paths, processed)
    ensures forall v :: v in paths ==> |paths[v]| <= |queue[0].1| + 1
  {
    QueuedAtLeastFront(queue, paths, processed);
  }

  /** Dropping the front and appending entries one longer keeps the queue
      sorted, with its new front no shorter than the old. */
  lemma SortedRound(queue: seq<Entry>, queue': seq<Entry>)
    requires |queue| > 0 && Sorted(queue)
    requires |queue| - 1 <= |queue'| && queue'[..|queue| - 1] == queue[1..]
    requires forall i :: |queue| - 1 <= i < |queue'| ==> |queue'[i].1| == |queue[0].1| + 1
    ensures Sorted(queue')
    ensures |queue'| > 0 ==> |queue'[0].1| >= |queue[0].1|
  {
    forall i, j | 0 <= i <= j < |queue'|
      ensures |queue'[i].1| <= |queue'[j].1| <= |queue'[i].1| + 1
    {
      if j < |queue| - 1 {
        assert queue'[i] == queue[i + 1] && queue'[j] == queue[j + 1];
      } else if i < |queue| - 1 {
        assert queue'[i] == queue[i + 1];
      }
    }
    if |queue'| > 0 && |queue| > 1 {
      assert queue'[0] == queue[1];
    }
  }

  /** Processing `cur`, all of whose steps lead to recorded cells at most one
      longer than its route, keeps the search closed. */
  lemma ClosedRound(g: Snapshot, dest: Option<Dest>, paths: map<Pos, seq<Pos>>, processed: set<Pos>,
                    paths': map<Pos, seq<Pos>>, cur: Pos)
    requires Closed(g, dest, paths, processed)
    requires paths.Keys <= paths'.Keys && forall v :: v in paths ==> paths'[v] == paths[v]
    requires cur in paths
    requires forall v :: Edge(g, dest, cur, v) ==> v in paths' && |paths'[v]| <= |paths[cur]| + 1
    ensures Closed(g, dest, paths', processed + {cur})
  {
  }

  /** One round of the `while queue` loop that does not reach the
      destination keeps the invariant. */
  lemma RoundKeepsInv(g: Snapshot, dest: Option<Dest>, start: Pos, end: Pos,
                      queue: seq<Entry>, paths: map<Pos, seq<Pos>>, processed: set<Pos>,
                      visited': set<Pos>, queue': seq<Entry>, paths': map<Pos, seq<Pos>>)
    requires SearchInv(g, dest, start, end, paths.Keys, queue, paths, processed)
    requires |queue| > 0 && queue[0].0 != end
    requires Grown(g, dest, start, queue[0].1, queue[1..], paths, visited', queue', paths')
    requires forall v :: v in Neighbourhood(g, queue[0].0) && Edge(g, dest, queue[0].0, v) ==> v in paths'
    ensures SearchInv(g, dest, start, end, visited', queue', paths', processed + {queue[0].0})
  {
    var cur := queue[0].0;
    var L := |queue[0].1|;
    QueueSetTail(queue);
    AllNearFront(queue, paths, processed);
    SortedRound(queue, queue');
    assert paths[cur] == queue[0].1;
    KeysRound(paths.Keys, processed, cur, QueueSet(queue[1..]), paths'.Keys, QueueSet(queue'));
    assert forall v :: v in paths' ==> |paths'[v]| <= L + 1;
    ClosedRound(g, dest, paths, processed, paths', cur);
    BelowRound(queue, queue', paths, paths', processed);
    GridRound(g, start, paths, paths');
    assert start in paths' && paths'[start] == [start];
    assert end !in processed + {cur};
  }

  /** Processing the front keeps every processed route no longer than the
      new front's. */
  lemma BelowRound(queue: seq<Entry>, queue': seq<Entry>, paths: map<Pos, seq<Pos>>,
                   paths': map<Pos, seq<Pos>>, processed: set<Pos>)
    requires |queue| > 0 && queue[0].0 in paths && paths[queue[0].0] == queue[0].1
    requires processed <= paths.Keys && ProcessedBelow(queue, paths, processed)
    requires paths.Keys <= paths'.Keys && forall v :: v in paths ==> paths'[v] == paths[v]
    requires |queue'| > 0 ==> |queue'[0].1| >= |queue[0].1|
    ensures ProcessedBelow(queue', paths', processed + {queue[0].0})
  {
  }

  /** The cells recorded in a round lie on the grid. */
  lemma GridRound(g: Snapshot, start: Pos, paths: map<Pos, seq<Pos>>, paths': map<Pos, seq<Pos>>)
    requires paths.Keys <= GridCells(g) + {start}
    requires forall v :: v in paths' && v !in paths ==> InGrid(g, v)
    ensures paths'.Keys <= GridCells(g) + {start}
  {
    forall v | v in paths'.Keys && v !in paths
      ensures v in GridCells(g)
    {
      assert v == Pos(v.x, v.y);
    }
  }

  /** How the recorded cells, the processed ones and the queue relate after
      one round. */
  lemma KeysRound(keys: set<Pos>, processed: set<Pos>, cur: Pos, rest: set<Pos>,
                  keys': set<Pos>, queued': set<Pos>)
    requires keys == processed + ({cur} + rest) && keys <= keys'
    requires queued' == rest + (keys' - keys)
    ensures keys' == (processed + {cur}) + queued'
  {
  }

  /** How many cells the search may still visit. */
  ghost function Unvisited(g: Snapshot, start: Pos, visited: set<Pos>): nat
  {
    |(GridCells(g) + {start}) - visited|
  }

  /** One round of the `while queue` loop of `bfs` that does not reach the
      destination: pop the front cell and queue its unvisited neighbours. */
  method Visit(g: Snapshot, dest: Option<Dest>, ghost start: Pos, ghost end: Pos, visited: set<Pos>,
               queue: seq<Entry>, ghost paths: map<Pos, seq<Pos>>, ghost processed: set<Pos>)
    returns (visited': set<Pos>, queue': seq<Entry>, ghost paths': map<Pos, seq<Pos>>, ghost processed': set<Pos>)
    requires SearchInv(g, dest, start, end, visited, queue, paths, processed)
    requires |queue| > 0 && queue[0].0 != end
    ensures SearchInv(g, dest, start, end, visited', queue', paths', processed')
    ensures Unvisited(g, start, visited') < Unvisited(g, start, visited) ||
            (Unvisited(g, start, visited') == Unvisited(g, start, visited) && |queue'| < |queue|)
  {
    var cur, curPath := queue[0].0, queue[0].1;
    assert paths[cur] == curPath;
    var nbrs := Neighbourhood(g, cur);
    visited', queue', paths' := Expand(g, dest, cur, curPath, nbrs, visited, queue[1..], start, paths);
    RoundKeepsInv(g, dest, start, end, queue, paths, processed, visited', queue', paths');
    processed' := processed + {cur};
    if visited' != visited {
      ProperSubsetCard((GridCells(g) + {start}) - visited', (GridCells(g) + {start}) - visited);
    }
  }

  lemma InitInv(g: Snapshot, dest: Option<Dest>, start: Pos, end: Pos)
    requires start != end
    ensures SearchInv(g, dest, start, end, {start}, [(start, [start])], map[start := [start]], {})
  {
    var queue: seq<Entry> := [(start, [start])];
    assert QueueSet(queue) == {start} by {
      assert queue[0].0 == start;
    }
    assert WalkFromTo(g, dest, [start], start, start);
  }

  /** `Car.bfs`: the route the car takes from `pos` to its destination. */
  method Bfs(g: Snapshot, dest: Option<Dest>, pos: Option<Pos>) returns (path: Option<seq<Pos>>)
    ensures dest.None? || pos.None? ==> path.None?
    ensures dest.Some? && pos.Some? && pos.value == dest.value.pos ==> path == Some([pos.value])
    ensures path.Some? ==> dest.Some? && pos.Some? && Shortest(g, dest, path.value, pos.value, dest.value.pos)
    ensures dest.Some? && pos.Some? && path.None? ==> Unreachable(g, dest, pos.value, dest.value.pos)
  {
    if dest.None? || pos.None? {
      return None;
    }
    var start, end := pos.value, dest.value.pos;
    if start == end {
      assert Distinct([start]);
      return Some([start]);
    }
    var queue: seq<Entry> := [(start, [start])];
    var visited: set<Pos> := {start};
    ghost var paths: map<Pos, seq<Pos>> := map[start := [start]];
    ghost var processed: set<Pos> := {};
    InitInv(g, dest, start, end);
    while |queue| > 0
      invariant SearchInv(g, dest, start, end, visited, queue, paths, processed)
      decreases Unvisited(g, start, visited), |queue|
    {
      if queue[0].0 == end {
        ShortestOnPop(g, dest, start, end, paths, processed, queue);
        return Some(queue[0].1);
      }
      visited, queue, paths, processed := Visit(g, dest, start, end, visited, queue, paths, processed);
    }
    UnreachableOnEmpty(g, dest, start, end, paths, processed);
    return None;
  }

  // ------------------------------------------------------------- the grid

  /** The first occurrence of `a` taken out, as Python's `list.remove`. */
  function RemoveFirst(cs: seq<Agent>, a: Agent): seq<Agent>
  {
    if |cs| == 0 then []
    else if cs[0] == a then cs[1..]
    else [cs[0]] + RemoveFirst(cs[1..], a)
  }

  /** `grid.move_agent(agent, to)`: out of its cell, appended to `to`. */
  function Relocate(cells: map<Pos, seq<Agent>>, a: Agent, from: Pos, to: Pos): map<Pos, seq<Agent>>
  {
    var left := cells[from := RemoveFirst(if from in cells then cells[from] else [], a)];
    left[to := (if to in left then left[to] else []) + [a]]
  }

  /** The grid, and the model's count of cars that arrived. */
  class City {
    const width: nat
    const height: nat
    var cells: map<Pos, seq<Agent>>
    var agentsArrived: nat

    constructor(width: nat, height: nat, cells: map<Pos, seq<Agent>>)
      ensures this.width == width && this.height == height && this.cells == cells && agentsArrived == 0
    {
      this.width := width;
      this.height := height;
      this.cells := cells;
      agentsArrived := 0;
    }

    function Snap(): Snapshot
      reads this
    {
      Snapshot(width, height, cells)
    }
  }

  // ------------------------------------------------------------- Car.move

  /** The first light in the cell shows red. */
  predicate FirstLightRed(cs: seq<Agent>)
  {
    if |cs| == 0 then false
    else if cs[0].LightAgent? then !cs[0].green
    else FirstLightRed(cs[1..])
  }

  class Car {
    const id: nat
    var pos: Option<Pos>
    var destination: Option<Dest>
    var waiting: bool

    constructor(id: nat, pos: Option<Pos>, destination: Option<Dest>)
      ensures this.id == id && this.pos == pos && this.destination == destination && !waiting
    {
      this.id := id;
      this.pos := pos;
      this.destination := destination;
      waiting := false;
    }

    /** How the car appears in the cells of the grid. */
    function AsAgent(): Agent
      reads this
    {
      CarAgent(id, if destination.Some? then Some(destination.value.id) else None)
    }

    /** `Car.move`: take the second cell of the route when the move rule
        admits it, its first light is not red and no car is there; wait
        otherwise. Without a destination nothing happens. */
    method Move(city: City)
      modifies this, city
      ensures destination == old(destination) && city.agentsArrived == old(city.agentsArrived)
      ensures old(destination).None? ==>
        pos == old(pos) && waiting == old(waiting) && city.cells == old(city.cells)
      ensures old(destination).Some? ==> (waiting <==> pos == old(pos))
      ensures pos == old(pos) ==> city.cells == old(city.cells)
      ensures pos != old(pos) ==>
        old(pos).Some? && pos.Some? && destination.Some? &&
        (exists q :: Shortest(old(city.Snap()), destination, q, old(pos).value, destination.value.pos) &&
           |q| > 1 && q[1] == pos.value) &&
        !FirstLightRed(Contents(old(city.Snap()), pos.value)) &&
        city.cells == Relocate(old(city.cells), AsAgent(), old(pos).value, pos.value)
      ensures old(destination).Some? && pos == old(pos) ==>
        old(pos).None? || old(pos).value == destination.value.pos ||
        Unreachable(old(city.Snap()), destination, old(pos).value, destination.value.pos) ||
        exists q :: Shortest(old(city.Snap()), destination, q, old(pos).value, destination.value.pos) &&
          |q| > 1 && FirstLightRed(Contents(old(city.Snap()), q[1]))
    {
      if destination.None? {
        return;
      }
      var g := city.Snap();
      var path := Bfs(g, destination, pos);
      var next: Option<Pos> := if path.Some? && |path.value| > 1 then Some(path.value[1]) else None;
      if next.Some? {
        assert Edge(g, destination, path.value[0], path.value[1]);
      }
      if next.Some? && IsValidMove(Contents(g, next.value), destination, pos.value, next.value) {
        var contents := Contents(g, next.value);
        if FirstLightRed(contents) {
          waiting := true;
          return;
        }
        if !HasCar(contents) {
          waiting := false;
          city.cells := Relocate(city.cells, AsAgent(), pos.value, next.value);
          pos := next;
          return;
        } else {
          // The route was searched on this same grid and avoids cells with
          // cars, so its second cell is free: the car never waits here.
          assert false;
        }
      } else {
        waiting := true;
        return;
      }
    }
  }

  // ------------------------------------------------- Destination.remove_agent

  /** The car has this destination as its goal. */
  predicate Arrives(a: Agent, id: nat)
  {
    a.CarAgent? && a.goal == Some(id)
  }

  /** The agents that stay in the cell. */
  function Staying(cs: seq<Agent>, id: nat): seq<Agent>
  {
    if |cs| == 0 then []
    else Staying(cs[..|cs| - 1], id) + (if Arrives(cs[|cs| - 1], id) then [] else [cs[|cs| - 1]])
  }

  /** The cars that arrive. */
  function Arriving(cs: seq<Agent>, id: nat): seq<Agent>
  {
    if |cs| == 0 then []
    else Arriving(cs[..|cs| - 1], id) + (if Arrives(cs[|cs| - 1], id) then [cs[|cs| - 1]] else [])
  }

  /** The cell's agents split into arriving cars and everything else, nothing
      lost or added: the arriving ones all head here and none of the staying
      ones does. */
  lemma {:induction false} ArrivalSplit(cs: seq<Agent>, id: nat)
    ensures multiset(Staying(cs, id)) + multiset(Arriving(cs, id)) == multiset(cs)
    ensures |Staying(cs, id)| + |Arriving(cs, id)| == |cs|
    ensures forall i :: 0 <= i < |Staying(cs, id)| ==> !Arrives(Staying(cs, id)[i], id)
    ensures forall i :: 0 <= i < |Arriving(cs, id)| ==> Arrives(Arriving(cs, id)[i], id)
  {
    SplitKeepsAgents(cs, id);
    SplitSides(cs, id);
    assert |multiset(Staying(cs, id)) + multiset(Arriving(cs, id))| == |multiset(cs)|;
  }

  lemma {:induction false} SplitKeepsAgents(cs: seq<Agent>, id: nat)
    ensures multiset(Staying(cs, id)) + multiset(Arriving(cs, id)) == multiset(cs)
  {
    if |cs| > 0 {
      var front, last := cs[..|cs| - 1], cs[|cs| - 1];
      SplitKeepsAgents(front, id);
      assert cs == front + [last];
      assert multiset(cs) == multiset(front) + multiset{last};
      if Arrives(last, id) {
        assert Arriving(cs, id) == Arriving(front, id) + [last];
      } else {
        assert Staying(cs, id) == Staying(front, id) + [last];
      }
    }
  }

  lemma {:induction false} SplitSides(cs: seq<Agent>, id: nat)
    ensures forall i :: 0 <= i < |Staying(cs, id)| ==> !Arrives(Staying(cs, id)[i], id)
    ensures forall i :: 0 <= i < |Arriving(cs, id)| ==> Arrives(Arriving(cs, id)[i], id)
  {
    if |cs| > 0 {
      var front, last := cs[..|cs| - 1], cs[|cs| - 1];
      SplitSides(front, id);
      if Arrives(last, id) {
        assert Arriving(cs, id) == Arriving(front, id) + [last];
      } else {
        assert Staying(cs, id) == Staying(front, id) + [last];
      }
    }
  }

  lemma {:induction false} RemoveFirstAfter(kept: seq<Agent>, a: Agent, rest: seq<Agent>)
    requires a !in kept
    ensures RemoveFirst(kept + [a] + rest, a) == kept + rest
    decreases |kept|
  {
    var cs := kept + [a] + rest;
    if |kept| > 0 {
      assert cs[0] == kept[0] && kept[0] != a;
      assert cs[1..] == kept[1..] + [a] + rest;
      assert RemoveFirst(cs, a) == [kept[0]] + RemoveFirst(kept[1..] + [a] + rest, a);
      assert a !in kept[1..];
      RemoveFirstAfter(kept[1..], a, rest);
      assert [kept[0]] + (kept[1..] + rest) == kept + rest;
    } else {
      assert cs[0] == a && cs[1..] == rest;
    }
  }

  /** One agent of the cell examined: an arriving car is taken out of the
      cell and counted, any other agent stays. */
  lemma CellStep(cs: seq<Agent>, k: nat, id: nat)
    requires k < |cs|
    ensures Arrives(cs[k], id) ==>
      RemoveFirst(Staying(cs[..k], id) + cs[k..], cs[k]) == Staying(cs[..k + 1], id) + cs[k + 1..] &&
      |Arriving(cs[..k + 1], id)| == |Arriving(cs[..k], id)| + 1
    ensures !Arrives(cs[k], id) ==>
      Staying(cs[..k], id) + cs[k..] == Staying(cs[..k + 1], id) + cs[k + 1..] &&
      |Arriving(cs[..k + 1], id)| == |Arriving(cs[..k], id)|
  {
    var agent := cs[k];
    var upto := cs[..k + 1];
    assert upto[..|upto| - 1] == cs[..k] && upto[|upto| - 1] == agent;
    assert cs[k..] == [agent] + cs[k + 1..];
    var stay := Staying(cs[..k], id);
    if Arrives(agent, id) {
      assert Staying(upto, id) == stay;
      assert Arriving(upto, id) == Arriving(cs[..k], id) + [agent];
      SplitSides(cs[..k], id);
      assert agent !in stay;
      RemoveFirstAfter(stay, agent, cs[k + 1..]);
      assert stay + cs[k..] == stay + [agent] + cs[k + 1..];
    } else {
      assert Staying(upto, id) == stay + [agent];
      assert Arriving(upto, id) == Arriving(cs[..k], id);
      assert stay + cs[k..] == (stay + [agent]) + cs[k + 1..];
    }
  }

  class Destination {
    const id: nat
    var pos: Option<Pos>

    constructor(id: nat, pos: Option<Pos>)
      ensures this.id == id && this.pos == pos
    {
      this.id := id;
      this.pos := pos;
    }

    /** `Destination.remove_agent`: every car in this cell heading here
        leaves the grid and is counted as arrived. */
    method RemoveAgent(city: City)
      modifies city
      ensures pos.None? || pos.value !in old(city.cells) ==>
        city.cells == old(city.cells) && city.agentsArrived == old(city.agentsArrived)
      ensures pos.Some? && pos.value in old(city.cells) ==>
        city.cells == old(city.cells)[pos.value := Staying(old(city.cells)[pos.value], id)] &&
        city.agentsArrived == old(city.agentsArrived) + |Arriving(old(city.cells)[pos.value], id)|
    {
      if pos.None? || pos.value !in city.cells {
        return;
      }
      var p := pos.value;
      var cs := city.cells[p];
      var k := 0;
      assert cs[..0] == [] && cs[0..] == cs;
      assert Staying(cs[..0], id) + cs[0..] == cs;
      assert city.cells == old(city.cells)[p := cs];
      while k < |cs|
        invariant 0 <= k <= |cs|
        invariant p in city.cells
        invariant city.cells == old(city.cells)[p := Staying(cs[..k], id) + cs[k..]]
        invariant city.agentsArrived == old(city.agentsArrived) + |Arriving(cs[..k], id)|
      {
        var agent := cs[k];
        CellStep(cs, k, id);
        if agent.CarAgent? && agent.goal == Some(id) {
          city.agentsArrived := city.agentsArrived + 1;
          city.cells := city.cells[p := RemoveFirst(city.cells[p], agent)];
        }
        k := k + 1;
      }
      assert cs[..k] == cs && cs[k..] == [];
      assert Staying(cs, id) + [] == Staying(cs, id);
    }
  }
}
