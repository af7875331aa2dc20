/** The agent animation of visualization/visualization.js: linear interpolation of
    positions, the facing angle of a direction symbol, and the table of agents that
    each snapshot of the simulation updates and each animation frame advances. The
    clock (`Date.now()`) is a parameter `now`, in milliseconds. */
module Animation {
  import opened Common

  /** `Math.PI`, written as the decimal value of that double. */
  const Pi: real := 3.141592653589793

  /** Length of one interpolation, in milliseconds. */
  const InterpolationDuration: int := 1000

  /** `interpolatePosition(start, end, t)`: `start` mapped coordinate by coordinate to
      `start[i] + (end[i] - start[i]) * t`; `end` must reach as far as `start`, since a
      missing coordinate of `end` would turn into NaN. */
  function Lerp(start: seq<real>, end: seq<real>, t: real): (p: seq<real>)
    requires |start| <= |end|
    ensures |p| == |start|
  {
    seq(|start|, i requires 0 <= i < |start| => start[i] + (end[i] - start[i]) * t)
  }

  /** Interpolating with `t == 0` stays at the start and with `t == 1` arrives at
      the end. */
  lemma LerpEndpoints(start: seq<real>, end: seq<real>)
    requires |start| == |end|
    ensures Lerp(start, end, 0.0) == start
    ensures Lerp(start, end, 1.0) == end
  {
  }

  /** For `0 <= t <= 1` every coordinate lies between its start and end values, and
      a larger `t` never moves a coordinate back towards its start. */
  lemma LerpBetween(start: seq<real>, end: seq<real>, t: real, t': real)
    requires |start| == |end|
    requires 0.0 <= t <= t' <= 1.0
    ensures forall i :: 0 <= i < |start| ==>
      (start[i] <= end[i] ==> start[i] <= Lerp(start, end, t)[i] <= Lerp(start, end, t')[i] <= end[i])
    ensures forall i :: 0 <= i < |start| ==>
      (end[i] <= start[i] ==> end[i] <= Lerp(start, end, t')[i] <= Lerp(start, end, t)[i] <= start[i])
  {
    forall i | 0 <= i < |start|
      ensures start[i] <= end[i] ==> start[i] <= Lerp(start, end, t)[i] <= Lerp(start, end, t')[i] <= end[i]
      ensures end[i] <= start[i] ==> end[i] <= Lerp(start, end, t')[i] <= Lerp(start, end, t)[i] <= start[i]
    {
      LerpCoordinate(start, end, t, t', i);
    }
  }

  lemma LerpCoordinate(start: seq<real>, end: seq<real>, t: real, t': real, i: nat)
    requires |start| == |end| && i < |start|
    requires 0.0 <= t <= t' <= 1.0
    ensures start[i] <= end[i] ==> start[i] <= Lerp(start, end, t)[i] <= Lerp(start, end, t')[i] <= end[i]
    ensures end[i] <= start[i] ==> end[i] <= Lerp(start, end, t')[i] <= Lerp(start, end, t)[i] <= start[i]
  {
    var a, b := start[i], end[i];
    ScaleBetween(a, b, t, t', Lerp(start, end, t)[i], Lerp(start, end, t')[i]);
  }

  /** Going from `a` towards `b` by the fractions `0 <= t <= t' <= 1` stays
      between the two and gets no further from `b` as the fraction grows. */
  lemma ScaleBetween(a: real, b: real, t: real, t': real, p: real, p': real)
    requires 0.0 <= t <= t' <= 1.0
    requires p == a + (b - a) * t && p' == a + (b - a) * t'
    ensures a <= b ==> a <= p <= p' <= b
    ensures b <= a ==> b <= p' <= p <= a
  {
    var d := b - a;
    assert d * t' - d * t == d * (t' - t);
    assert d - d * t' == d * (1.0 - t');
    if d >= 0.0 {
      MulNonNeg(d, t);
      MulNonNeg(d, t' - t);
      MulNonNeg(d, 1.0 - t');
    } else {
      MulNonNeg(-d, t);
      MulNonNeg(-d, t' - t);
      MulNonNeg(-d, 1.0 - t');
      assert (-d) * t == -(d * t);
      assert (-d) * (t' - t) == -(d * (t' - t));
      assert (-d) * (1.0 - t') == -(d * (1.0 - t'));
    }
  }

  lemma MulNonNeg(x: real, y: real)
    requires 0.0 <= x && 0.0 <= y
    ensures 0.0 <= x * y
  {
  }

  /** `getRotationFromDirection(symbol)`: the yaw in radians for a lane symbol. */
  function RotationFromDirection(symbol: string): (angle: real)
    ensures -Pi / 2.0 <= angle <= Pi
  {
    if symbol == "v" then Pi / 2.0
    else if symbol == "^" then -Pi / 2.0
    else if symbol == ">" then Pi
    else 0.0
  }

  /** The table of angles, and opposite directions face opposite ways. */
  lemma RotationTable(symbol: string)
    ensures RotationFromDirection("v") == Pi / 2.0 && RotationFromDirection("^") == -Pi / 2.0
    ensures RotationFromDirection(">") == Pi && RotationFromDirection("<") == 0.0
    ensures symbol !in {"v", "^", ">", "<"} ==> RotationFromDirection(symbol) == 0.0
    ensures RotationFromDirection("v") - RotationFromDirection("^") == Pi
    ensures RotationFromDirection(">") - RotationFromDirection("<") == Pi
  {
  }

  type AgentId = string

  /** One entry of a snapshot: `{id, x, y, z, symbol}`. */
  datatype Report = Report(id: AgentId, x: real, y: real, z: real, symbol: string)

  /** One animated agent. `position` is what is drawn; it moves from `startPosition`
      to `endPosition` during the second after `startTime`. */
  datatype Agent = Agent(
    id: AgentId,
    startPosition: seq<real>,
    endPosition: seq<real>,
    position: seq<real>,
    startTime: int,
    rotation: real,
    symbol: string)

  function Xyz(r: Report): seq<real>
  {
    [r.x, r.y, r.z]
  }

  /** Every vector of the agent has three coordinates. */
  predicate Shaped(a: Agent)
  {
    |a.startPosition| == 3 && |a.endPosition| == 3 && |a.position| == 3
  }

  function Ids(agents: seq<Agent>): set<AgentId>
  {
    set a | a in agents :: a.id
  }

  predicate UniqueIds(agents: seq<Agent>)
  {
    forall i, j :: 0 <= i < j < |agents| ==> agents[i].id != agents[j].id
  }

  /** `agents.find((a) => a.id === id)`, as an index: the first agent with that id. */
  function IndexOf(agents: seq<Agent>, id: AgentId): (r: Option<nat>)
    ensures r.Some? ==> r.value < |agents| && agents[r.value].id == id
    ensures r.Some? ==> forall j :: 0 <= j < r.value ==> agents[j].id != id
    ensures r.None? <==> id !in Ids(agents)
  {
    if |agents| == 0 then None
    else if agents[0].id == id then Some(0)
    else match IndexOf(agents[1..], id)
      case None => (assert forall a | a in agents :: a == agents[0] || a in agents[1..]; None)
      case Some(k) => Some(k + 1)
  }

  /** The change test of the source: the report's coordinates are compared with the
      agent's current, interpolated `position` (a missing coordinate counts as
      different), and its symbol with the agent's symbol. */
  predicate Differs(a: Agent, r: Report)
  {
    !(|a.position| >= 3 && a.position[0] == r.x && a.position[1] == r.y && a.position[2] == r.z)
    || a.symbol != r.symbol
  }

  /** A newly seen agent: standing still at the reported point. */
  function Spawn(r: Report, now: int): (a: Agent)
    ensures Shaped(a) && a.id == r.id
    ensures a.startPosition == a.endPosition == a.position == [r.x, r.y, r.z]
    ensures a.startTime == now && a.symbol == r.symbol
    ensures a.rotation == RotationFromDirection(r.symbol)
  {
    Agent(r.id, Xyz(r), Xyz(r), Xyz(r), now, RotationFromDirection(r.symbol), r.symbol)
  }

  /** A known agent sent somewhere new: it animates from where it is drawn now. */
  function Retarget(a: Agent, r: Report, now: int): (b: Agent)
    ensures b.id == a.id && b.position == a.position
    ensures b.startPosition == a.position && b.endPosition == [r.x, r.y, r.z]
    ensures b.startTime == now && b.symbol == r.symbol
    ensures b.rotation == RotationFromDirection(r.symbol)
  {
    a.(startPosition := a.position, endPosition := Xyz(r), startTime := now,
       symbol := r.symbol, rotation := RotationFromDirection(r.symbol))
  }

  /** One iteration of the snapshot loop (visualization/visualization.js:94-138). */
  function ApplyReport(agents: seq<Agent>, r: Report, now: int): (result: seq<Agent>)
    ensures r.id !in Ids(agents) ==> result == agents + [Spawn(r, now)]
    ensures forall i :: 0 <= i < |agents| && agents[i].id == r.id && UniqueIds(agents) ==>
      result == (if Differs(agents[i], r) then agents[i := Retarget(agents[i], r, now)] else agents)
  {
    match IndexOf(agents, r.id)
    case None => agents + [Spawn(r, now)]
    case Some(i) => if Differs(agents[i], r) then agents[i := Retarget(agents[i], r, now)] else agents
  }

  /** The reports applied in order. */
  function ApplyReports(agents: seq<Agent>, rs: seq<Report>, now: int): seq<Agent>
  {
    if |rs| == 0 then agents
    else ApplyReport(ApplyReports(agents, rs[..|rs| - 1], now), rs[|rs| - 1], now)
  }

  function ReportedIds(rs: seq<Report>): set<AgentId>
  {
    set r | r in rs :: r.id
  }

  /** `agents.filter((agent) => ids.has(agent.id))`. */
  function KeepReported(agents: seq<Agent>, ids: set<AgentId>): seq<Agent>
  {
    if |agents| == 0 then []
    else
      var last := agents[|agents| - 1];
      KeepReported(agents[..|agents| - 1], ids) + (if last.id in ids then [last] else [])
  }

  /** The whole effect of one snapshot on the agent table: an empty snapshot
      changes nothing; otherwise every report is applied and the agents that were
      not reported are dropped. */
  function Merge(agents: seq<Agent>, rs: seq<Report>, now: int): seq<Agent>
  {
    if |rs| == 0 then agents
    else KeepReported(ApplyReports(agents, rs, now), ReportedIds(rs))
  }

  lemma ApplyReportIds(before: seq<Agent>, r: Report, now: int)
    ensures Ids(ApplyReport(before, r, now)) == Ids(before) + {r.id}
  {
    var after := ApplyReport(before, r, now);
    match IndexOf(before, r.id)
    case None =>
      IdsConcat(before, [Spawn(r, now)]);
    case Some(i) =>
      if Differs(before[i], r) {
        assert after == before[i := Retarget(before[i], r, now)];
        forall a | a in after ensures a.id in Ids(before) {
          var k :| 0 <= k < |after| && after[k] == a;
          assert k == i || a == before[k];
          assert before[k] in before;
        }
        forall id | id in Ids(before) ensures id in Ids(after) {
          var b :| b in before && b.id == id;
          var k :| 0 <= k < |before| && before[k] == b;
          assert after[k].id == id;
          assert after[k] in after;
        }
      }
  }

  lemma IdsConcat(a: seq<Agent>, b: seq<Agent>)
    ensures Ids(a + b) == Ids(a) + Ids(b)
  {
    assert forall x | x in a + b :: x in a || x in b;
  }

  lemma {:induction false} ApplyReportsIds(agents: seq<Agent>, rs: seq<Report>, now: int)
    ensures Ids(ApplyReports(agents, rs, now)) == Ids(agents) + ReportedIds(rs)
  {
    if |rs| > 0 {
      var front := rs[..|rs| - 1];
      var r := rs[|rs| - 1];
      var mid := ApplyReports(agents, front, now);
      assert ApplyReports(agents, rs, now) == ApplyReport(mid, r, now);
      assert ReportedIds(rs) == ReportedIds(front) + {r.id} by {
        assert rs == front + [r];
        ReportedIdsSnoc(front, r);
      }
      ApplyReportsIds(agents, front, now);
      ApplyReportIds(mid, r, now);
      UnionStep(Ids(agents), ReportedIds(front), Ids(mid), r.id);
    }
  }

  lemma UnionStep<T>(a: set<T>, b: set<T>, m: set<T>, x: T)
    requires m == a + b
    ensures m + {x} == a + (b + {x})
  {
  }

  /** One more report of a prefix is one more application. */
  lemma ApplyReportsPrefix(agents: seq<Agent>, rs: seq<Report>, n: nat, now: int)
    requires n < |rs|
    ensures ApplyReports(agents, rs[..n + 1], now) == ApplyReport(ApplyReports(agents, rs[..n], now), rs[n], now)
    ensures ReportedIds(rs[..n + 1]) == ReportedIds(rs[..n]) + {rs[n].id}
  {
    assert rs[..n + 1][..n] == rs[..n];
    assert rs[..n + 1] == rs[..n] + [rs[n]];
    ReportedIdsSnoc(rs[..n], rs[n]);
  }

  lemma ReportedIdsSnoc(front: seq<Report>, r: Report)
    ensures ReportedIds(front + [r]) == ReportedIds(front) + {r.id}
  {
    assert forall x | x in front + [r] :: x in front || x == r;
  }

  lemma {:induction false} KeepReportedIds(agents: seq<Agent>, ids: set<AgentId>)
    ensures Ids(KeepReported(agents, ids)) == Ids(agents) * ids
  {
    if |agents| > 0 {
      var front := agents[..|agents| - 1];
      KeepReportedIds(front, ids);
      var last := agents[|agents| - 1];
      assert agents == front + [last];
      IdsConcat(front, [last]);
      IdsConcat(KeepReported(front, ids), if last.id in ids then [last] else []);
    }
  }

  /** After a non-empty snapshot the agents are exactly the reported ones; an
      empty snapshot leaves the table as it was. */
  lemma MergeIds(agents: seq<Agent>, rs: seq<Report>, now: int)
    ensures |rs| > 0 ==> Ids(Merge(agents, rs, now)) == ReportedIds(rs)
    ensures |rs| == 0 ==> Merge(agents, rs, now) == agents
  {
    if |rs| > 0 {
      ApplyReportsIds(agents, rs, now);
      KeepReportedIds(ApplyReports(agents, rs, now), ReportedIds(rs));
    }
  }

  /** The agent table stays free of duplicate ids and of malformed vectors. */
  predicate WellFormed(agents: seq<Agent>)
  {
    UniqueIds(agents) && AllShaped(agents)
  }

  predicate AllShaped(agents: seq<Agent>)
  {
    forall i :: 0 <= i < |agents| ==> Shaped(agents[i])
  }

  lemma ApplyReportWellFormed(agents: seq<Agent>, r: Report, now: int)
    requires WellFormed(agents)
    ensures WellFormed(ApplyReport(agents, r, now))
  {
    var after := ApplyReport(agents, r, now);
    match IndexOf(agents, r.id)
    case None =>
      assert after == agents + [Spawn(r, now)];
      assert forall a | a in agents :: a.id in Ids(agents);
    case Some(i) =>
  }

  lemma {:induction false} ApplyReportsWellFormed(agents: seq<Agent>, rs: seq<Report>, now: int)
    requires WellFormed(agents)
    ensures WellFormed(ApplyReports(agents, rs, now))
  {
    if |rs| > 0 {
      ApplyReportsWellFormed(agents, rs[..|rs| - 1], now);
      ApplyReportWellFormed(ApplyReports(agents, rs[..|rs| - 1], now), rs[|rs| - 1], now);
    }
  }

  lemma {:induction false} KeepReportedSubsequence(agents: seq<Agent>, ids: set<AgentId>)
    ensures forall a | a in KeepReported(agents, ids) :: a in agents && a.id in ids
    ensures UniqueIds(agents) ==> UniqueIds(KeepReported(agents, ids))
  {
    if |agents| > 0 {
      var front := agents[..|agents| - 1];
      var last := agents[|agents| - 1];
      KeepReportedSubsequence(front, ids);
      KeepReportedIds(front, ids);
      if UniqueIds(agents) {
        assert UniqueIds(front);
        forall a | a in front ensures a.id != last.id {
          var k :| 0 <= k < |front| && front[k] == a;
          assert agents[k] == a;
        }
        var kept := KeepReported(front, ids);
        forall a | a in kept ensures a.id != last.id {
          assert a.id in Ids(front);
        }
      }
    }
  }

  lemma MergeWellFormed(agents: seq<Agent>, rs: seq<Report>, now: int)
    requires WellFormed(agents)
    ensures WellFormed(Merge(agents, rs, now))
  {
    if |rs| > 0 {
      ApplyReportsWellFormed(agents, rs, now);
      KeepReportedSubsequence(ApplyReports(agents, rs, now), ReportedIds(rs));
    }
  }

  /** `Math.min(elapsed / interpolationDuration, 1)`. There is no lower bound: a
      clock that runs backwards gives a negative fraction. */
  function Progress(elapsed: int): (t: real)
    ensures t <= 1.0
    ensures elapsed >= InterpolationDuration ==> t == 1.0
    ensures 0 <= elapsed ==> 0.0 <= t
  {
    var f := elapsed as real / InterpolationDuration as real;
    if f < 1.0 then f else 1.0
  }

  /** The position an agent is drawn at, at time `now`. */
  function PositionAt(a: Agent, now: int): seq<real>
    requires |a.startPosition| <= |a.endPosition|
  {
    Lerp(a.startPosition, a.endPosition, Progress(now - a.startTime))
  }

  /** `updateAgentPositions()` at time `now`: every agent's `position` is reset from
      its start, end and start time; nothing else changes. */
  function Tick(agents: seq<Agent>, now: int): (result: seq<Agent>)
    requires AllShaped(agents)
    ensures |result| == |agents|
    ensures forall i :: 0 <= i < |agents| ==>
      result[i] == agents[i].(position := PositionAt(agents[i], now))
  {
    seq(|agents|, i requires 0 <= i < |agents| => agents[i].(position := PositionAt(agents[i], now)))
  }

  /** One second after its start time an agent is drawn exactly at its target, and
      at its start time exactly at its start; in between it stays on the segment. */
  lemma TickPositions(agents: seq<Agent>, now: int)
    requires AllShaped(agents)
    ensures AllShaped(Tick(agents, now))
    ensures forall i :: 0 <= i < |agents| && now - agents[i].startTime >= InterpolationDuration ==>
      Tick(agents, now)[i].position == agents[i].endPosition
    ensures forall i :: 0 <= i < |agents| && now == agents[i].startTime ==>
      Tick(agents, now)[i].position == agents[i].startPosition
    ensures forall i, k :: 0 <= i < |agents| && agents[i].startTime <= now && 0 <= k < 3 ==>
      var a := agents[i];
      var p := Tick(agents, now)[i].position;
      (a.startPosition[k] <= a.endPosition[k] ==> a.startPosition[k] <= p[k] <= a.endPosition[k]) &&
      (a.endPosition[k] <= a.startPosition[k] ==> a.endPosition[k] <= p[k] <= a.startPosition[k])
  {
    forall i | 0 <= i < |agents|
      ensures now - agents[i].startTime >= InterpolationDuration ==>
        Tick(agents, now)[i].position == agents[i].endPosition
      ensures now == agents[i].startTime ==> Tick(agents, now)[i].position == agents[i].startPosition
      ensures agents[i].startTime <= now ==> forall k :: 0 <= k < 3 ==>
        var a := agents[i];
        var p := Tick(agents, now)[i].position;
        (a.startPosition[k] <= a.endPosition[k] ==> a.startPosition[k] <= p[k] <= a.endPosition[k]) &&
        (a.endPosition[k] <= a.startPosition[k] ==> a.endPosition[k] <= p[k] <= a.startPosition[k])
    {
      var a := agents[i];
      LerpEndpoints(a.startPosition, a.endPosition);
      var t := Progress(now - a.startTime);
      if a.startTime <= now {
        LerpBetween(a.startPosition, a.endPosition, t, t);
      }
      if now == a.startTime {
        assert t == 0.0;
      }
    }
  }

  /** The example of an agent at (0,0,0) sent to (2,0,0): half a second later it is
      drawn at (1,0,0). */
  lemma HalfwayExample(t0: int)
    ensures var a := Spawn(Report("car", 0.0, 0.0, 0.0, ">"), t0 - 2000);
      var moved := ApplyReport([a], Report("car", 2.0, 0.0, 0.0, ">"), t0);
      Tick(moved, t0 + 500) == [moved[0].(position := [1.0, 0.0, 0.0])]
  {
    var a := Spawn(Report("car", 0.0, 0.0, 0.0, ">"), t0 - 2000);
    var r := Report("car", 2.0, 0.0, 0.0, ">");
    assert Differs(a, r);
    var moved := ApplyReport([a], r, t0);
    assert moved == [Retarget(a, r, t0)];
    assert Progress(500) == 0.5;
    assert PositionAt(moved[0], t0 + 500) == [1.0, 0.0, 0.0];
  }

  /** The change test looks at the drawn position, not at the target: an agent
      still on its way that is reported again at its own target restarts its
      one-second animation from where it is drawn. */
  lemma RepeatedTargetRestarts(a: Agent, now: int)
    requires Shaped(a) && a.position != a.endPosition
    ensures var r := Report(a.id, a.endPosition[0], a.endPosition[1], a.endPosition[2], a.symbol);
      ApplyReport([a], r, now) == [a.(startPosition := a.position, startTime := now,
                                      rotation := RotationFromDirection(a.symbol))]
  {
    var r := Report(a.id, a.endPosition[0], a.endPosition[1], a.endPosition[2], a.symbol);
    assert Xyz(r) == a.endPosition;
    assert a.position == [a.position[0], a.position[1], a.position[2]];
    assert a.endPosition == [a.endPosition[0], a.endPosition[1], a.endPosition[2]];
    assert Differs(a, r);
  }

  /** The agents of the scene (`agents` in the source), owned by one object. */
  class AgentTable {
    var agents: seq<Agent>

    ghost predicate Valid()
      reads this
    {
      WellFormed(agents)
    }

    constructor ()
      ensures Valid() && agents == []
    {
      agents := [];
    }

    /** The index of the first agent with this id (`agents.find`). */
    method Find(id: AgentId) returns (r: Option<nat>)
      ensures r == IndexOf(agents, id)
    {
      var i := 0;
      while i < |agents|
        invariant 0 <= i <= |agents|
        invariant forall j :: 0 <= j < i ==> agents[j].id != id
      {
        if agents[i].id == id {
          r := Some(i);
          IndexOfFirst(agents, id, i);
          return;
        }
        i := i + 1;
      }
      r := None;
      assert id !in Ids(agents);
    }

    /** The snapshot handler of `getAgents` (its fetch is the caller's): reports are
        applied one by one, then the unreported agents are dropped; an empty
        snapshot returns early. */
    method OnSnapshot(positions: seq<Report>, now: int)
      requires Valid()
      modifies this
      ensures Valid()
      ensures agents == Merge(old(agents), positions, now)
    {
      if |positions| == 0 {
        return;
      }
      ghost var start := agents;
      var updatedIds: set<AgentId> := {};
      var n := 0;
      while n < |positions|
        invariant 0 <= n <= |positions|
        invariant Valid()
        invariant agents == ApplyReports(start, positions[..n], now)
        invariant updatedIds == ReportedIds(positions[..n])
      {
        var r := positions[n];
        Apply(r, now);
        ApplyReportsPrefix(start, positions, n, now);
        updatedIds := updatedIds + {r.id};
        n := n + 1;
      }
      assert positions[..n] == positions;
      agents := KeepOnly(agents, updatedIds);
      MergeWellFormed(start, positions, now);
    }

    /** One report of a snapshot: a new agent is appended, a known one whose position
        or symbol changed is sent towards the reported position. */
    method Apply(r: Report, now: int)
      requires Valid()
      modifies this
      ensures Valid()
      ensures agents == ApplyReport(old(agents), r, now)
    {
      var found := Find(r.id);
      match found {
        case None =>
          agents := agents + [Spawn(r, now)];
        case Some(i) =>
          if Differs(agents[i], r) {
            agents := agents[i := Retarget(agents[i], r, now)];
          }
      }
      ApplyReportWellFormed(old(agents), r, now);
    }

    /** `updateAgentPositions()` at time `now`. */
    method UpdatePositions(now: int)
      requires Valid()
      modifies this
      ensures Valid()
      ensures agents == Tick(old(agents), now)
    {
      var i := 0;
      ghost var start := agents;
      while i < |agents|
        invariant 0 <= i <= |agents| == |start|
        invariant forall j :: 0 <= j < i ==> agents[j] == start[j].(position := PositionAt(start[j], now))
        invariant forall j :: i <= j < |agents| ==> agents[j] == start[j]
      {
        var a := agents[i];
        assert a in start;
        agents := agents[i := a.(position := Lerp(a.startPosition, a.endPosition, Progress(now - a.startTime)))];
        i := i + 1;
      }
      TickPositions(start, now);
      assert agents == Tick(start, now);
      assert forall j :: 0 <= j < |agents| ==> agents[j].id == start[j].id;
    }
  }

  /** The filter of `getAgents`: the agents whose id was reported, in their order. */
  method KeepOnly(applied: seq<Agent>, ids: set<AgentId>) returns (kept: seq<Agent>)
    ensures kept == KeepReported(applied, ids)
  {
    kept := [];
    var k := 0;
    while k < |applied|
      invariant 0 <= k <= |applied|
      invariant kept == KeepReported(applied[..k], ids)
    {
      if applied[k].id in ids {
        kept := kept + [applied[k]];
      }
      assert applied[..k + 1][..k] == applied[..k];
      k := k + 1;
    }
    assert applied[..k] == applied;
  }

  lemma IndexOfFirst(agents: seq<Agent>, id: AgentId, i: nat)
    requires i < |agents| && agents[i].id == id
    requires forall j :: 0 <= j < i ==> agents[j].id != id
    ensures IndexOf(agents, id) == Some(i)
  {
    var r := IndexOf(agents, id);
    assert id in Ids(agents) by { assert agents[i] in agents; }
    assert r.Some?;
    if r.value < i {
    } else if r.value > i {
    }
  }
}
