/**
 The per-scene kinematics table written by the extraction script: its column
 layout for the three output modes, and the distance-travelled columns, which
 accumulate the distance between consecutive positions of each agent.
 */
module KinematicOutput {
  import opened ConvoyData

  /** c0 is the convoy head, c1 its follower, i{j} the j-th independent. */
  datatype Agent = Followed | Follower | Independent(index: nat)

  /** The a, v and p suffixes: acceleration, velocity and distance travelled. */
  datatype Quantity = Acceleration | Velocity | Position

  datatype Column = TimeIndex | Value(agent: Agent, quantity: Quantity)

  datatype Mode = AccelerationOnly | VelocityOnly | AllKinematic

  /** The all-variables flag takes precedence over the velocity flag; acceleration is the default. */
  function ModeOf(velocityVariables: bool, allKinematicVariables: bool): Mode
  {
    if allKinematicVariables then AllKinematic
    else if velocityVariables then VelocityOnly
    else AccelerationOnly
  }

  /** The quantities written for each agent, in column order. */
  function Quantities(mode: Mode): seq<Quantity>
  {
    match mode
    case AllKinematic => [Acceleration, Velocity, Position]
    case VelocityOnly => [Velocity]
    case AccelerationOnly => [Acceleration]
  }

  function Independents(count: nat): seq<Agent>
  {
    if count == 0 then [] else Independents(count - 1) + [Independent(count - 1)]
  }

  /** The agents of a scene in column order. */
  function Agents(count: nat): seq<Agent>
  {
    [Followed, Follower] + Independents(count)
  }

  function AgentColumns(agent: Agent, quantities: seq<Quantity>): seq<Column>
  {
    seq(|quantities|, k requires 0 <= k < |quantities| => Value(agent, quantities[k]))
  }

  /** The columns of the agents, agent by agent. */
  function ColumnsOf(agents: seq<Agent>, quantities: seq<Quantity>): seq<Column>
  {
    if agents == [] then []
    else ColumnsOf(agents[..|agents| - 1], quantities) + AgentColumns(agents[|agents| - 1], quantities)
  }

  /** The header of the table for `count` independents. */
  function Layout(count: nat, mode: Mode): seq<Column>
  {
    [TimeIndex] + ColumnsOf(Agents(count), Quantities(mode))
  }

  /** The columns of one agent in each mode, as the header loop spells them out. */
  lemma ModeColumns(agent: Agent, mode: Mode)
    ensures AgentColumns(agent, Quantities(mode))
            == match mode
               case AllKinematic => [Value(agent, Acceleration), Value(agent, Velocity), Value(agent, Position)]
               case VelocityOnly => [Value(agent, Velocity)]
               case AccelerationOnly => [Value(agent, Acceleration)]
  {
  }

  /** Adding an independent adds its columns at the end. */
  lemma ColumnsStep(i: nat, quantities: seq<Quantity>)
    ensures ColumnsOf(Agents(i + 1), quantities) == ColumnsOf(Agents(i), quantities) + AgentColumns(Independent(i), quantities)
  {
    assert Independents(i + 1) == Independents(i) + [Independent(i)];
    assert Agents(i + 1)[..|Agents(i + 1)| - 1] == Agents(i);
  }

  /** Without independents, the columns are those of the head and the follower. */
  lemma ColumnsOfPair(quantities: seq<Quantity>)
    ensures ColumnsOf(Agents(0), quantities) == AgentColumns(Followed, quantities) + AgentColumns(Follower, quantities)
  {
    assert Agents(0) == [Followed, Follower];
    assert [Followed, Follower][..1] == [Followed] && [Followed][..0] == [];
    assert ColumnsOf([Followed], quantities) == AgentColumns(Followed, quantities);
  }

  /**
   The header loop: the head's and follower's columns for the mode, then one
   group per independent, with time_index put first.
   */
  method FieldNames(count: nat, velocityVariables: bool, allKinematicVariables: bool) returns (fieldNames: seq<Column>)
    ensures fieldNames == Layout(count, ModeOf(velocityVariables, allKinematicVariables))
  {
    var mode := ModeOf(velocityVariables, allKinematicVariables);
    var quantities := Quantities(mode);
    ModeColumns(Followed, mode);
    ModeColumns(Follower, mode);
    if allKinematicVariables {
      fieldNames := [Value(Followed, Acceleration), Value(Followed, Velocity), Value(Followed, Position),
                     Value(Follower, Acceleration), Value(Follower, Velocity), Value(Follower, Position)];
    } else if velocityVariables {
      fieldNames := [Value(Followed, Velocity), Value(Follower, Velocity)];
    } else {
      fieldNames := [Value(Followed, Acceleration), Value(Follower, Acceleration)];
    }
    ColumnsOfPair(quantities);
    for i := 0 to count
      invariant fieldNames == ColumnsOf(Agents(i), quantities)
    {
      ColumnsStep(i, quantities);
      ModeColumns(Independent(i), mode);
      if allKinematicVariables {
        fieldNames := fieldNames + [Value(Independent(i), Acceleration), Value(Independent(i), Velocity),
                                    Value(Independent(i), Position)];
      } else if velocityVariables {
        fieldNames := fieldNames + [Value(Independent(i), Velocity)];
      } else {
        fieldNames := fieldNames + [Value(Independent(i), Acceleration)];
      }
    }
    fieldNames := [TimeIndex] + fieldNames;
  }

  lemma {:induction false} ColumnsOfMembers(agents: seq<Agent>, quantities: seq<Quantity>, c: Column)
    ensures c in ColumnsOf(agents, quantities) <==> c.Value? && c.agent in agents && c.quantity in quantities
  {
    if agents != [] {
      var pre := agents[..|agents| - 1];
      var last := agents[|agents| - 1];
      ColumnsOfMembers(pre, quantities, c);
      assert agents == pre + [last];
      if c.Value? && c.agent == last && c.quantity in quantities {
        var k :| 0 <= k < |quantities| && quantities[k] == c.quantity;
        assert AgentColumns(last, quantities)[k] == c;
      }
    }
  }

  lemma {:induction false} ColumnsOfLength(agents: seq<Agent>, quantities: seq<Quantity>)
    ensures |ColumnsOf(agents, quantities)| == |agents| * |quantities|
  {
    if agents != [] {
      ColumnsOfLength(agents[..|agents| - 1], quantities);
      assert (|agents| - 1) * |quantities| + |quantities| == |agents| * |quantities|;
    }
  }

  lemma {:induction false} ColumnsOfDistinct(agents: seq<Agent>, quantities: seq<Quantity>)
    requires Distinct(agents) && Distinct(quantities)
    ensures Distinct(ColumnsOf(agents, quantities))
  {
    if agents != [] {
      var pre, last := agents[..|agents| - 1], agents[|agents| - 1];
      ColumnsOfDistinct(pre, quantities);
      var a, b := ColumnsOf(pre, quantities), AgentColumns(last, quantities);
      forall i, j | 0 <= i < |a| && 0 <= j < |b|
        ensures a[i] != b[j]
      {
        ColumnsOfMembers(pre, quantities, a[i]);
      }
    }
  }

  lemma {:induction false} IndependentsMembers(count: nat, a: Agent)
    ensures |Independents(count)| == count
    ensures a in Independents(count) <==> a.Independent? && a.index < count
    ensures Distinct(Independents(count))
  {
    if count > 0 {
      IndependentsMembers(count - 1, a);
      IndependentsMembers(count - 1, Independent(count - 1));
    }
  }

  /** Head, follower and the `count` independents, each once. */
  lemma AgentsShape(count: nat)
    ensures |Agents(count)| == count + 2
    ensures Distinct(Agents(count))
    ensures forall a :: a in Agents(count) <==> (a.Independent? ==> a.index < count)
  {
    forall a: Agent
      ensures a in Agents(count) <==> (a.Independent? ==> a.index < count)
    {
      IndependentsMembers(count, a);
    }
    IndependentsMembers(count, Followed);
    forall k | 0 <= k < count
      ensures Independents(count)[k].Independent?
    {
      IndependentsMembers(count, Independents(count)[k]);
    }
  }

  /**
   The header has one time_index column first, then for every agent one
   column per quantity of the mode, each column once: head, follower and the
   independents i0 up to i{count-1}.
   */
  lemma LayoutShape(count: nat, mode: Mode)
    ensures |Layout(count, mode)| == 1 + |Quantities(mode)| * (count + 2)
    ensures Layout(count, mode)[0] == TimeIndex
    ensures Distinct(Layout(count, mode))
    ensures forall a, q :: Value(a, q) in Layout(count, mode)
                           <==> (a.Independent? ==> a.index < count) && q in Quantities(mode)
  {
    var agents, quantities := Agents(count), Quantities(mode);
    AgentsShape(count);
    ColumnsOfLength(agents, quantities);
    assert |agents| * |quantities| == |quantities| * (count + 2);
    ColumnsOfDistinct(agents, quantities);
    forall a, q
      ensures Value(a, q) in Layout(count, mode) <==> (a.Independent? ==> a.index < count) && q in quantities
    {
      ColumnsOfMembers(agents, quantities, Value(a, q));
    }
    forall i | 0 < i < |Layout(count, mode)|
      ensures Layout(count, mode)[i] != TimeIndex
    {
      ColumnsOfMembers(agents, quantities, Layout(count, mode)[i]);
    }
  }

  datatype Point = Point(x: real, y: real)

  /**
   The distance between two positions; the script takes the Euclidean norm
   of their difference, which this model leaves abstract.
   */
  type Distance = (Point, Point) -> real

  ghost predicate NonNegative(distance: Distance)
  {
    forall p, q :: distance(p, q) >= 0.0
  }

  /**
   The distance travelled up to each sample: 0 at the first, then the
   previous value plus the distance from the previous position.
   */
  function CumulativeDistance(positions: seq<Point>, distance: Distance): (r: seq<real>)
    ensures |r| == |positions|
  {
    if |positions| <= 1 then (if positions == [] then [] else [0.0])
    else
      var n := |positions|;
      var pre := CumulativeDistance(positions[..n - 1], distance);
      pre + [pre[n - 2] + distance(positions[n - 1], positions[n - 2])]
  }

  /** The distance travelled starts at 0 and never decreases. */
  lemma {:induction false} DistanceNeverDecreases(positions: seq<Point>, distance: Distance)
    requires NonNegative(distance)
    ensures positions != [] ==> CumulativeDistance(positions, distance)[0] == 0.0
    ensures forall i, j :: 0 <= i <= j < |positions| ==>
      0.0 <= CumulativeDistance(positions, distance)[i] <= CumulativeDistance(positions, distance)[j]
  {
    if |positions| > 1 {
      var n := |positions|;
      DistanceNeverDecreases(positions[..n - 1], distance);
      assert distance(positions[n - 1], positions[n - 2]) >= 0.0;
    }
  }

  /** Each step adds exactly the distance between consecutive positions. */
  lemma {:induction false} DistanceSteps(positions: seq<Point>, distance: Distance)
    ensures forall i :: 0 < i < |positions| ==>
      CumulativeDistance(positions, distance)[i]
      == CumulativeDistance(positions, distance)[i - 1] + distance(positions[i], positions[i - 1])
  {
    if |positions| > 1 {
      var n := |positions|;
      DistanceSteps(positions[..n - 1], distance);
    }
  }

  /**
   One `*_distance_travelled` variable with its `*_previous_position`: no
   distance before the first sample, and the previous position is only read
   once a distance exists.
   */
  datatype Accumulator = Accumulator(travelled: Option<real>, previous: Point)

  const Fresh := Accumulator(None, Point(0.0, 0.0))

  /** The accumulator after one more sample: 0 at the first, else plus the distance from the previous position. */
  function Advance(acc: Accumulator, position: Point, distance: Distance): Accumulator
  {
    if acc.travelled.None? then Accumulator(Some(0.0), position)
    else Accumulator(Some(acc.travelled.value + distance(position, acc.previous)), position)
  }

  /** The accumulator has walked the positions `walked` and written `column`. */
  predicate Walked(acc: Accumulator, walked: seq<Point>, column: seq<real>, distance: Distance)
  {
    && column == CumulativeDistance(walked, distance)
    && (walked == [] <==> acc.travelled.None?)
    && (walked != [] ==> acc.travelled == Some(column[|column| - 1]) && acc.previous == walked[|walked| - 1])
  }

  /** Advancing the accumulator by one position writes the next cumulative distance. */
  lemma AdvanceWalks(acc: Accumulator, walked: seq<Point>, column: seq<real>, position: Point, distance: Distance)
    requires Walked(acc, walked, column, distance)
    ensures Advance(acc, position, distance).travelled.Some?
    ensures Walked(Advance(acc, position, distance), walked + [position],
                   column + [Advance(acc, position, distance).travelled.value], distance)
  {
    assert (walked + [position])[..|walked|] == walked;
  }

  /** One more sample of the same sequence of positions. */
  lemma AdvanceAlong(acc: Accumulator, positions: seq<Point>, i: nat, column: seq<real>, distance: Distance)
    requires i < |positions| && Walked(acc, positions[..i], column, distance)
    ensures Advance(acc, positions[i], distance).travelled.Some?
    ensures Walked(Advance(acc, positions[i], distance), positions[..i + 1],
                   column + [Advance(acc, positions[i], distance).travelled.value], distance)
  {
    assert positions[..i + 1] == positions[..i] + [positions[i]];
    AdvanceWalks(acc, positions[..i], column, positions[i], distance);
  }

  /** One accumulator run over a whole sequence of positions. */
  method AccumulateDistance(positions: seq<Point>, distance: Distance) returns (column: seq<real>)
    ensures column == CumulativeDistance(positions, distance)
  {
    column := [];
    var acc := Fresh;
    for i := 0 to |positions|
      invariant Walked(acc, positions[..i], column, distance)
    {
      AdvanceAlong(acc, positions, i, column, distance);
      acc := Advance(acc, positions[i], distance);
      column := column + [acc.travelled.value];
    }
    assert positions[..|positions|] == positions;
  }

  /** The positions of the independents at row `i`, in the order of the dictionary of independents. */
  function RowSlice(independents: seq<seq<Point>>, i: nat): (r: seq<Point>)
    requires forall j :: 0 <= j < |independents| ==> i < |independents[j]|
    ensures |r| == |independents|
  {
    seq(|independents|, j requires 0 <= j < |independents| && i < |independents[j]| => independents[j][i])
  }

  /** The positions of the independents visited row by row, each row in independent order. */
  function RowMajor(independents: seq<seq<Point>>, rows: nat): seq<Point>
    requires forall j :: 0 <= j < |independents| ==> rows <= |independents[j]|
  {
    if rows == 0 then [] else RowMajor(independents, rows - 1) + RowSlice(independents, rows - 1)
  }

  function Concat(table: seq<seq<real>>): seq<real>
  {
    if table == [] then [] else Concat(table[..|table| - 1]) + table[|table| - 1]
  }

  lemma ConcatStep(table: seq<seq<real>>, row: seq<real>)
    ensures Concat(table + [row]) == Concat(table) + row
  {
    assert (table + [row])[..|table|] == table;
  }

  /** The number of rows: `zip` stops at the shorter of the two convoy agents' frame lists. */
  function RowCount(followed: seq<Point>, follower: seq<Point>): nat
  {
    if |followed| <= |follower| then |followed| else |follower|
  }

  /**
   The position columns as the script writes them in the all-variables mode:
   c0.p and c1.p each have their own accumulator, but all independents share
   a single one, which walks the independents' positions row by row.
   `independentRows[i][j]` is the value of i{j}.p in row i.
   */
  method PositionColumns(followed: seq<Point>, follower: seq<Point>, independents: seq<seq<Point>>,
                         distance: Distance)
    returns (c0: seq<real>, c1: seq<real>, independentRows: seq<seq<real>>)
    requires forall j :: 0 <= j < |independents| ==> RowCount(followed, follower) <= |independents[j]|
    ensures c0 == CumulativeDistance(followed[..RowCount(followed, follower)], distance)
    ensures c1 == CumulativeDistance(follower[..RowCount(followed, follower)], distance)
    ensures |independentRows| == RowCount(followed, follower)
    ensures forall i :: 0 <= i < |independentRows| ==> |independentRows[i]| == |independents|
    ensures Concat(independentRows) == CumulativeDistance(RowMajor(independents, RowCount(followed, follower)), distance)
  {
    var rows := RowCount(followed, follower);
    c0, c1, independentRows := [], [], [];
    var followedAcc, followerAcc, independentAcc := Fresh, Fresh, Fresh;
    for i := 0 to rows
      invariant Walked(followedAcc, followed[..i], c0, distance)
      invariant Walked(followerAcc, follower[..i], c1, distance)
      invariant Walked(independentAcc, RowMajor(independents, i), Concat(independentRows), distance)
      invariant |independentRows| == i
      invariant forall k :: 0 <= k < i ==> |independentRows[k]| == |independents|
    {
      AdvanceAlong(followedAcc, followed, i, c0, distance);
      followedAcc := Advance(followedAcc, followed[i], distance);
      c0 := c0 + [followedAcc.travelled.value];

      AdvanceAlong(followerAcc, follower, i, c1, distance);
      followerAcc := Advance(followerAcc, follower[i], distance);
      c1 := c1 + [followerAcc.travelled.value];

      var row;
      independentAcc, row := AccumulateRow(independentAcc, RowMajor(independents, i), Concat(independentRows),
                                           RowSlice(independents, i), distance);
      ConcatStep(independentRows, row);
      independentRows := independentRows + [row];
    }
  }

  /**
   The inner loop over the independents of one row, with the accumulator they
   share; `walked` and `written` are what it has walked and written before.
   */
  method AccumulateRow(acc: Accumulator, ghost walked: seq<Point>, ghost written: seq<real>,
                       positions: seq<Point>, distance: Distance)
    returns (acc': Accumulator, row: seq<real>)
    requires Walked(acc, walked, written, distance)
    ensures |row| == |positions|
    ensures Walked(acc', walked + positions, written + row, distance)
  {
    acc', row := acc, [];
    ghost var w, c := walked, written;
    for j := 0 to |positions|
      invariant |row| == j
      invariant w == walked + positions[..j] && c == written + row
      invariant Walked(acc', w, c, distance)
    {
      AdvanceWalks(acc', w, c, positions[j], distance);
      acc' := Advance(acc', positions[j], distance);
      assert positions[..j + 1] == positions[..j] + [positions[j]];
      w, c, row := w + [positions[j]], c + [acc'.travelled.value], row + [acc'.travelled.value];
    }
    assert positions[..|positions|] == positions;
  }

  /** A distance that is 0 between equal positions and 1 between different ones. */
  function Discrete(p: Point, q: Point): real
  {
    if p == q then 0.0 else 1.0
  }

  lemma AlternatingRows(a: Point, b: Point)
    ensures RowMajor([[a, a], [b, b]], 2) == [a, b, a, b]
  {
    var independents := [[a, a], [b, b]];
    assert RowSlice(independents, 0) == [a, b];
    assert RowSlice(independents, 1) == [a, b];
    assert RowMajor(independents, 1) == [a, b];
  }

  /**
   With the shared accumulator, two independents that never move are written
   distances 0, 1 in the first row and 2, 3 in the second: each value carries
   the jumps between the two agents' positions.
   */
  lemma SharedAccumulatorMixesAgents()
    ensures var independents := [[Point(0.0, 0.0), Point(0.0, 0.0)], [Point(10.0, 0.0), Point(10.0, 0.0)]];
            && CumulativeDistance(RowMajor(independents, 2), Discrete) == [0.0, 1.0, 2.0, 3.0]
            && CumulativeDistance(independents[0], Discrete) == [0.0, 0.0]
            && CumulativeDistance(independents[1], Discrete) == [0.0, 0.0]
  {
    var a, b := Point(0.0, 0.0), Point(10.0, 0.0);
    var independents := [[a, a], [b, b]];
    AlternatingRows(a, b);
    assert [a, b, a, b][..3] == [a, b, a] && [a, b, a][..2] == [a, b] && [a, b][..1] == [a];
    assert CumulativeDistance([a, b], Discrete) == [0.0, 1.0];
    assert CumulativeDistance([a, b, a], Discrete) == [0.0, 1.0, 2.0];
    assert [a, a][..1] == [a] && [b, b][..1] == [b];
  }

  /**
   The position columns of the independents with one accumulator per agent,
   as c0.p and c1.p have: column j is the distance travelled by independent j
   over the rows.
   */
  method IndependentDistances(independents: seq<seq<Point>>, rows: nat, distance: Distance)
    returns (columns: seq<seq<real>>)
    requires forall j :: 0 <= j < |independents| ==> rows <= |independents[j]|
    ensures |columns| == |independents|
    ensures forall j :: 0 <= j < |independents| ==>
      columns[j] == CumulativeDistance(independents[j][..rows], distance)
  {
    columns := [];
    for j := 0 to |independents|
      invariant |columns| == j
      invariant forall k :: 0 <= k < j ==> columns[k] == CumulativeDistance(independents[k][..rows], distance)
    {
      var column := AccumulateDistance(independents[j][..rows], distance);
      columns := columns + [column];
    }
  }

  /** An agent that stays in place travels no distance, whatever the other agents do. */
  lemma {:induction false} StationaryAgentTravelsNothing(positions: seq<Point>, distance: Distance)
    requires forall p :: distance(p, p) == 0.0
    requires forall k :: 0 <= k < |positions| ==> positions[k] == positions[0]
    ensures forall k :: 0 <= k < |positions| ==> CumulativeDistance(positions, distance)[k] == 0.0
  {
    if |positions| > 1 {
      var n := |positions|;
      StationaryAgentTravelsNothing(positions[..n - 1], distance);
      assert distance(positions[n - 1], positions[n - 2]) == 0.0;
    }
  }
}
