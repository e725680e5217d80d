/**
 Window negotiation: starting from a convoy pair's shared window and the
 head's lane, the greedy pass over all candidate agents (in `valid_tracks`
 order) that admits independents which keep the window long enough and bring
 a lane not yet used, and marks the participants as used.
 */
module Negotiation {
  import opened ConvoyData

  /** The lane an agent is taken to drive in: that of its first frame, if any. */
  function FirstLane(frames: seq<Frame>): Option<int>
  {
    if frames == [] then None else Some(frames[0].laneId)
  }

  /**
   Why an agent is not admitted against the window [start, end] and the lanes
   used so far: the shared window would be too short, or its lane is unknown
   or already used.
   */
  predicate Unsuitable(row: TrackMeta, frames: seq<Frame>, start: int, end: int, lanes: seq<int>, frameRate: int)
  {
    || !LongEnough(Max(start, row.initialFrame), Min(end, row.finalFrame), frameRate)
    || FirstLane(frames).None?
    || FirstLane(frames).value in lanes
  }

  /** An agent rejected against a window and lane list stays rejected against a narrower window and more lanes. */
  lemma UnsuitablePersists(row: TrackMeta, frames: seq<Frame>, start: int, end: int, lanes: seq<int>,
                           start': int, end': int, lanes': seq<int>, frameRate: int)
    requires Unsuitable(row, frames, start, end, lanes, frameRate)
    requires start <= start' && end' <= end && Elements(lanes) <= Elements(lanes')
    ensures Unsuitable(row, frames, start', end', lanes', frameRate)
  {
    if FirstLane(frames).Some? && FirstLane(frames).value in lanes {
      assert FirstLane(frames).value in Elements(lanes);
    }
  }

  /** Every agent rejected so far stays rejected once the window narrows and a lane is added. */
  lemma RejectionsPersist(order: seq<int>, n: int, tracks: map<int, TrackMeta>, groups: map<int, seq<Frame>>,
                          used: set<int>, start: int, end: int, lanes: seq<int>, start': int, end': int,
                          lanes': seq<int>, frameRate: int)
    requires n <= |order|
    requires forall x :: 0 <= x < |order| ==> order[x] in tracks && order[x] in groups
    requires forall x :: 0 <= x < n && order[x] !in used ==>
      Unsuitable(tracks[order[x]], groups[order[x]], start, end, lanes, frameRate)
    requires start <= start' && end' <= end && Elements(lanes) <= Elements(lanes')
    ensures forall x :: 0 <= x < n && order[x] !in used ==>
      Unsuitable(tracks[order[x]], groups[order[x]], start', end', lanes', frameRate)
  {
    forall x | 0 <= x < n && order[x] !in used
      ensures Unsuitable(tracks[order[x]], groups[order[x]], start', end', lanes', frameRate)
    {
      UnsuitablePersists(tracks[order[x]], groups[order[x]], start, end, lanes, start', end', lanes', frameRate);
    }
  }

  /** The agents a scene makes used: head, tail and the independents, once one is admitted. */
  function NewlyUsed(head: int, tail: int, independents: seq<int>): set<int>
  {
    if independents == [] then {} else {head, tail} + Elements(independents)
  }

  /** The start of the window once narrowed by each independent's first frame. */
  function LatestStart(start: int, tracks: map<int, TrackMeta>, independents: seq<int>): int
    requires forall j :: 0 <= j < |independents| ==> independents[j] in tracks
  {
    if independents == [] then start
    else
      var last := independents[|independents| - 1];
      Max(LatestStart(start, tracks, independents[..|independents| - 1]), tracks[last].initialFrame)
  }

  /** The end of the window once narrowed by each independent's last frame. */
  function EarliestEnd(end: int, tracks: map<int, TrackMeta>, independents: seq<int>): int
    requires forall j :: 0 <= j < |independents| ==> independents[j] in tracks
  {
    if independents == [] then end
    else
      var last := independents[|independents| - 1];
      Min(EarliestEnd(end, tracks, independents[..|independents| - 1]), tracks[last].finalFrame)
  }

  /**
   The narrowed window lies inside the pair window, and each of its bounds is
   either the pair's own or that of an admitted independent.
   */
  lemma {:induction false} NarrowedWindow(start: int, end: int, tracks: map<int, TrackMeta>, independents: seq<int>)
    requires forall j :: 0 <= j < |independents| ==> independents[j] in tracks
    ensures start <= LatestStart(start, tracks, independents)
    ensures EarliestEnd(end, tracks, independents) <= end
    ensures LatestStart(start, tracks, independents) == start
            || exists j :: 0 <= j < |independents|
                           && LatestStart(start, tracks, independents) == tracks[independents[j]].initialFrame
    ensures EarliestEnd(end, tracks, independents) == end
            || exists j :: 0 <= j < |independents|
                           && EarliestEnd(end, tracks, independents) == tracks[independents[j]].finalFrame
  {
    if independents != [] {
      var pre := independents[..|independents| - 1];
      NarrowedWindow(start, end, tracks, pre);
      assert forall j :: 0 <= j < |pre| ==> pre[j] == independents[j];
    }
  }

  /**
   What holds of the independents admitted so far against the pair window
   [start, end] and the head's lane: each is a known candidate that was not
   used on entry and, after the first, is neither head nor tail; each brings
   a lane of its own and covers the narrowed window [newStart, newEnd], which
   is long enough and only ever narrowed to an independent's bounds.
   */
  predicate Admitted(order: seq<int>, tracks: map<int, TrackMeta>, groups: map<int, seq<Frame>>, used: set<int>,
                     head: int, tail: int, headLane: int, start: int, end: int, frameRate: int,
                     independents: seq<int>, lanes: seq<int>, newStart: int, newEnd: int)
    requires forall i :: 0 <= i < |order| ==> order[i] in tracks && order[i] in groups
  {
    && (forall j :: 0 <= j < |independents| ==> independents[j] in order && independents[j] !in used)
    && newStart == LatestStart(start, tracks, independents)
    && newEnd == EarliestEnd(end, tracks, independents)
    && LongEnough(newStart, newEnd, frameRate)
    && |lanes| == 1 + |independents| && lanes[0] == headLane && Distinct(lanes)
    && (forall j :: 0 <= j < |independents| ==>
          && (j > 0 ==> independents[j] != head && independents[j] != tail)
          && FirstLane(groups[independents[j]]) == Some(lanes[j + 1])
          && tracks[independents[j]].initialFrame <= newStart
          && newEnd <= tracks[independents[j]].finalFrame)
  }

  /** Independents bring distinct lanes, so no agent is admitted twice. */
  lemma AdmittedDistinct(order: seq<int>, tracks: map<int, TrackMeta>, groups: map<int, seq<Frame>>, used: set<int>,
                         head: int, tail: int, headLane: int, start: int, end: int, frameRate: int,
                         independents: seq<int>, lanes: seq<int>, newStart: int, newEnd: int)
    requires forall i :: 0 <= i < |order| ==> order[i] in tracks && order[i] in groups
    requires Admitted(order, tracks, groups, used, head, tail, headLane, start, end, frameRate,
                      independents, lanes, newStart, newEnd)
    ensures Distinct(independents)
  {
    forall a, b | 0 <= a < b < |independents|
      ensures independents[a] != independents[b]
    {
      assert lanes[a + 1] != lanes[b + 1];
    }
  }

  /** Admitting a suitable, unused agent keeps what holds of the independents. */
  lemma AdmitKeeps(order: seq<int>, tracks: map<int, TrackMeta>, groups: map<int, seq<Frame>>, used: set<int>,
                   head: int, tail: int, headLane: int, start: int, end: int, frameRate: int,
                   independents: seq<int>, lanes: seq<int>, newStart: int, newEnd: int, k: int, lane: int)
    requires forall i :: 0 <= i < |order| ==> order[i] in tracks && order[i] in groups
    requires Admitted(order, tracks, groups, used, head, tail, headLane, start, end, frameRate,
                      independents, lanes, newStart, newEnd)
    requires k in order
    requires k !in used + NewlyUsed(head, tail, independents)
    requires LongEnough(Max(newStart, tracks[k].initialFrame), Min(newEnd, tracks[k].finalFrame), frameRate)
    requires FirstLane(groups[k]) == Some(lane) && lane !in lanes
    ensures Admitted(order, tracks, groups, used, head, tail, headLane, start, end, frameRate,
                     independents + [k], lanes + [lane],
                     Max(newStart, tracks[k].initialFrame), Min(newEnd, tracks[k].finalFrame))
  {
    var independents', lanes' := independents + [k], lanes + [lane];
    var n := |independents|;
    assert independents'[..n] == independents;
    assert forall j :: 0 <= j < n ==> independents'[j] == independents[j];
    assert independents'[n] == k;
    assert forall j :: 0 <= j < n ==> independents[j] in Elements(independents);
  }

  /** What the greedy pass has settled after some agents: admissions, lanes, window and used agents. */
  datatype Progress = Progress(independents: seq<int>, lanes: seq<int>, start: int, end: int, used: set<int>)

  /**
   The pass over one agent k: it is admitted when it is unused, keeps the
   window long enough and brings a lane not yet taken; the window then
   narrows to it and k, head and tail become used.
   */
  function Consider(p: Progress, k: int, tracks: map<int, TrackMeta>, groups: map<int, seq<Frame>>,
                    head: int, tail: int, frameRate: int): Progress
    requires k in tracks && k in groups
  {
    var start := Max(p.start, tracks[k].initialFrame);
    var end := Min(p.end, tracks[k].finalFrame);
    var lane := FirstLane(groups[k]);
    if k !in p.used && LongEnough(start, end, frameRate) && lane.Some? && lane.value !in p.lanes
    then Progress(p.independents + [k], p.lanes + [lane.value], start, end, p.used + {k, head, tail})
    else p
  }

  /**
   The greedy first-come pass over the first n agents of `order`, as a
   reference definition: each agent is considered once, in order, against
   what the earlier ones left.
   */
  function Greedy(order: seq<int>, n: nat, tracks: map<int, TrackMeta>, groups: map<int, seq<Frame>>, used: set<int>,
                  head: int, tail: int, headLane: int, start: int, end: int, frameRate: int): (r: Progress)
    requires n <= |order|
    requires forall i :: 0 <= i < |order| ==> order[i] in tracks && order[i] in groups
    ensures forall j :: 0 <= j < |r.independents| ==> r.independents[j] in tracks && r.independents[j] in groups
  {
    if n == 0 then Progress([], [headLane], start, end, used)
    else Consider(Greedy(order, n - 1, tracks, groups, used, head, tail, headLane, start, end, frameRate),
                  order[n - 1], tracks, groups, head, tail, frameRate)
  }

  /**
   What holds after the greedy pass over the first n agents: the admissions
   are admitted against the pair window, the used set has grown by exactly
   the scene's agents, and every agent passed over and still unused is
   unsuitable against the current window and lanes.
   */
  predicate Settled(order: seq<int>, n: nat, tracks: map<int, TrackMeta>, groups: map<int, seq<Frame>>, used: set<int>,
                    head: int, tail: int, headLane: int, start: int, end: int, frameRate: int, g: Progress)
    requires n <= |order|
    requires forall i :: 0 <= i < |order| ==> order[i] in tracks && order[i] in groups
  {
    && Admitted(order, tracks, groups, used, head, tail, headLane, start, end, frameRate,
                g.independents, g.lanes, g.start, g.end)
    && start <= g.start && g.end <= end
    && g.used == used + NewlyUsed(head, tail, g.independents)
    && forall x :: 0 <= x < n && order[x] !in g.used ==>
         Unsuitable(tracks[order[x]], groups[order[x]], g.start, g.end, g.lanes, frameRate)
  }

  /** Before any agent is considered, the pair window and the head's lane are settled. */
  lemma SettledAtStart(order: seq<int>, tracks: map<int, TrackMeta>, groups: map<int, seq<Frame>>, used: set<int>,
                       head: int, tail: int, headLane: int, start: int, end: int, frameRate: int)
    requires forall i :: 0 <= i < |order| ==> order[i] in tracks && order[i] in groups
    requires LongEnough(start, end, frameRate)
    ensures Settled(order, 0, tracks, groups, used, head, tail, headLane, start, end, frameRate,
                    Progress([], [headLane], start, end, used))
  {
  }

  /** Considering the next agent keeps what the pass has settled. */
  lemma ConsiderKeeps(order: seq<int>, n: nat, tracks: map<int, TrackMeta>, groups: map<int, seq<Frame>>,
                      used: set<int>, head: int, tail: int, headLane: int, start: int, end: int, frameRate: int)
    requires n < |order|
    requires forall i :: 0 <= i < |order| ==> order[i] in tracks && order[i] in groups
    requires Settled(order, n, tracks, groups, used, head, tail, headLane, start, end, frameRate,
                     Greedy(order, n, tracks, groups, used, head, tail, headLane, start, end, frameRate))
    ensures Settled(order, n + 1, tracks, groups, used, head, tail, headLane, start, end, frameRate,
                    Greedy(order, n + 1, tracks, groups, used, head, tail, headLane, start, end, frameRate))
  {
    var p := Greedy(order, n, tracks, groups, used, head, tail, headLane, start, end, frameRate);
    var k := order[n];
    var start', end' := Max(p.start, tracks[k].initialFrame), Min(p.end, tracks[k].finalFrame);
    var lane := FirstLane(groups[k]);
    if k !in p.used && LongEnough(start', end', frameRate) && lane.Some? && lane.value !in p.lanes {
      AdmitKeeps(order, tracks, groups, used, head, tail, headLane, start, end, frameRate,
                 p.independents, p.lanes, p.start, p.end, k, lane.value);
      RejectionsPersist(order, n, tracks, groups, p.used, p.start, p.end, p.lanes,
                        start', end', p.lanes + [lane.value], frameRate);
    }
  }

  /** The greedy pass over any prefix of `order` settles what Settled states. */
  lemma {:induction false} GreedyFacts(order: seq<int>, n: nat, tracks: map<int, TrackMeta>,
                                       groups: map<int, seq<Frame>>, used: set<int>, head: int, tail: int,
                                       headLane: int, start: int, end: int, frameRate: int)
    requires n <= |order|
    requires forall i :: 0 <= i < |order| ==> order[i] in tracks && order[i] in groups
    requires LongEnough(start, end, frameRate)
    ensures Settled(order, n, tracks, groups, used, head, tail, headLane, start, end, frameRate,
                    Greedy(order, n, tracks, groups, used, head, tail, headLane, start, end, frameRate))
  {
    if n == 0 {
      SettledAtStart(order, tracks, groups, used, head, tail, headLane, start, end, frameRate);
    } else {
      GreedyFacts(order, n - 1, tracks, groups, used, head, tail, headLane, start, end, frameRate);
      ConsiderKeeps(order, n - 1, tracks, groups, used, head, tail, headLane, start, end, frameRate);
    }
  }

  /**
   The pass admits some agent exactly when some unused agent of `order` is
   suitable against the pair window and the head's lane alone: before the
   first admission nothing changes, and the first admitted agent is such
   an agent.
   */
  lemma GreedyAdmitsAny(order: seq<int>, tracks: map<int, TrackMeta>, groups: map<int, seq<Frame>>, used: set<int>,
                        head: int, tail: int, headLane: int, start: int, end: int, frameRate: int)
    requires forall i :: 0 <= i < |order| ==> order[i] in tracks && order[i] in groups
    requires LongEnough(start, end, frameRate)
    ensures Greedy(order, |order|, tracks, groups, used, head, tail, headLane, start, end, frameRate).independents != []
            <==> exists x :: 0 <= x < |order| && order[x] !in used
                             && !Unsuitable(tracks[order[x]], groups[order[x]], start, end, [headLane], frameRate)
  {
    var g := Greedy(order, |order|, tracks, groups, used, head, tail, headLane, start, end, frameRate);
    GreedyFacts(order, |order|, tracks, groups, used, head, tail, headLane, start, end, frameRate);
    if g.independents == [] {
      assert g.lanes == [headLane];
    } else {
      var k := g.independents[0];
      var x :| 0 <= x < |order| && order[x] == k;
      assert g.lanes[1] != g.lanes[0];
      assert !Unsuitable(tracks[order[x]], groups[order[x]], start, end, [headLane], frameRate);
    }
  }

  /**
   The negotiation loop. `used` is the script's `used_tracks` on entry; the
   head and tail are added to it at the first admission, so from then on they
   are skipped as well.
   */
  method Negotiate(order: seq<int>, tracks: map<int, TrackMeta>, groups: map<int, seq<Frame>>, used: set<int>,
                   head: int, tail: int, headLane: int, start: int, end: int, frameRate: int)
    returns (independents: seq<int>, lanes: seq<int>, newStart: int, newEnd: int, newUsed: set<int>)
    requires forall i :: 0 <= i < |order| ==> order[i] in tracks && order[i] in groups
    requires LongEnough(start, end, frameRate)
    ensures Progress(independents, lanes, newStart, newEnd, newUsed)
            == Greedy(order, |order|, tracks, groups, used, head, tail, headLane, start, end, frameRate)
    ensures Admitted(order, tracks, groups, used, head, tail, headLane, start, end, frameRate,
                     independents, lanes, newStart, newEnd)
    ensures Distinct(independents)
    ensures start <= newStart && newEnd <= end
    ensures newUsed == used + NewlyUsed(head, tail, independents)
    ensures forall x :: 0 <= x < |order| && order[x] !in newUsed ==>
      Unsuitable(tracks[order[x]], groups[order[x]], newStart, newEnd, lanes, frameRate)
  {
    independents, lanes := [], [headLane];
    newStart, newEnd, newUsed := start, end, used;
    for i := 0 to |order|
      invariant independents == Greedy(order, i, tracks, groups, used, head, tail, headLane, start, end, frameRate).independents
      invariant lanes == Greedy(order, i, tracks, groups, used, head, tail, headLane, start, end, frameRate).lanes
      invariant newStart == Greedy(order, i, tracks, groups, used, head, tail, headLane, start, end, frameRate).start
      invariant newEnd == Greedy(order, i, tracks, groups, used, head, tail, headLane, start, end, frameRate).end
      invariant newUsed == Greedy(order, i, tracks, groups, used, head, tail, headLane, start, end, frameRate).used
    {
      var k := order[i];
      var row := tracks[k];
      var prospectiveStart := Max(newStart, row.initialFrame);
      var prospectiveEnd := Min(newEnd, row.finalFrame);
      var lane := FirstLane(groups[k]);
      if k !in newUsed && LongEnough(prospectiveStart, prospectiveEnd, frameRate)
         && lane.Some? && lane.value !in lanes
      {
        newStart, newEnd := prospectiveStart, prospectiveEnd;
        lanes := lanes + [lane.value];
        independents := independents + [k];
        newUsed := newUsed + {k, head, tail};
      }
    }
    GreedyFacts(order, |order|, tracks, groups, used, head, tail, headLane, start, end, frameRate);
    AdmittedDistinct(order, tracks, groups, used, head, tail, headLane, start, end, frameRate,
                     independents, lanes, newStart, newEnd);
  }
}
