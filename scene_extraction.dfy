/**
 The per-recording loop of the extraction script: filter candidates, group
 the frame table, then for every volatile agent in turn try to pair it with a
 follower, negotiate independents and, when at least one is admitted, emit a
 scene trimmed to the negotiated window. Each attempt increments exactly one
 of seven outcome counters.
 */
module SceneExtraction {
  import opened ConvoyData
  import opened CandidateFilter
  import opened FrameGrouping
  import opened Pairing
  import opened Negotiation
  import opened Trimming

  /**
   An emitted scene: the descriptor fields (recording number, head, tail,
   independents in admission order), the negotiated window, the lanes used
   (head's first), and each participant's frames trimmed to the window.
   */
  datatype Scene = Scene(
    sceneId: int,
    head: int,
    tail: int,
    independents: seq<int>,
    start: int,
    end: int,
    lanes: seq<int>,
    headFrames: seq<Frame>,
    tailFrames: seq<Frame>,
    independentFrames: seq<seq<Frame>>)

  function Participants(s: Scene): set<int>
  {
    {s.head, s.tail} + Elements(s.independents)
  }

  /** The seven counters printed at the end of a recording. */
  datatype Counters = Counters(
    success: nat,
    preceding: nat,
    noFollowing: nat,
    followerNotVolatile: nat,
    followerTooFar: nat,
    tooShort: nat,
    noSuitableOther: nat)

  function Total(c: Counters): nat
  {
    c.success + c.preceding + c.noFollowing + c.followerNotVolatile + c.followerTooFar + c.tooShort + c.noSuitableOther
  }

  /** The tables every lookup of the loop relies on: volatile agents are candidates and every candidate has frames. */
  predicate Lookups(tracks: map<int, TrackMeta>, volatile: set<int>, groups: map<int, seq<Frame>>)
  {
    volatile <= tracks.Keys && tracks.Keys <= groups.Keys
  }

  /** The head passed the pair checks with this tail, and the scene's window lies inside the pair's window. */
  predicate PairedWith(s: Scene, tracks: map<int, TrackMeta>, volatile: set<int>, groups: map<int, seq<Frame>>)
    requires Lookups(tracks, volatile, groups) && s.head in volatile
  {
    && !HeadObstructed(tracks[s.head])
    && IsConsistentFollower(groups[s.head], s.tail)
    && s.tail in volatile
    && FollowerClose(tracks[s.tail])
    && Max(tracks[s.head].initialFrame, tracks[s.tail].initialFrame) <= s.start
    && s.end <= Min(tracks[s.head].finalFrame, tracks[s.tail].finalFrame)
  }

  /**
   The negotiation admitted at least one independent; the window is long
   enough, each independent covers it and brings a lane of its own, and the
   head's lane (the one recorded by the follower scan) comes first.
   */
  predicate Negotiated(s: Scene, tracks: map<int, TrackMeta>, groups: map<int, seq<Frame>>, frameRate: int)
    requires s.head in groups
  {
    && LongEnough(s.start, s.end, frameRate)
    && |s.independents| >= 1
    && Distinct(s.independents)
    && |s.lanes| == 1 + |s.independents| && Distinct(s.lanes)
    && ReportingLane(groups[s.head]) == Some(s.lanes[0])
    && (forall j :: 0 <= j < |s.independents| ==> s.independents[j] in tracks && s.independents[j] in groups)
    && (forall j :: 0 <= j < |s.independents| ==>
          && FirstLane(groups[s.independents[j]]) == Some(s.lanes[j + 1])
          && tracks[s.independents[j]].initialFrame <= s.start
          && s.end <= tracks[s.independents[j]].finalFrame)
  }

  /** Every participant's frames are its frames trimmed to the scene's window. */
  predicate Trimmed(s: Scene, groups: map<int, seq<Frame>>)
    requires s.head in groups && s.tail in groups
    requires forall j :: 0 <= j < |s.independents| ==> s.independents[j] in groups
  {
    && s.headFrames == Trim(groups[s.head], s.start, s.end)
    && s.tailFrames == Trim(groups[s.tail], s.start, s.end)
    && |s.independentFrames| == |s.independents|
    && (forall j :: 0 <= j < |s.independents| ==>
          s.independentFrames[j] == Trim(groups[s.independents[j]], s.start, s.end))
  }

  /** What every emitted scene satisfies. */
  predicate ValidScene(s: Scene, sceneId: int, tracks: map<int, TrackMeta>, volatile: set<int>,
                       groups: map<int, seq<Frame>>, frameRate: int)
  {
    && Lookups(tracks, volatile, groups)
    && s.sceneId == sceneId
    && s.head in volatile
    && PairedWith(s, tracks, volatile, groups)
    && Negotiated(s, tracks, groups, frameRate)
    && Trimmed(s, groups)
  }

  /** The trimming loop over the participants of a scene. */
  method TrimParticipants(groups: map<int, seq<Frame>>, head: int, tail: int, independents: seq<int>,
                          start: int, end: int)
    returns (headFrames: seq<Frame>, tailFrames: seq<Frame>, independentFrames: seq<seq<Frame>>)
    requires head in groups && tail in groups
    requires forall j :: 0 <= j < |independents| ==> independents[j] in groups
    ensures headFrames == Trim(groups[head], start, end)
    ensures tailFrames == Trim(groups[tail], start, end)
    ensures |independentFrames| == |independents|
    ensures forall j :: 0 <= j < |independents| ==> independentFrames[j] == Trim(groups[independents[j]], start, end)
  {
    headFrames := TrimFrames(groups[head], start, end);
    tailFrames := TrimFrames(groups[tail], start, end);
    independentFrames := [];
    for j := 0 to |independents|
      invariant |independentFrames| == j
      invariant forall m :: 0 <= m < j ==> independentFrames[m] == Trim(groups[independents[m]], start, end)
    {
      var trimmed := TrimFrames(groups[independents[j]], start, end);
      independentFrames := independentFrames + [trimmed];
    }
  }

  /** Each independent's frames trimmed to the window, in admission order. */
  function TrimEach(groups: map<int, seq<Frame>>, independents: seq<int>, start: int, end: int): (r: seq<seq<Frame>>)
    requires forall j :: 0 <= j < |independents| ==> independents[j] in groups
    ensures |r| == |independents|
    ensures forall j :: 0 <= j < |independents| ==> r[j] == Trim(groups[independents[j]], start, end)
  {
    if independents == [] then []
    else
      var n := |independents| - 1;
      TrimEach(groups, independents[..n], start, end) + [Trim(groups[independents[n]], start, end)]
  }

  /** The scene built from a negotiation's outcome: its window and lanes, and every participant's trimmed frames. */
  function Emitted(sceneId: int, head: int, tail: int, g: Progress, groups: map<int, seq<Frame>>): Scene
    requires head in groups && tail in groups
    requires forall j :: 0 <= j < |g.independents| ==> g.independents[j] in groups
  {
    Scene(sceneId, head, tail, g.independents, g.start, g.end, g.lanes,
          Trim(groups[head], g.start, g.end), Trim(groups[tail], g.start, g.end),
          TrimEach(groups, g.independents, g.start, g.end))
  }

  /**
   The scene built from a negotiation that admitted an independent is
   negotiated and trimmed, lies in the pair window narrowed by the
   independents, uses none of the agents used before, and leaves every
   unused candidate unsuitable against its window and lanes.
   */
  lemma EmittedScene(head: int, tail: int, lane: int, pairStart: int, pairEnd: int, sceneId: int, frameRate: int,
                     order: seq<int>, tracks: map<int, TrackMeta>, groups: map<int, seq<Frame>>, used: set<int>)
    requires head in groups && tail in groups && ReportingLane(groups[head]) == Some(lane)
    requires tracks.Keys <= groups.Keys
    requires forall i :: 0 <= i < |order| ==> order[i] in tracks
    requires LongEnough(pairStart, pairEnd, frameRate)
    requires Greedy(order, |order|, tracks, groups, used, head, tail, lane, pairStart, pairEnd, frameRate).independents != []
    ensures var g := Greedy(order, |order|, tracks, groups, used, head, tail, lane, pairStart, pairEnd, frameRate);
      var s := Emitted(sceneId, head, tail, g, groups);
      && Negotiated(s, tracks, groups, frameRate)
      && Trimmed(s, groups)
      && pairStart <= s.start && s.end <= pairEnd
      && s.start == LatestStart(pairStart, tracks, s.independents)
      && s.end == EarliestEnd(pairEnd, tracks, s.independents)
      && Elements(s.independents) !! used
      && (forall j :: 1 <= j < |s.independents| ==> s.independents[j] !in {head, tail})
      && g.used == used + Participants(s)
      && forall x :: 0 <= x < |order| && order[x] !in g.used ==>
           Unsuitable(tracks[order[x]], groups[order[x]], s.start, s.end, s.lanes, frameRate)
  {
    var g := Greedy(order, |order|, tracks, groups, used, head, tail, lane, pairStart, pairEnd, frameRate);
    GreedyFacts(order, |order|, tracks, groups, used, head, tail, lane, pairStart, pairEnd, frameRate);
    AdmittedDistinct(order, tracks, groups, used, head, tail, lane, pairStart, pairEnd, frameRate,
                     g.independents, g.lanes, g.start, g.end);
    forall x | x in Elements(g.independents) ensures x !in used {
      var j :| 0 <= j < |g.independents| && g.independents[j] == x;
    }
  }

  /**
   The part of the per-head loop after the pair checks: negotiation and, when
   an independent was admitted, the trimmed scene.
   */
  method NegotiateScene(head: int, tail: int, lane: int, pairStart: int, pairEnd: int, sceneId: int, frameRate: int,
                        order: seq<int>, tracks: map<int, TrackMeta>, groups: map<int, seq<Frame>>, used: set<int>)
    returns (outcome: Outcome, scene: Option<Scene>, newUsed: set<int>)
    requires head in groups && tail in groups && ReportingLane(groups[head]) == Some(lane)
    requires tracks.Keys <= groups.Keys
    requires forall i :: 0 <= i < |order| ==> order[i] in tracks
    requires LongEnough(pairStart, pairEnd, frameRate)
    ensures outcome in {Success, NoSuitableIndependent}
    ensures scene.Some? <==> outcome == Success
    ensures scene.Some? ==> && scene.value.sceneId == sceneId && scene.value.head == head && scene.value.tail == tail
                            && pairStart <= scene.value.start && scene.value.end <= pairEnd
                            && Negotiated(scene.value, tracks, groups, frameRate)
                            && Trimmed(scene.value, groups)
                            && Elements(scene.value.independents) !! used
                            && (forall j :: 1 <= j < |scene.value.independents| ==>
                                  scene.value.independents[j] !in {head, tail})
                            && newUsed == used + Participants(scene.value)
    ensures scene.None? ==> newUsed == used
    ensures var g := Greedy(order, |order|, tracks, groups, used, head, tail, lane, pairStart, pairEnd, frameRate);
      && outcome == (if g.independents == [] then NoSuitableIndependent else Success)
      && scene == (if g.independents == [] then None else Some(Emitted(sceneId, head, tail, g, groups)))
      && newUsed == g.used
    ensures outcome == Success <==>
      exists x :: 0 <= x < |order| && order[x] !in used
                  && !Unsuitable(tracks[order[x]], groups[order[x]], pairStart, pairEnd, [lane], frameRate)
    ensures scene.Some? ==>
      && scene.value.start == LatestStart(pairStart, tracks, scene.value.independents)
      && scene.value.end == EarliestEnd(pairEnd, tracks, scene.value.independents)
      && forall x :: 0 <= x < |order| && order[x] !in newUsed ==>
           Unsuitable(tracks[order[x]], groups[order[x]], scene.value.start, scene.value.end, scene.value.lanes, frameRate)
  {
    GreedyAdmitsAny(order, tracks, groups, used, head, tail, lane, pairStart, pairEnd, frameRate);
    var independents, lanes, start, end, used' :=
      Negotiate(order, tracks, groups, used, head, tail, lane, pairStart, pairEnd, frameRate);
    if |lanes| == 1 {
      return NoSuitableIndependent, None, used;
    }
    var headFrames, tailFrames, independentFrames := TrimParticipants(groups, head, tail, independents, start, end);
    var s := Scene(sceneId, head, tail, independents, start, end, lanes, headFrames, tailFrames, independentFrames);
    assert s == Emitted(sceneId, head, tail, Progress(independents, lanes, start, end, used'), groups);
    EmittedScene(head, tail, lane, pairStart, pairEnd, sceneId, frameRate, order, tracks, groups, used);
    return Success, Some(s), used';
  }

  /** What one iteration of the per-head loop yields: its counted outcome and the scene, if one is emitted. */
  datatype Attempt = Attempt(outcome: Outcome, scene: Option<Scene>)

  /**
   One iteration of the per-head loop, as a reference definition: the pair
   checks, then the greedy negotiation from the pair window and the head's
   reporting lane, and the scene when an independent is admitted.
   */
  function Attempted(head: int, sceneId: int, frameRate: int, order: seq<int>, tracks: map<int, TrackMeta>,
                     volatile: set<int>, groups: map<int, seq<Frame>>, used: set<int>): (r: Attempt)
    requires head in volatile && Lookups(tracks, volatile, groups)
    requires forall i :: 0 <= i < |order| ==> order[i] in tracks
    ensures r.scene.Some? <==> r.outcome == Success
  {
    match CheckPair(head, tracks, volatile, groups, frameRate)
    case Rejected(reason) => Attempt(reason, None)
    case Paired(tail, start, end) =>
      var g := Greedy(order, |order|, tracks, groups, used, head, tail, ReportingLane(groups[head]).value,
                      start, end, frameRate);
      if g.independents == [] then Attempt(NoSuitableIndependent, None)
      else Attempt(Success, Some(Emitted(sceneId, head, tail, g, groups)))
  }

  /**
   One iteration of the per-head loop: the pair checks, then negotiation and
   trimming. `used` is `used_tracks` before the iteration.
   */
  method ProcessHead(head: int, sceneId: int, frameRate: int, order: seq<int>, tracks: map<int, TrackMeta>,
                     volatile: set<int>, groups: map<int, seq<Frame>>, used: set<int>)
    returns (outcome: Outcome, scene: Option<Scene>, newUsed: set<int>)
    requires head in volatile && Lookups(tracks, volatile, groups)
    requires forall i :: 0 <= i < |order| ==> order[i] in tracks
    ensures scene.Some? <==> outcome == Success
    ensures CheckPair(head, tracks, volatile, groups, frameRate).Rejected?
            ==> outcome == CheckPair(head, tracks, volatile, groups, frameRate).reason
    ensures CheckPair(head, tracks, volatile, groups, frameRate).Paired?
            ==> outcome in {Success, NoSuitableIndependent}
    ensures scene.Some? ==> && scene.value.head == head
                            && ValidScene(scene.value, sceneId, tracks, volatile, groups, frameRate)
                            && Elements(scene.value.independents) !! used
                            && (forall j :: 1 <= j < |scene.value.independents| ==>
                                  scene.value.independents[j] !in {head, scene.value.tail})
                            && newUsed == used + Participants(scene.value)
    ensures scene.None? ==> newUsed == used
    ensures Attempt(outcome, scene) == Attempted(head, sceneId, frameRate, order, tracks, volatile, groups, used)
    ensures var pair := CheckPair(head, tracks, volatile, groups, frameRate);
      pair.Paired? ==>
        (outcome == Success <==>
           exists x :: 0 <= x < |order| && order[x] !in used
                       && !Unsuitable(tracks[order[x]], groups[order[x]], pair.start, pair.end,
                                      [ReportingLane(groups[head]).value], frameRate))
    ensures var pair := CheckPair(head, tracks, volatile, groups, frameRate);
      scene.Some? ==>
        && pair.Paired?
        && scene.value.start == LatestStart(pair.start, tracks, scene.value.independents)
        && scene.value.end == EarliestEnd(pair.end, tracks, scene.value.independents)
        && forall x :: 0 <= x < |order| && order[x] !in newUsed ==>
             Unsuitable(tracks[order[x]], groups[order[x]], scene.value.start, scene.value.end, scene.value.lanes,
                        frameRate)
  {
    var metadata := tracks[head];
    var frames := groups[head];
    ghost var pair := CheckPair(head, tracks, volatile, groups, frameRate);

    if 0.0 <= metadata.minDHW < MinimumClearanceHeadway {
      return PrecedingObstruction, None, used;
    }

    var follower, lane := ScanFollower(frames);
    if follower.None? {
      return NoConsistentFollower, None, used;
    }
    var tail := follower.value;
    if tail !in volatile {
      return FollowerNotVolatile, None, used;
    }
    var followingMetadata := tracks[tail];
    if followingMetadata.minDHW < 0.0 || followingMetadata.minDHW >= MaximumConvoyHeadway {
      return FollowerTooFar, None, used;
    }
    var latestInitial := Max(metadata.initialFrame, followingMetadata.initialFrame);
    var earliestFinal := Min(metadata.finalFrame, followingMetadata.finalFrame);
    if earliestFinal - latestInitial < MinimumTimeWindowSeconds * frameRate {
      return WindowTooShort, None, used;
    }
    assert pair == Paired(tail, latestInitial, earliestFinal);

    outcome, scene, newUsed :=
      NegotiateScene(head, tail, lane, latestInitial, earliestFinal, sceneId, frameRate, order, tracks, groups, used);
  }

  /** The agents of all scenes emitted so far: exactly the ones `used_tracks` holds. */
  function AllParticipants(scenes: seq<Scene>): set<int>
  {
    if scenes == [] then {} else AllParticipants(scenes[..|scenes| - 1]) + Participants(scenes[|scenes| - 1])
  }

  lemma {:induction false} ParticipantsWithin(scenes: seq<Scene>, k: nat)
    requires k < |scenes|
    ensures Participants(scenes[k]) <= AllParticipants(scenes)
  {
    if k < |scenes| - 1 {
      ParticipantsWithin(scenes[..|scenes| - 1], k);
    }
  }

  /** Every candidate agent has frame rows in the table. */
  predicate FramesForCandidates(metaRows: seq<TrackMeta>, frameRows: seq<Frame>, frameRate: int)
  {
    forall i :: 0 <= i < |metaRows| && IsCandidate(metaRows[i], frameRate) ==>
      exists j :: 0 <= j < |frameRows| && frameRows[j].id == metaRows[i].id
  }

  /** The lookups of the per-head loop succeed on the tables built from the input. */
  lemma LookupsHold(metaRows: seq<TrackMeta>, frameRows: seq<Frame>, frameRate: int)
    requires FramesForCandidates(metaRows, frameRows, frameRate)
    ensures Lookups(Catalogue(metaRows, frameRate), Elements(VolatileOrder(metaRows, frameRate)), Groups(frameRows))
    ensures forall i :: 0 <= i < |CatalogueOrder(metaRows, frameRate)| ==>
      CatalogueOrder(metaRows, frameRate)[i] in Catalogue(metaRows, frameRate)
  {
    VolatileOrderSound(metaRows, frameRate);
    CatalogueOrderMatchesKeys(metaRows, frameRate);
    var order := CatalogueOrder(metaRows, frameRate);
    assert forall i :: 0 <= i < |order| ==> order[i] in Elements(order);
    forall k | k in Catalogue(metaRows, frameRate)
      ensures k in Groups(frameRows)
    {
      CatalogueMembership(metaRows, frameRate, k);
      var i :| 0 <= i < |metaRows| && metaRows[i].id == k && IsCandidate(metaRows[i], frameRate);
      GroupsKeys(frameRows, k);
    }
  }

  /**
   What the per-head loop keeps about the scenes emitted so far: each has a
   volatile head and is valid, and no scene admitted an independent that an
   earlier scene had already used.
   */
  ghost predicate ScenesSoFar(scenes: seq<Scene>, volatile: seq<int>, sceneId: int,
                              tracks: map<int, TrackMeta>, groups: map<int, seq<Frame>>, frameRate: int)
  {
    && (forall k :: 0 <= k < |scenes| ==>
          scenes[k].head in volatile && ValidScene(scenes[k], sceneId, tracks, Elements(volatile), groups, frameRate))
    && (forall j, k :: 0 <= j < k < |scenes| ==> Elements(scenes[k].independents) !! Participants(scenes[j]))
  }

  /** Emitting a scene whose independents no earlier scene used keeps the loop's facts. */
  lemma EmitKeepsScenes(scenes: seq<Scene>, volatile: seq<int>, sceneId: int,
                        tracks: map<int, TrackMeta>, groups: map<int, seq<Frame>>, frameRate: int, s: Scene)
    requires ScenesSoFar(scenes, volatile, sceneId, tracks, groups, frameRate)
    requires s.head in volatile && ValidScene(s, sceneId, tracks, Elements(volatile), groups, frameRate)
    requires Elements(s.independents) !! AllParticipants(scenes)
    ensures ScenesSoFar(scenes + [s], volatile, sceneId, tracks, groups, frameRate)
  {
    var scenes' := scenes + [s];
    assert forall k :: 0 <= k < |scenes| ==> scenes'[k] == scenes[k];
    forall j | 0 <= j < |scenes|
      ensures Elements(s.independents) !! Participants(scenes[j])
    {
      ParticipantsWithin(scenes, j);
    }
    forall j, k | 0 <= j < k < |scenes'|
      ensures Elements(scenes'[k].independents) !! Participants(scenes'[j])
    {
      assert scenes'[j] == scenes[j];
      if k < |scenes| {
        assert scenes'[k] == scenes[k];
      }
    }
  }

  /**
   One pass of the per-head loop for the head at position i: process it and
   keep the scene it yields, if any.
   */
  method PairNext(i: nat, sceneId: int, frameRate: int, order: seq<int>, tracks: map<int, TrackMeta>,
                  volatile: seq<int>, groups: map<int, seq<Frame>>, scenes: seq<Scene>)
    returns (outcome: Outcome, scenes': seq<Scene>)
    requires i < |volatile|
    requires Lookups(tracks, Elements(volatile), groups)
    requires forall i :: 0 <= i < |order| ==> order[i] in tracks
    requires ScenesSoFar(scenes, volatile, sceneId, tracks, groups, frameRate)
    ensures |scenes'| == |scenes| + (if outcome == Success then 1 else 0)
    ensures ScenesSoFar(scenes', volatile, sceneId, tracks, groups, frameRate)
    ensures var a := Attempted(volatile[i], sceneId, frameRate, order, tracks, Elements(volatile), groups,
                               AllParticipants(scenes));
      && outcome == a.outcome
      && scenes' == scenes + (if a.scene.Some? then [a.scene.value] else [])
    ensures var pair := CheckPair(volatile[i], tracks, Elements(volatile), groups, frameRate);
      && (pair.Rejected? ==> outcome == pair.reason)
      && (pair.Paired? ==>
            (outcome == Success <==>
               exists x :: 0 <= x < |order| && order[x] !in AllParticipants(scenes)
                           && !Unsuitable(tracks[order[x]], groups[order[x]], pair.start, pair.end,
                                          [ReportingLane(groups[volatile[i]]).value], frameRate)))
  {
    var scene, used';
    outcome, scene, used' :=
      ProcessHead(volatile[i], sceneId, frameRate, order, tracks, Elements(volatile), groups, AllParticipants(scenes));
    scenes' := scenes;
    if scene.Some? {
      EmitKeepsScenes(scenes, volatile, sceneId, tracks, groups, frameRate, scene.value);
      scenes' := scenes + [scene.value];
    }
  }

  /** The scenes emitted and the outcomes counted, one outcome per head, in head order. */
  datatype Extraction = Extraction(scenes: seq<Scene>, outcomes: seq<Outcome>)

  /**
   The per-head loop over the first n heads, as a reference definition: each
   head is attempted against the agents of the scenes emitted before it, its
   outcome is recorded and its scene, if any, appended.
   */
  function Run(heads: seq<int>, n: nat, sceneId: int, frameRate: int, order: seq<int>, tracks: map<int, TrackMeta>,
               groups: map<int, seq<Frame>>): Extraction
    requires n <= |heads|
    requires Lookups(tracks, Elements(heads), groups)
    requires forall i :: 0 <= i < |order| ==> order[i] in tracks
  {
    if n == 0 then Extraction([], [])
    else
      var e := Run(heads, n - 1, sceneId, frameRate, order, tracks, groups);
      var a := Attempted(heads[n - 1], sceneId, frameRate, order, tracks, Elements(heads), groups,
                         AllParticipants(e.scenes));
      Extraction(e.scenes + (if a.scene.Some? then [a.scene.value] else []), e.outcomes + [a.outcome])
  }

  /** How many of the outcomes are o. */
  function Count(outcomes: seq<Outcome>, o: Outcome): nat
  {
    if outcomes == [] then 0
    else Count(outcomes[..|outcomes| - 1], o) + (if outcomes[|outcomes| - 1] == o then 1 else 0)
  }

  /** One more outcome adds one to its own count and leaves the others. */
  lemma CountStep(outcomes: seq<Outcome>, o: Outcome)
    ensures forall x :: Count(outcomes + [o], x) == Count(outcomes, x) + (if o == x then 1 else 0)
  {
    assert (outcomes + [o])[..|outcomes|] == outcomes;
  }

  /** The seven counters for a sequence of outcomes: each counts its own outcome. */
  function Tally(outcomes: seq<Outcome>): Counters
  {
    Counters(Count(outcomes, Success), Count(outcomes, PrecedingObstruction), Count(outcomes, NoConsistentFollower),
             Count(outcomes, FollowerNotVolatile), Count(outcomes, FollowerTooFar), Count(outcomes, WindowTooShort),
             Count(outcomes, NoSuitableIndependent))
  }

  /** Every outcome is counted by exactly one counter. */
  lemma {:induction false} TallyTotal(outcomes: seq<Outcome>)
    ensures Total(Tally(outcomes)) == |outcomes|
  {
    if outcomes != [] {
      TallyTotal(outcomes[..|outcomes| - 1]);
    }
  }

  /** The loop records one outcome per head and emits one scene per success. */
  lemma {:induction false} RunCounts(heads: seq<int>, n: nat, sceneId: int, frameRate: int, order: seq<int>,
                                     tracks: map<int, TrackMeta>, groups: map<int, seq<Frame>>)
    requires n <= |heads|
    requires Lookups(tracks, Elements(heads), groups)
    requires forall i :: 0 <= i < |order| ==> order[i] in tracks
    ensures |Run(heads, n, sceneId, frameRate, order, tracks, groups).outcomes| == n
    ensures Count(Run(heads, n, sceneId, frameRate, order, tracks, groups).outcomes, Success)
            == |Run(heads, n, sceneId, frameRate, order, tracks, groups).scenes|
  {
    if n > 0 {
      RunCounts(heads, n - 1, sceneId, frameRate, order, tracks, groups);
      var e := Run(heads, n - 1, sceneId, frameRate, order, tracks, groups);
      var r := Run(heads, n, sceneId, frameRate, order, tracks, groups);
      assert r.outcomes[..|r.outcomes| - 1] == e.outcomes;
    }
  }

  /** The increment of the counter that belongs to one more outcome. */
  method CountOutcome(ghost outcomes: seq<Outcome>, counters: Counters, outcome: Outcome) returns (counters': Counters)
    requires counters == Tally(outcomes)
    ensures counters' == Tally(outcomes + [outcome])
  {
    CountStep(outcomes, outcome);
    counters' := counters;
    match outcome
    case Success => counters' := counters'.(success := counters'.success + 1);
    case PrecedingObstruction => counters' := counters'.(preceding := counters'.preceding + 1);
    case NoConsistentFollower => counters' := counters'.(noFollowing := counters'.noFollowing + 1);
    case FollowerNotVolatile => counters' := counters'.(followerNotVolatile := counters'.followerNotVolatile + 1);
    case FollowerTooFar => counters' := counters'.(followerTooFar := counters'.followerTooFar + 1);
    case WindowTooShort => counters' := counters'.(tooShort := counters'.tooShort + 1);
    case NoSuitableIndependent => counters' := counters'.(noSuitableOther := counters'.noSuitableOther + 1);
  }

  /**
   The per-head loop over the volatile agents in `valid_convoy_tracks` order,
   with `used_tracks` starting empty (it is the set of agents of the scenes
   emitted so far).
   */
  method PairAll(sceneId: int, frameRate: int, order: seq<int>, tracks: map<int, TrackMeta>, volatile: seq<int>,
                 groups: map<int, seq<Frame>>)
    returns (scenes: seq<Scene>, counters: Counters, ghost outcomes: seq<Outcome>)
    requires Lookups(tracks, Elements(volatile), groups)
    requires forall i :: 0 <= i < |order| ==> order[i] in tracks
    ensures scenes == Run(volatile, |volatile|, sceneId, frameRate, order, tracks, groups).scenes
    ensures outcomes == Run(volatile, |volatile|, sceneId, frameRate, order, tracks, groups).outcomes
    ensures counters == Tally(outcomes)
    ensures Total(counters) == |volatile| && counters.success == |scenes|
    ensures ScenesSoFar(scenes, volatile, sceneId, tracks, groups, frameRate)
  {
    scenes, outcomes := [], [];
    counters := Counters(0, 0, 0, 0, 0, 0, 0);
    for i := 0 to |volatile|
      invariant scenes == Run(volatile, i, sceneId, frameRate, order, tracks, groups).scenes
      invariant outcomes == Run(volatile, i, sceneId, frameRate, order, tracks, groups).outcomes
      invariant counters == Tally(outcomes)
      invariant ScenesSoFar(scenes, volatile, sceneId, tracks, groups, frameRate)
    {
      var outcome;
      outcome, scenes := PairNext(i, sceneId, frameRate, order, tracks, volatile, groups, scenes);
      counters := CountOutcome(outcomes, counters, outcome);
      outcomes := outcomes + [outcome];
    }
    TallyTotal(outcomes);
    RunCounts(volatile, |volatile|, sceneId, frameRate, order, tracks, groups);
  }

  /** The lookups of the per-head loop succeed on the tables built from the input. */
  predicate LookupsFor(metaRows: seq<TrackMeta>, frameRows: seq<Frame>, frameRate: int)
  {
    && Lookups(Catalogue(metaRows, frameRate), Elements(VolatileOrder(metaRows, frameRate)), Groups(frameRows))
    && forall i :: 0 <= i < |CatalogueOrder(metaRows, frameRate)| ==>
         CatalogueOrder(metaRows, frameRate)[i] in Catalogue(metaRows, frameRate)
  }

  /**
   The extraction of one recording, as a reference definition: no scene and
   no outcome without volatile agents, otherwise the per-head loop over them
   on the candidate table and the grouped frames.
   */
  function Extracted(sceneId: int, frameRate: int, metaRows: seq<TrackMeta>, frameRows: seq<Frame>): Extraction
    requires VolatileOrder(metaRows, frameRate) != [] ==> LookupsFor(metaRows, frameRows, frameRate)
  {
    var volatile := VolatileOrder(metaRows, frameRate);
    if volatile == [] then Extraction([], [])
    else Run(volatile, |volatile|, sceneId, frameRate, CatalogueOrder(metaRows, frameRate), Catalogue(metaRows, frameRate),
             Groups(frameRows))
  }

  /**
   The extraction of one recording, from its frame rate and its summary and
   frame tables to the scenes emitted and the outcome counters. A recording
   without volatile agents ends before the frame table is read.
   */
  method ExtractRecording(sceneId: int, frameRate: int, metaRows: seq<TrackMeta>, frameRows: seq<Frame>)
    returns (scenes: seq<Scene>, counters: Counters, ghost outcomes: seq<Outcome>)
    requires frameRate > 0
    requires RatioDefined(metaRows, frameRate)
    requires VolatileOrder(metaRows, frameRate) != [] ==> FramesForCandidates(metaRows, frameRows, frameRate)
    ensures Total(counters) == |VolatileOrder(metaRows, frameRate)| && counters.success == |scenes|
    ensures ScenesSoFar(scenes, VolatileOrder(metaRows, frameRate), sceneId, Catalogue(metaRows, frameRate),
                        Groups(frameRows), frameRate)
    ensures counters == Tally(outcomes)
    ensures && (VolatileOrder(metaRows, frameRate) != [] ==> LookupsFor(metaRows, frameRows, frameRate))
            && Extraction(scenes, outcomes) == Extracted(sceneId, frameRate, metaRows, frameRows)
  {
    var order, tracks, volatile := SelectCandidates(metaRows, frameRate);
    if |volatile| == 0 {
      return [], Counters(0, 0, 0, 0, 0, 0, 0), [];
    }
    var groups := GroupFrames(frameRows);
    LookupsHold(metaRows, frameRows, frameRate);
    scenes, counters, outcomes := PairAll(sceneId, frameRate, order, tracks, volatile, groups);
  }

  /**
   Every agent named by a scene's descriptor is among the present ids of the
   trimmed summary table for that scene's window, so its summary row and all
   its frame rows are in the trimmed copies.
   */
  lemma DescriptorIdsPresent(metaRows: seq<TrackMeta>, frameRows: seq<Frame>, frameRate: int, sceneId: int, s: Scene)
    requires frameRate > 0
    requires ValidScene(s, sceneId, Catalogue(metaRows, frameRate), Elements(VolatileOrder(metaRows, frameRate)),
                        Groups(frameRows), frameRate)
    ensures forall x :: x in Participants(s) ==> x in Ids(OverlappingRows(metaRows, s.start, s.end))
  {
    var tracks := Catalogue(metaRows, frameRate);
    LongEnoughIsProper(s.start, s.end, frameRate);
    forall x | x in Participants(s)
      ensures x in Ids(OverlappingRows(metaRows, s.start, s.end))
    {
      assert x in tracks by {
        if x !in {s.head, s.tail} {
          var j :| 0 <= j < |s.independents| && s.independents[j] == x;
        }
      }
      assert tracks[x].initialFrame <= s.start && s.end <= tracks[x].finalFrame by {
        if x !in {s.head, s.tail} {
          var j :| 0 <= j < |s.independents| && s.independents[j] == x;
        }
      }
      CatalogueValue(metaRows, frameRate, x);
      CoveringRowIsPresent(metaRows, tracks[x], s.start, s.end);
      assert tracks[x].id == x;
    }
  }
}
