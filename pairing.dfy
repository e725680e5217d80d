/**
 Pairing: for a volatile head agent, the scan of its frames for one
 consistent follower, and the checks that turn (head, follower) into a convoy
 pair with a shared frame window, or reject it for a counted reason.
 */
module Pairing {
  import opened ConvoyData

  /** The reasons the per-head loop counts, one counter each. */
  datatype Outcome =
    | Success
    | PrecedingObstruction
    | NoConsistentFollower
    | FollowerNotVolatile
    | FollowerTooFar
    | WindowTooShort
    | NoSuitableIndependent

  /**
   p follows the head throughout: every frame reports p or no follower
   (followingId <= 0), and at least one frame reports p.
   */
  predicate IsConsistentFollower(frames: seq<Frame>, p: int)
  {
    && p > 0
    && (forall i :: 0 <= i < |frames| ==> frames[i].followingId <= 0 || frames[i].followingId == p)
    && (exists i :: 0 <= i < |frames| && frames[i].followingId == p)
  }

  /** The index of the first frame that reports a follower. */
  function FirstReporting(frames: seq<Frame>): (r: Option<nat>)
    ensures r.Some? ==> && r.value < |frames| && frames[r.value].followingId > 0
                        && forall j :: 0 <= j < r.value ==> frames[j].followingId <= 0
    ensures r.None? ==> forall j :: 0 <= j < |frames| ==> frames[j].followingId <= 0
  {
    if frames == [] then None
    else if frames[0].followingId > 0 then Some(0)
    else match FirstReporting(frames[1..])
      case None => None
      case Some(k) => Some(k + 1)
  }

  /** The follower the scan settles on, as a reference definition. */
  function ConsistentFollower(frames: seq<Frame>): (r: Option<int>)
    ensures forall p :: r == Some(p) <==> IsConsistentFollower(frames, p)
  {
    match FirstReporting(frames)
    case None => None
    case Some(k) =>
      var p := frames[k].followingId;
      if forall i :: 0 <= i < |frames| ==> frames[i].followingId <= 0 || frames[i].followingId == p
      then Some(p)
      else None
  }

  /**
   The lane recorded for the head: the scan overwrites it on every frame until
   a follower is first reported, so it is the lane of that frame.
   */
  function ReportingLane(frames: seq<Frame>): Option<int>
  {
    match FirstReporting(frames)
    case None => None
    case Some(k) => Some(frames[k].laneId)
  }

  /**
   The follower scan over the head's frames. The lane out-parameter stands for
   the script's `lane_id`, which is only read when a follower was found.
   */
  method ScanFollower(frames: seq<Frame>) returns (follower: Option<int>, lane: int)
    ensures follower == ConsistentFollower(frames)
    ensures follower.Some? ==> ReportingLane(frames) == Some(lane)
  {
    follower, lane := None, 0;
    var i := 0;
    while i < |frames|
      invariant 0 <= i <= |frames|
      invariant follower.None? ==> forall j :: 0 <= j < i ==> frames[j].followingId <= 0
      invariant follower.Some? ==>
        && FirstReporting(frames).Some? && FirstReporting(frames).value < i
        && follower.value == frames[FirstReporting(frames).value].followingId
        && lane == frames[FirstReporting(frames).value].laneId
        && forall j :: 0 <= j < i ==> frames[j].followingId <= 0 || frames[j].followingId == follower.value
    {
      if follower.None? {
        lane := frames[i].laneId;
        if frames[i].followingId > 0 {
          follower := Some(frames[i].followingId);
        }
      } else if frames[i].followingId > 0 && frames[i].followingId != follower.value {
        assert !IsConsistentFollower(frames, follower.value);
        follower := None;
        break;
      }
      i := i + 1;
    }
  }

  /** The head has a vehicle ahead closer than the clearance headway. */
  predicate HeadObstructed(head: TrackMeta)
  {
    0.0 <= head.minDHW < MinimumClearanceHeadway
  }

  /** The follower keeps a known headway within the convoy distance. */
  predicate FollowerClose(follower: TrackMeta)
  {
    0.0 <= follower.minDHW < MaximumConvoyHeadway
  }

  datatype PairCheck = Rejected(reason: Outcome) | Paired(tail: int, start: int, end: int)

  /**
   The checks of the per-head loop up to negotiation, in the script's order;
   the first that fails names the rejection.
   */
  function CheckPair(head: int, tracks: map<int, TrackMeta>, volatile: set<int>,
                     groups: map<int, seq<Frame>>, frameRate: int): (r: PairCheck)
    requires head in tracks && head in groups && volatile <= tracks.Keys
    ensures r.Rejected? ==> r.reason !in {Success, NoSuitableIndependent}
    ensures r == Rejected(PrecedingObstruction) <==> HeadObstructed(tracks[head])
    ensures r == Rejected(NoConsistentFollower)
            <==> !HeadObstructed(tracks[head]) && forall p :: !IsConsistentFollower(groups[head], p)
    ensures r == Rejected(FollowerNotVolatile)
            <==> !HeadObstructed(tracks[head]) && exists p :: IsConsistentFollower(groups[head], p) && p !in volatile
    ensures r == Rejected(FollowerTooFar)
            <==> && !HeadObstructed(tracks[head])
                 && exists p :: IsConsistentFollower(groups[head], p) && p in volatile && !FollowerClose(tracks[p])
    ensures r.Paired? ==>
      && !HeadObstructed(tracks[head])
      && IsConsistentFollower(groups[head], r.tail)
      && ReportingLane(groups[head]).Some?
      && r.tail in volatile
      && FollowerClose(tracks[r.tail])
      && r.start == Max(tracks[head].initialFrame, tracks[r.tail].initialFrame)
      && r.end == Min(tracks[head].finalFrame, tracks[r.tail].finalFrame)
      && LongEnough(r.start, r.end, frameRate)
    ensures forall p :: && !HeadObstructed(tracks[head])
                        && IsConsistentFollower(groups[head], p)
                        && p in volatile
                        && FollowerClose(tracks[p])
                        && LongEnough(Max(tracks[head].initialFrame, tracks[p].initialFrame),
                                      Min(tracks[head].finalFrame, tracks[p].finalFrame), frameRate)
                        ==> r == Paired(p, Max(tracks[head].initialFrame, tracks[p].initialFrame),
                                           Min(tracks[head].finalFrame, tracks[p].finalFrame))
  {
    var row := tracks[head];
    if HeadObstructed(row) then Rejected(PrecedingObstruction)
    else match ConsistentFollower(groups[head])
      case None => Rejected(NoConsistentFollower)
      case Some(p) =>
        if p !in volatile then Rejected(FollowerNotVolatile)
        else if !FollowerClose(tracks[p]) then Rejected(FollowerTooFar)
        else
          var start := Max(row.initialFrame, tracks[p].initialFrame);
          var end := Min(row.finalFrame, tracks[p].finalFrame);
          if !LongEnough(start, end, frameRate) then Rejected(WindowTooShort)
          else Paired(p, start, end)
  }
}
