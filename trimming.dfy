/**
 Trimming: cutting each participant's frames to the negotiated inclusive
 window, and the trimmed copies of the raw tables (summary rows whose
 presence interval strictly overlaps the window, and the frame rows of those
 agents).
 */
module Trimming {
  import opened ConvoyData

  predicate InWindow(f: Frame, start: int, end: int)
  {
    start <= f.frame <= end
  }

  /** The frames inside [start, end], in their original order. */
  function Trim(frames: seq<Frame>, start: int, end: int): seq<Frame>
  {
    if frames == [] then []
    else
      var last := frames[|frames| - 1];
      Trim(frames[..|frames| - 1], start, end) + (if InWindow(last, start, end) then [last] else [])
  }

  /** Trimming keeps exactly the frames whose index lies in the window. */
  lemma {:induction false} TrimMembers(frames: seq<Frame>, start: int, end: int, f: Frame)
    ensures f in Trim(frames, start, end) <==> f in frames && InWindow(f, start, end)
  {
    if frames != [] {
      var pre := frames[..|frames| - 1];
      TrimMembers(pre, start, end, f);
      assert frames == pre + [frames[|frames| - 1]];
    }
  }

  /** Trimming keeps every in-window frame as many times as it occurs, and nothing else. */
  lemma {:induction false} TrimMultiplicity(frames: seq<Frame>, start: int, end: int, f: Frame)
    ensures multiset(Trim(frames, start, end))[f] == if InWindow(f, start, end) then multiset(frames)[f] else 0
  {
    if frames != [] {
      var pre := frames[..|frames| - 1];
      TrimMultiplicity(pre, start, end, f);
      assert frames == pre + [frames[|frames| - 1]];
    }
  }

  /** Trimming distributes over concatenation. */
  lemma {:induction false} TrimAppend(a: seq<Frame>, b: seq<Frame>, start: int, end: int)
    ensures Trim(a + b, start, end) == Trim(a, start, end) + Trim(b, start, end)
  {
    if b != [] {
      var b' := b[..|b| - 1];
      TrimAppend(a, b', start, end);
      assert (a + b)[..|a + b| - 1] == a + b';
    } else {
      assert a + b == a;
    }
  }

  /** Frames numbered one per frame index from `first` on. */
  predicate Consecutive(frames: seq<Frame>, first: int)
  {
    forall k :: 0 <= k < |frames| ==> frames[k].frame == first + k
  }

  lemma TrimConsecutiveParts(frames: seq<Frame>, first: int, start: int, end: int)
    requires Consecutive(frames, first)
    requires first <= start <= end < first + |frames|
    ensures Trim(frames[..start - first], start, end) == []
    ensures Trim(frames[start - first..end - first + 1], start, end) == frames[start - first..end - first + 1]
    ensures Trim(frames[end - first + 1..], start, end) == []
  {
    TrimNone(frames[..start - first], start, end);
    TrimAll(frames[start - first..end - first + 1], start, end);
    TrimNone(frames[end - first + 1..], start, end);
  }

  /**
   When an agent has one frame per frame index from `first` on and the window
   lies within them, trimming gives exactly the slice for the window, so the
   trimmed sequences of all participants have the same length.
   */
  lemma TrimConsecutive(frames: seq<Frame>, first: int, start: int, end: int)
    requires Consecutive(frames, first)
    requires first <= start <= end < first + |frames|
    ensures Trim(frames, start, end) == frames[start - first..end - first + 1]
    ensures |Trim(frames, start, end)| == end - start + 1
  {
    var lo, hi := start - first, end - first + 1;
    assert frames == frames[..lo] + frames[lo..hi] + frames[hi..];
    TrimAppend(frames[..lo] + frames[lo..hi], frames[hi..], start, end);
    TrimAppend(frames[..lo], frames[lo..hi], start, end);
    TrimConsecutiveParts(frames, first, start, end);
  }

  lemma {:induction false} TrimAll(frames: seq<Frame>, start: int, end: int)
    requires forall k :: 0 <= k < |frames| ==> InWindow(frames[k], start, end)
    ensures Trim(frames, start, end) == frames
  {
    if frames != [] {
      TrimAll(frames[..|frames| - 1], start, end);
      assert frames == frames[..|frames| - 1] + [frames[|frames| - 1]];
    }
  }

  lemma {:induction false} TrimNone(frames: seq<Frame>, start: int, end: int)
    requires forall k :: 0 <= k < |frames| ==> !InWindow(frames[k], start, end)
    ensures Trim(frames, start, end) == []
  {
    if frames != [] {
      TrimNone(frames[..|frames| - 1], start, end);
    }
  }

  /** The trimming loop for one participant: append each frame whose index lies in the window. */
  method TrimFrames(frames: seq<Frame>, start: int, end: int) returns (kept: seq<Frame>)
    ensures kept == Trim(frames, start, end)
  {
    kept := [];
    for i := 0 to |frames|
      invariant kept == Trim(frames[..i], start, end)
    {
      assert frames[..i + 1][..i] == frames[..i];
      if start <= frames[i].frame <= end {
        kept := kept + [frames[i]];
      }
    }
    assert frames[..|frames|] == frames;
  }

  /** The presence interval of a summary row strictly overlaps the window. */
  predicate Overlaps(row: TrackMeta, start: int, end: int)
  {
    row.initialFrame < end && row.finalFrame > start
  }

  /** The summary rows kept in the trimmed copy, in table order. */
  function OverlappingRows(rows: seq<TrackMeta>, start: int, end: int): seq<TrackMeta>
  {
    if rows == [] then []
    else
      var last := rows[|rows| - 1];
      OverlappingRows(rows[..|rows| - 1], start, end) + (if Overlaps(last, start, end) then [last] else [])
  }

  function Ids(rows: seq<TrackMeta>): (r: seq<int>)
    ensures |r| == |rows| && forall i :: 0 <= i < |rows| ==> r[i] == rows[i].id
  {
    if rows == [] then [] else Ids(rows[..|rows| - 1]) + [rows[|rows| - 1].id]
  }

  /** The frame rows kept in the trimmed copy: those of the listed agents, in table order. */
  function RowsOfIds(rows: seq<Frame>, ids: seq<int>): seq<Frame>
  {
    if rows == [] then []
    else
      var last := rows[|rows| - 1];
      RowsOfIds(rows[..|rows| - 1], ids) + (if last.id in ids then [last] else [])
  }

  /** The trimmed summary table keeps exactly the rows whose interval overlaps the window. */
  lemma {:induction false} OverlappingMembers(rows: seq<TrackMeta>, start: int, end: int, row: TrackMeta)
    ensures row in OverlappingRows(rows, start, end) <==> row in rows && Overlaps(row, start, end)
  {
    if rows != [] {
      var pre := rows[..|rows| - 1];
      OverlappingMembers(pre, start, end, row);
      assert rows == pre + [rows[|rows| - 1]];
    }
  }

  /** The trimmed frame table keeps exactly the rows of the listed agents. */
  lemma {:induction false} RowsOfIdsMembers(rows: seq<Frame>, ids: seq<int>, f: Frame)
    ensures f in RowsOfIds(rows, ids) <==> f in rows && f.id in ids
  {
    if rows != [] {
      var pre := rows[..|rows| - 1];
      RowsOfIdsMembers(pre, ids, f);
      assert rows == pre + [rows[|rows| - 1]];
    }
  }

  /**
   The trimmed copies of the summary and frame tables for a scene window:
   the two filtering loops, with `present_ids` collected by the first.
   */
  method TrimTables(metaRows: seq<TrackMeta>, frameRows: seq<Frame>, start: int, end: int)
    returns (keptMeta: seq<TrackMeta>, presentIds: seq<int>, keptFrames: seq<Frame>)
    ensures keptMeta == OverlappingRows(metaRows, start, end)
    ensures presentIds == Ids(keptMeta)
    ensures keptFrames == RowsOfIds(frameRows, presentIds)
  {
    keptMeta, presentIds := [], [];
    for i := 0 to |metaRows|
      invariant keptMeta == OverlappingRows(metaRows[..i], start, end)
      invariant presentIds == Ids(keptMeta)
    {
      assert metaRows[..i + 1][..i] == metaRows[..i];
      var row := metaRows[i];
      if row.initialFrame < end && row.finalFrame > start {
        presentIds := presentIds + [row.id];
        keptMeta := keptMeta + [row];
      }
    }
    assert metaRows[..|metaRows|] == metaRows;
    keptFrames := [];
    for i := 0 to |frameRows|
      invariant keptFrames == RowsOfIds(frameRows[..i], presentIds)
    {
      assert frameRows[..i + 1][..i] == frameRows[..i];
      if frameRows[i].id in presentIds {
        keptFrames := keptFrames + [frameRows[i]];
      }
    }
    assert frameRows[..|frameRows|] == frameRows;
  }

  /**
   An agent whose summary row is in the table and whose presence interval
   covers a non-empty window is listed among the present ids, so all its
   frame rows are kept.
   */
  lemma CoveringRowIsPresent(metaRows: seq<TrackMeta>, row: TrackMeta, start: int, end: int)
    requires row in metaRows
    requires row.initialFrame <= start < end <= row.finalFrame
    ensures row.id in Ids(OverlappingRows(metaRows, start, end))
  {
    var kept := OverlappingRows(metaRows, start, end);
    OverlappingMembers(metaRows, start, end, row);
    var i :| 0 <= i < |kept| && kept[i] == row;
    assert Ids(kept)[i] == row.id;
  }
}
