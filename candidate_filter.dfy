/**
 Candidate filter: selects, from the agent summary rows of one recording, the
 agents eligible for a convoy scene (`valid_tracks`) and the volatile subset
 that may head one (`valid_convoy_tracks`). Both are Python dictionaries, so
 each is modelled by its key order and, for `valid_tracks`, its values.
 */
module CandidateFilter {
  import opened ConvoyData

  /** No lane change and at least the minimum time window of frames. */
  predicate IsCandidate(row: TrackMeta, frameRate: int)
  {
    row.numLaneChanges == 0 && row.numFrames >= MinimumTimeWindowSeconds * frameRate
  }

  function Abs(x: real): real
  {
    if x < 0.0 then -x else x
  }

  /** The relative velocity swing |max - min| / |max| reaches the threshold. */
  predicate IsVolatile(row: TrackMeta)
    requires row.maxXVelocity != 0.0
  {
    Abs(row.maxXVelocity - row.minXVelocity) / Abs(row.maxXVelocity) >= VelocityProportionalDiff
  }

  /** The ratio is only evaluated for candidate rows; a zero maximum there raises. */
  predicate RatioDefined(rows: seq<TrackMeta>, frameRate: int)
  {
    forall i :: 0 <= i < |rows| && IsCandidate(rows[i], frameRate) ==> rows[i].maxXVelocity != 0.0
  }

  predicate IsVolatileCandidate(row: TrackMeta, frameRate: int)
  {
    IsCandidate(row, frameRate) && row.maxXVelocity != 0.0 && IsVolatile(row)
  }

  /** Insertion into a Python dict's key order: a key keeps the place of its first insertion. */
  function InsertKey(order: seq<int>, k: int): seq<int>
  {
    if k in order then order else order + [k]
  }

  /** The values of `valid_tracks` after reading `rows`: a later row with the same id replaces an earlier one. */
  function Catalogue(rows: seq<TrackMeta>, frameRate: int): map<int, TrackMeta>
  {
    if rows == [] then map[]
    else
      var last := rows[|rows| - 1];
      var m := Catalogue(rows[..|rows| - 1], frameRate);
      if IsCandidate(last, frameRate) then m[last.id := last] else m
  }

  /** The key order of `valid_tracks` after reading `rows`. */
  function CatalogueOrder(rows: seq<TrackMeta>, frameRate: int): seq<int>
  {
    if rows == [] then []
    else
      var last := rows[|rows| - 1];
      var o := CatalogueOrder(rows[..|rows| - 1], frameRate);
      if IsCandidate(last, frameRate) then InsertKey(o, last.id) else o
  }

  /** The key order of `valid_convoy_tracks` after reading `rows`. */
  function VolatileOrder(rows: seq<TrackMeta>, frameRate: int): seq<int>
  {
    if rows == [] then []
    else
      var last := rows[|rows| - 1];
      var o := VolatileOrder(rows[..|rows| - 1], frameRate);
      if IsVolatileCandidate(last, frameRate) then InsertKey(o, last.id) else o
  }

  lemma InsertKeyKeepsDistinct(order: seq<int>, k: int)
    requires Distinct(order)
    ensures Distinct(InsertKey(order, k)) && Elements(InsertKey(order, k)) == Elements(order) + {k}
  {
  }

  /** An agent is in `valid_tracks` iff one of its rows passes the candidate test. */
  lemma {:induction false} CatalogueMembership(rows: seq<TrackMeta>, frameRate: int, k: int)
    ensures k in Catalogue(rows, frameRate)
            <==> exists i :: 0 <= i < |rows| && rows[i].id == k && IsCandidate(rows[i], frameRate)
  {
    if rows != [] {
      var pre := rows[..|rows| - 1];
      CatalogueMembership(pre, frameRate, k);
      if k in Catalogue(pre, frameRate) {
        var i :| 0 <= i < |pre| && pre[i].id == k && IsCandidate(pre[i], frameRate);
        assert rows[i] == pre[i];
      }
      if exists i :: 0 <= i < |rows| && rows[i].id == k && IsCandidate(rows[i], frameRate) {
        var i :| 0 <= i < |rows| && rows[i].id == k && IsCandidate(rows[i], frameRate);
        if i < |pre| {
          assert pre[i] == rows[i];
        }
      }
    }
  }

  /**
   The value stored for an agent is its LAST candidate row: it is a row of the
   table, it carries that id, and no later row with that id is a candidate.
   */
  lemma {:induction false} CatalogueValue(rows: seq<TrackMeta>, frameRate: int, k: int)
    requires k in Catalogue(rows, frameRate)
    ensures exists i :: 0 <= i < |rows| && rows[i] == Catalogue(rows, frameRate)[k]
              && (forall j :: i < j < |rows| && rows[j].id == k ==> !IsCandidate(rows[j], frameRate))
    ensures Catalogue(rows, frameRate)[k].id == k && IsCandidate(Catalogue(rows, frameRate)[k], frameRate)
  {
    var pre := rows[..|rows| - 1];
    var last := rows[|rows| - 1];
    if IsCandidate(last, frameRate) && last.id == k {
      assert rows[|rows| - 1] == Catalogue(rows, frameRate)[k];
    } else {
      CatalogueValue(pre, frameRate, k);
      var i :| 0 <= i < |pre| && pre[i] == Catalogue(pre, frameRate)[k]
                && (forall j :: i < j < |pre| && pre[j].id == k ==> !IsCandidate(pre[j], frameRate));
      assert rows[i] == pre[i];
      forall j | i < j < |rows| && rows[j].id == k
        ensures !IsCandidate(rows[j], frameRate)
      {
        if j < |pre| {
          assert rows[j] == pre[j];
        }
      }
    }
  }

  /** The key order of `valid_tracks` lists each of its keys exactly once. */
  lemma {:induction false} CatalogueOrderMatchesKeys(rows: seq<TrackMeta>, frameRate: int)
    ensures Distinct(CatalogueOrder(rows, frameRate))
    ensures Elements(CatalogueOrder(rows, frameRate)) == Catalogue(rows, frameRate).Keys
  {
    if rows != [] {
      var pre := rows[..|rows| - 1];
      CatalogueOrderMatchesKeys(pre, frameRate);
      InsertKeyKeepsDistinct(CatalogueOrder(pre, frameRate), rows[|rows| - 1].id);
    }
  }

  /**
   An agent is volatile iff one of its rows is a volatile candidate; every
   volatile agent is a key of `valid_tracks`, and each appears once.
   */
  lemma {:induction false} VolatileOrderSound(rows: seq<TrackMeta>, frameRate: int)
    ensures Distinct(VolatileOrder(rows, frameRate))
    ensures forall k :: k in VolatileOrder(rows, frameRate)
              <==> exists i :: 0 <= i < |rows| && rows[i].id == k && IsVolatileCandidate(rows[i], frameRate)
    ensures Elements(VolatileOrder(rows, frameRate)) <= Catalogue(rows, frameRate).Keys
  {
    if rows != [] {
      var pre := rows[..|rows| - 1];
      var last := rows[|rows| - 1];
      VolatileOrderSound(pre, frameRate);
      InsertKeyKeepsDistinct(VolatileOrder(pre, frameRate), last.id);
      forall k
        ensures k in VolatileOrder(rows, frameRate)
                <==> exists i :: 0 <= i < |rows| && rows[i].id == k && IsVolatileCandidate(rows[i], frameRate)
      {
        if k in VolatileOrder(pre, frameRate) {
          var i :| 0 <= i < |pre| && pre[i].id == k && IsVolatileCandidate(pre[i], frameRate);
          assert rows[i] == pre[i];
        }
        if exists i :: 0 <= i < |rows| && rows[i].id == k && IsVolatileCandidate(rows[i], frameRate) {
          var i :| 0 <= i < |rows| && rows[i].id == k && IsVolatileCandidate(rows[i], frameRate);
          if i < |pre| {
            assert pre[i] == rows[i];
          }
        }
      }
      forall k | k in VolatileOrder(rows, frameRate)
        ensures k in Catalogue(rows, frameRate)
      {
        var i :| 0 <= i < |rows| && rows[i].id == k && IsVolatileCandidate(rows[i], frameRate);
        CatalogueMembership(rows, frameRate, k);
      }
    }
  }

  /**
   The filter loop over the summary rows (one pass, in table order), building
   `valid_tracks` and `valid_convoy_tracks`.
   */
  method SelectCandidates(rows: seq<TrackMeta>, frameRate: int)
    returns (order: seq<int>, tracks: map<int, TrackMeta>, volatile: seq<int>)
    requires RatioDefined(rows, frameRate)
    ensures order == CatalogueOrder(rows, frameRate)
    ensures tracks == Catalogue(rows, frameRate)
    ensures volatile == VolatileOrder(rows, frameRate)
  {
    order, tracks, volatile := [], map[], [];
    for i := 0 to |rows|
      invariant order == CatalogueOrder(rows[..i], frameRate)
      invariant tracks == Catalogue(rows[..i], frameRate)
      invariant volatile == VolatileOrder(rows[..i], frameRate)
    {
      assert rows[..i + 1][..i] == rows[..i];
      var row := rows[i];
      CatalogueOrderMatchesKeys(rows[..i], frameRate);
      if row.numLaneChanges == 0 && row.numFrames >= MinimumTimeWindowSeconds * frameRate {
        if row.id !in tracks {
          order := order + [row.id];
        }
        tracks := tracks[row.id := row];
        if Abs(row.maxXVelocity - row.minXVelocity) / Abs(row.maxXVelocity) >= VelocityProportionalDiff {
          if row.id !in volatile {
            volatile := volatile + [row.id];
          }
        }
      }
    }
    assert rows[..|rows|] == rows;
  }
}
