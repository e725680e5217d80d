/**
 Frame grouping: the reader loop over the frame table that cuts it into runs
 of consecutive rows with the same agent id and stores each run in
 `track_frames` under that id (a later run of the same id replaces an earlier
 one).
 */
module FrameGrouping {
  import opened ConvoyData

  /** The next row continues the last run when that run holds the row's id. */
  predicate Continues(runs: seq<seq<Frame>>, row: Frame)
  {
    |runs| > 0 && runs[|runs| - 1] != [] && runs[|runs| - 1][0].id == row.id
  }

  /** The runs before the one the next row ends up in. */
  function Kept(runs: seq<seq<Frame>>, row: Frame): seq<seq<Frame>>
  {
    if Continues(runs, row) then runs[..|runs| - 1] else runs
  }

  /** The run the next row ends up in: the last run extended, or a new one. */
  function LastRun(runs: seq<seq<Frame>>, row: Frame): (r: seq<Frame>)
    ensures r != [] && r[0].id == row.id
  {
    if Continues(runs, row) then runs[|runs| - 1] + [row] else [row]
  }

  /** One step of the reader loop on the runs read so far. */
  function Extend(runs: seq<seq<Frame>>, row: Frame): seq<seq<Frame>>
  {
    Kept(runs, row) + [LastRun(runs, row)]
  }

  /** The maximal runs of consecutive rows sharing an id, extended row by row as the loop reads them. */
  function Runs(rows: seq<Frame>): seq<seq<Frame>>
  {
    if rows == [] then [] else Extend(Runs(rows[..|rows| - 1]), rows[|rows| - 1])
  }

  /** Stores each run under its id; a later run replaces an earlier one. */
  function Index(runs: seq<seq<Frame>>): map<int, seq<Frame>>
  {
    if runs == [] then map[]
    else
      var last := runs[|runs| - 1];
      var m := Index(runs[..|runs| - 1]);
      if last == [] then m else m[last[0].id := last]
  }

  /** `track_frames` once the whole table is read. */
  function Groups(rows: seq<Frame>): map<int, seq<Frame>>
  {
    Index(Runs(rows))
  }

  function Flatten(runs: seq<seq<Frame>>): seq<Frame>
  {
    if runs == [] then [] else Flatten(runs[..|runs| - 1]) + runs[|runs| - 1]
  }

  predicate SameId(run: seq<Frame>)
  {
    forall i :: 0 <= i < |run| ==> run[i].id == run[0].id
  }

  /** Every run is non-empty with a single id, and neighbouring runs differ in id. */
  predicate WellFormedRuns(runs: seq<seq<Frame>>)
  {
    && (forall r :: 0 <= r < |runs| ==> runs[r] != [] && SameId(runs[r]))
    && (forall r :: 0 < r < |runs| ==> runs[r - 1][0].id != runs[r][0].id)
  }

  /** The last run holds the last row's id. */
  lemma RunsLast(rows: seq<Frame>)
    requires rows != []
    ensures var runs := Runs(rows);
      |runs| > 0 && runs[|runs| - 1] != [] && runs[|runs| - 1][0].id == rows[|rows| - 1].id
  {
  }

  lemma ExtendWellFormed(runs: seq<seq<Frame>>, row: Frame)
    requires WellFormedRuns(runs)
    ensures WellFormedRuns(Extend(runs, row))
  {
    var kept, last := Kept(runs, row), LastRun(runs, row);
    assert forall r :: 0 <= r < |kept| ==> kept[r] == runs[r];
    if Continues(runs, row) {
      assert SameId(last);
    }
  }

  /** Every run is non-empty with a single id, and neighbouring runs differ in id. */
  lemma {:induction false} RunsWellFormed(rows: seq<Frame>)
    ensures WellFormedRuns(Runs(rows))
  {
    if rows != [] {
      RunsWellFormed(rows[..|rows| - 1]);
      ExtendWellFormed(Runs(rows[..|rows| - 1]), rows[|rows| - 1]);
    }
  }

  lemma ExtendFlatten(runs: seq<seq<Frame>>, row: Frame)
    ensures Flatten(Extend(runs, row)) == Flatten(runs) + [row]
  {
    var e := Extend(runs, row);
    assert e[..|e| - 1] == Kept(runs, row);
    if Continues(runs, row) {
      var n := |runs| - 1;
      assert runs[..n] + [runs[n]] == runs;
    }
  }

  /** Concatenated, the runs give the table back. */
  lemma {:induction false} RunsFlatten(rows: seq<Frame>)
    ensures Flatten(Runs(rows)) == rows
  {
    if rows != [] {
      var pre := rows[..|rows| - 1];
      RunsFlatten(pre);
      ExtendFlatten(Runs(pre), rows[|rows| - 1]);
      assert pre + [rows[|rows| - 1]] == rows;
    }
  }

  lemma ExtendIndex(runs: seq<seq<Frame>>, row: Frame)
    ensures Index(Extend(runs, row)) == Index(Kept(runs, row))[row.id := LastRun(runs, row)]
  {
    var e := Extend(runs, row);
    assert e[..|e| - 1] == Kept(runs, row);
  }

  lemma IndexLast(runs: seq<seq<Frame>>)
    requires runs != [] && runs[|runs| - 1] != []
    ensures Index(runs) == Index(runs[..|runs| - 1])[runs[|runs| - 1][0].id := runs[|runs| - 1]]
  {
  }

  /** Rows with id k lie in one contiguous block of the table. */
  predicate Contiguous(rows: seq<Frame>, k: int)
  {
    forall i, j, l :: 0 <= i < j < l < |rows| && rows[i].id == k && rows[l].id == k ==> rows[j].id == k
  }

  /** The rows with id k, in table order. */
  function RowsWithId(rows: seq<Frame>, k: int): seq<Frame>
  {
    if rows == [] then []
    else RowsWithId(rows[..|rows| - 1], k) + (if rows[|rows| - 1].id == k then [rows[|rows| - 1]] else [])
  }

  lemma {:induction false} RowsWithIdEmpty(rows: seq<Frame>, k: int)
    requires forall i :: 0 <= i < |rows| ==> rows[i].id != k
    ensures RowsWithId(rows, k) == []
  {
    if rows != [] {
      RowsWithIdEmpty(rows[..|rows| - 1], k);
    }
  }

  /** The entry of `track_frames` for the last row's id after one more row, and the others unchanged. */
  lemma GroupsStep(rows: seq<Frame>)
    requires rows != []
    ensures var pre, row := rows[..|rows| - 1], rows[|rows| - 1];
      && Groups(rows) == Groups(pre)[row.id := Groups(rows)[row.id]]
      && (if pre != [] && pre[|pre| - 1].id == row.id && row.id in Groups(pre)
          then Groups(rows)[row.id] == Groups(pre)[row.id] + [row]
          else Groups(rows)[row.id] == [row])
  {
    var pre := rows[..|rows| - 1];
    var row := rows[|rows| - 1];
    var runs := Runs(pre);
    ExtendIndex(runs, row);
    if Continues(runs, row) {
      IndexLast(runs);
      assert pre != [];
      RunsLast(pre);
    } else if pre != [] {
      RunsLast(pre);
    }
  }

  /** Every id of the table, and only those, has an entry in `track_frames`. */
  lemma {:induction false} GroupsKeys(rows: seq<Frame>, k: int)
    ensures k in Groups(rows) <==> exists i :: 0 <= i < |rows| && rows[i].id == k
  {
    if rows != [] {
      var pre := rows[..|rows| - 1];
      GroupsKeys(pre, k);
      GroupsStep(rows);
      if exists i :: 0 <= i < |pre| && pre[i].id == k {
        var i :| 0 <= i < |pre| && pre[i].id == k;
        assert rows[i] == pre[i];
      }
      if exists i :: 0 <= i < |rows| && rows[i].id == k {
        var i :| 0 <= i < |rows| && rows[i].id == k;
        if i < |pre| {
          assert pre[i] == rows[i];
        }
      }
    }
  }

  lemma ContiguousPrefix(rows: seq<Frame>, k: int)
    requires rows != [] && Contiguous(rows, k)
    ensures Contiguous(rows[..|rows| - 1], k)
  {
    var pre := rows[..|rows| - 1];
    forall i, j, l | 0 <= i < j < l < |pre| && pre[i].id == k && pre[l].id == k
      ensures pre[j].id == k
    {
      assert rows[i] == pre[i] && rows[j] == pre[j] && rows[l] == pre[l];
    }
  }

  /** With k's rows contiguous, a row with id k after an earlier one makes the row before it k's as well. */
  lemma ContiguousBefore(rows: seq<Frame>, k: int, i: int)
    requires Contiguous(rows, k)
    requires 0 <= i < |rows| - 1 && rows[i].id == k && rows[|rows| - 1].id == k
    ensures rows[|rows| - 2].id == k
  {
    if i < |rows| - 2 {
      assert rows[i].id == k && rows[|rows| - 2].id == rows[|rows| - 2].id && rows[|rows| - 1].id == k;
    }
  }

  /** The step of ContiguousGroup when the last row is the first with id k. */
  lemma GroupStarts(rows: seq<Frame>, k: int)
    requires rows != [] && rows[|rows| - 1].id == k
    requires forall i :: 0 <= i < |rows| - 1 ==> rows[i].id != k
    ensures k in Groups(rows) && Groups(rows)[k] == RowsWithId(rows, k)
  {
    var pre := rows[..|rows| - 1];
    GroupsStep(rows);
    RowsWithIdEmpty(pre, k);
    GroupsKeys(pre, k);
  }

  /** The step of ContiguousGroup when the last row continues k's block. */
  lemma GroupContinues(rows: seq<Frame>, k: int)
    requires |rows| >= 2 && rows[|rows| - 1].id == k && rows[|rows| - 2].id == k
    requires var pre := rows[..|rows| - 1]; k in Groups(pre) && Groups(pre)[k] == RowsWithId(pre, k)
    ensures k in Groups(rows) && Groups(rows)[k] == RowsWithId(rows, k)
  {
    GroupsStep(rows);
  }

  /** The step of ContiguousGroup when the last row belongs to another agent. */
  lemma GroupUnchanged(rows: seq<Frame>, k: int)
    requires rows != [] && rows[|rows| - 1].id != k
    requires var pre := rows[..|rows| - 1]; k in Groups(pre) && Groups(pre)[k] == RowsWithId(pre, k)
    ensures k in Groups(rows) && Groups(rows)[k] == RowsWithId(rows, k)
  {
    GroupsStep(rows);
  }

  /**
   For an agent whose rows are contiguous, its entry in `track_frames` is
   exactly its rows, in table order.
   */
  lemma {:induction false} ContiguousGroup(rows: seq<Frame>, k: int)
    requires Contiguous(rows, k)
    requires exists i :: 0 <= i < |rows| && rows[i].id == k
    ensures k in Groups(rows) && Groups(rows)[k] == RowsWithId(rows, k)
  {
    var pre := rows[..|rows| - 1];
    if i :| 0 <= i < |pre| && pre[i].id == k {
      ContiguousPrefix(rows, k);
      ContiguousGroup(pre, k);
      if rows[|rows| - 1].id == k {
        ContiguousBefore(rows, k, i);
        GroupContinues(rows, k);
      } else {
        GroupUnchanged(rows, k);
      }
    } else {
      assert forall i :: 0 <= i < |rows| - 1 ==> rows[i] == pre[i];
      GroupStarts(rows, k);
    }
  }

  /**
   rows[a..b] is the last maximal run of id k: all its rows have id k, the row
   before it does not, and no later row does.
   */
  predicate LastRunOf(rows: seq<Frame>, k: int, a: int, b: int)
  {
    && 0 <= a < b <= |rows|
    && (forall i :: a <= i < b ==> rows[i].id == k)
    && (a == 0 || rows[a - 1].id != k)
    && (forall i :: b <= i < |rows| ==> rows[i].id != k)
  }

  /** The step of GroupIsLastRun when the last row extends k's last run. */
  lemma LastRunExtends(rows: seq<Frame>, k: int, a: int)
    requires |rows| >= 2 && rows[|rows| - 1].id == k
    requires var pre := rows[..|rows| - 1]; LastRunOf(pre, k, a, |pre|)
    ensures LastRunOf(rows, k, a, |rows|)
    ensures rows[a..|rows|] == rows[..|rows| - 1][a..|rows| - 1] + [rows[|rows| - 1]]
  {
  }

  /** The step of GroupIsLastRun when the last row starts a new run of k. */
  lemma LastRunStarts(rows: seq<Frame>, k: int)
    requires rows != [] && rows[|rows| - 1].id == k
    requires |rows| >= 2 ==> rows[|rows| - 2].id != k
    ensures LastRunOf(rows, k, |rows| - 1, |rows|)
  {
  }

  /** The step of GroupIsLastRun when the last row belongs to another agent. */
  lemma LastRunKept(rows: seq<Frame>, k: int, a: int, b: int)
    requires rows != [] && rows[|rows| - 1].id != k
    requires LastRunOf(rows[..|rows| - 1], k, a, b)
    ensures LastRunOf(rows, k, a, b) && rows[a..b] == rows[..|rows| - 1][a..b]
  {
  }

  /** The entry of `track_frames` for k is the last maximal run of k's rows in the table. */
  lemma {:induction false} GroupIsLastRun(rows: seq<Frame>, k: int)
    requires k in Groups(rows)
    ensures exists a, b :: LastRunOf(rows, k, a, b) && Groups(rows)[k] == rows[a..b]
  {
    var pre, row := rows[..|rows| - 1], rows[|rows| - 1];
    GroupsStep(rows);
    if row.id == k {
      if pre != [] && pre[|pre| - 1].id == k && k in Groups(pre) {
        GroupIsLastRun(pre, k);
        var a, b :| LastRunOf(pre, k, a, b) && Groups(pre)[k] == pre[a..b];
        LastRunExtends(rows, k, a);
      } else {
        if pre != [] && pre[|pre| - 1].id == k {
          GroupsKeys(pre, k);
        }
        LastRunStarts(rows, k);
        assert rows[|pre|..|rows|] == [row];
      }
    } else {
      GroupIsLastRun(pre, k);
      var a, b :| LastRunOf(pre, k, a, b) && Groups(pre)[k] == pre[a..b];
      LastRunKept(rows, k, a, b);
    }
  }

  /** Every entry of `track_frames` is non-empty and holds only rows of its own id. */
  lemma GroupsWellFormed(rows: seq<Frame>)
    ensures forall k :: k in Groups(rows) ==>
      Groups(rows)[k] != [] && forall i :: 0 <= i < |Groups(rows)[k]| ==> Groups(rows)[k][i].id == k
  {
    forall k | k in Groups(rows)
      ensures Groups(rows)[k] != [] && forall i :: 0 <= i < |Groups(rows)[k]| ==> Groups(rows)[k][i].id == k
    {
      GroupIsLastRun(rows, k);
      var a, b :| LastRunOf(rows, k, a, b) && Groups(rows)[k] == rows[a..b];
      assert forall i :: 0 <= i < b - a ==> rows[a..b][i] == rows[a + i];
    }
  }

  /**
   The reader loop: append to the current run while the id repeats, store the
   run when the id changes, and store the last run after the table ends.
   */
  method GroupFrames(rows: seq<Frame>) returns (trackFrames: map<int, seq<Frame>>)
    ensures trackFrames == Groups(rows)
  {
    trackFrames := map[];
    var currentId: Option<int> := None;
    var frames: seq<Frame> := [];
    for i := 0 to |rows|
      invariant currentId.None? <==> i == 0
      invariant i == 0 ==> trackFrames == map[]
      invariant i > 0 ==> && currentId == Some(rows[i - 1].id)
                          && trackFrames[currentId.value := frames] == Groups(rows[..i])
                          && currentId.value in Groups(rows[..i])
                          && frames == Groups(rows[..i])[currentId.value]
    {
      var row := rows[i];
      assert rows[..i + 1][..i] == rows[..i];
      GroupsStep(rows[..i + 1]);
      if currentId == Some(row.id) {
        frames := frames + [row];
      } else if currentId.None? {
        frames := [row];
        currentId := Some(row.id);
      } else {
        trackFrames := trackFrames[currentId.value := frames];
        frames := [row];
        currentId := Some(row.id);
      }
    }
    if currentId.Some? {
      trackFrames := trackFrames[currentId.value := frames];
    }
    assert rows[..|rows|] == rows;
  }
}
