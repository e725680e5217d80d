/**
 Scoring of causal-discovery results against a convoy scene: the per-scene
 tally of reported links into true and false positives (kept in nested
 dictionaries with the scorer's merge-or-overwrite rule), the derived false
 negative and true negative counts, the totals over all scenes and the ratios
 computed from them.
 */
module Scoring {

  /**
   `tp_links` / `fp_links`: cause id to a dictionary from effect id to the
   number of times the link was merged.
   */
  type LinkTable = map<int, map<int, int>>

  /** `causal_links` in file order: each cause id with its list of effect ids. */
  type CausalLinks = seq<(int, seq<int>)>

  datatype Tables = Tables(tp: LinkTable, fp: LinkTable)

  /** True positives, false positives, false negatives and true negatives. */
  datatype Counts = Counts(tp: int, fp: int, fn: int, tn: int)

  /** A link counts as a true positive when both its ends are the convoy's head or tail. */
  predicate IsTruePositive(cause: int, effect: int, head: int, tail: int)
  {
    (cause == head || cause == tail) && (effect == head || effect == tail)
  }

  /**
   Storing one link: when the reverse link is stored, its counter goes up;
   otherwise the cause's entry is replaced by a fresh one holding only this
   effect.
   */
  function Record(t: LinkTable, cause: int, effect: int): LinkTable
  {
    if effect in t && cause in t[effect] then t[effect := t[effect][cause := t[effect][cause] + 1]]
    else t[cause := map[effect := 1]]
  }

  function RecordLink(tables: Tables, cause: int, effect: int, head: int, tail: int): Tables
  {
    if IsTruePositive(cause, effect, head, tail) then tables.(tp := Record(tables.tp, cause, effect))
    else tables.(fp := Record(tables.fp, cause, effect))
  }

  /** The inner loop: the effects of one cause, in order. */
  function TallyEffects(tables: Tables, cause: int, effects: seq<int>, head: int, tail: int): Tables
  {
    if effects == [] then tables
    else RecordLink(TallyEffects(tables, cause, effects[..|effects| - 1], head, tail),
                    cause, effects[|effects| - 1], head, tail)
  }

  /** Both tables once every link of the scene is read. */
  function Tally(links: CausalLinks, head: int, tail: int): Tables
  {
    if links == [] then Tables(map[], map[])
    else
      var last := links[|links| - 1];
      TallyEffects(Tally(links[..|links| - 1], head, tail), last.0, last.1, head, tail)
  }

  /** The number of (cause, effect) entries under the given causes, as the counting loops find them. */
  ghost function Entries(t: LinkTable, causes: set<int>): nat
    requires causes <= t.Keys
  {
    if causes == {} then 0
    else
      HasElement(causes);
      var c :| c in causes;
      |t[c]| + Entries(t, causes - {c})
  }

  lemma HasElement(s: set<int>)
    requires s != {}
    ensures exists x :: x in s
  {
    if forall x :: x !in s {
      assert false;
    }
  }

  /** Entries can be counted starting from any cause. */
  lemma {:induction false} EntriesRemove(t: LinkTable, causes: set<int>, c: int)
    requires causes <= t.Keys && c in causes
    ensures Entries(t, causes) == |t[c]| + Entries(t, causes - {c})
  {
    var d :| d in causes && Entries(t, causes) == |t[d]| + Entries(t, causes - {d});
    if d != c {
      var rest := causes - {c} - {d};
      assert causes - {d} - {c} == rest;
      EntriesRemove(t, causes - {d}, c);
      EntriesRemove(t, causes - {c}, d);
    }
  }

  /** The counts of one scene; `total` is the number of possible links. */
  ghost function SceneScore(links: CausalLinks, head: int, tail: int, total: int): Counts
  {
    var tables := Tally(links, head, tail);
    var tp, fp := Entries(tables.tp, tables.tp.Keys), Entries(tables.fp, tables.fp.Keys);
    var fn := if tp == 0 then 1 else 0;
    Counts(tp, fp, fn, total - (tp + fp + fn))
  }

  /** Every inner dictionary holds exactly one effect. */
  predicate Singletons(t: LinkTable)
  {
    forall c :: c in t ==> |t[c]| == 1
  }

  lemma RecordSingletons(t: LinkTable, cause: int, effect: int)
    requires Singletons(t)
    ensures Singletons(Record(t, cause, effect))
    ensures Record(t, cause, effect).Keys == t.Keys + {cause} || Record(t, cause, effect).Keys == t.Keys
  {
    if effect in t && cause in t[effect] {
      assert t[effect][cause := t[effect][cause] + 1].Keys == t[effect].Keys;
    } else {
      assert map[effect := 1].Keys == {effect};
    }
  }

  lemma {:induction false} TallyEffectsSingletons(tables: Tables, cause: int, effects: seq<int>, head: int, tail: int)
    requires Singletons(tables.tp) && Singletons(tables.fp)
    ensures var r := TallyEffects(tables, cause, effects, head, tail);
      Singletons(r.tp) && Singletons(r.fp)
  {
    if effects != [] {
      var pre := TallyEffects(tables, cause, effects[..|effects| - 1], head, tail);
      TallyEffectsSingletons(tables, cause, effects[..|effects| - 1], head, tail);
      RecordSingletons(pre.tp, cause, effects[|effects| - 1]);
      RecordSingletons(pre.fp, cause, effects[|effects| - 1]);
    }
  }

  /** Every inner dictionary of both tables holds exactly one entry. */
  lemma {:induction false} TallySingletons(links: CausalLinks, head: int, tail: int)
    ensures Singletons(Tally(links, head, tail).tp) && Singletons(Tally(links, head, tail).fp)
  {
    if links != [] {
      TallySingletons(links[..|links| - 1], head, tail);
      var last := links[|links| - 1];
      TallyEffectsSingletons(Tally(links[..|links| - 1], head, tail), last.0, last.1, head, tail);
    }
  }

  /** A table of single entries has as many entries as causes. */
  lemma {:induction false} EntriesOfSingletons(t: LinkTable, causes: set<int>)
    requires Singletons(t) && causes <= t.Keys
    ensures Entries(t, causes) == |causes|
  {
    if causes != {} {
      HasElement(causes);
      var c :| c in causes;
      EntriesRemove(t, causes, c);
      EntriesOfSingletons(t, causes - {c});
    }
  }

  /** So the scene's true and false positive counts are the numbers of causes in each table. */
  lemma CountsAreCauses(links: CausalLinks, head: int, tail: int, total: int)
    ensures SceneScore(links, head, tail, total).tp == |Tally(links, head, tail).tp|
    ensures SceneScore(links, head, tail, total).fp == |Tally(links, head, tail).fp|
  {
    TallySingletons(links, head, tail);
    var tables := Tally(links, head, tail);
    EntriesOfSingletons(tables.tp, tables.tp.Keys);
    EntriesOfSingletons(tables.fp, tables.fp.Keys);
  }

  /** The cause ids of the scene's links. */
  function Causes(links: CausalLinks): set<int>
  {
    set i | 0 <= i < |links| :: links[i].0
  }

  /** Each table holds only links of its own kind, keyed by a cause of the scene. */
  predicate Classified(tables: Tables, causes: set<int>, head: int, tail: int)
  {
    && (forall c :: c in tables.tp ==> c in causes && forall e :: e in tables.tp[c] ==> IsTruePositive(c, e, head, tail))
    && (forall c :: c in tables.fp ==> c in causes && forall e :: e in tables.fp[c] ==> !IsTruePositive(c, e, head, tail))
  }

  /** None of a cause's effects makes a true positive link. */
  predicate NoTruePositive(cause: int, effects: seq<int>, head: int, tail: int)
  {
    forall j :: 0 <= j < |effects| ==> !IsTruePositive(cause, effects[j], head, tail)
  }

  /** Every one of a cause's effects makes a true positive link. */
  predicate AllTruePositive(cause: int, effects: seq<int>, head: int, tail: int)
  {
    forall j :: 0 <= j < |effects| ==> IsTruePositive(cause, effects[j], head, tail)
  }

  lemma RecordLinkClassified(tables: Tables, causes: set<int>, cause: int, effect: int, head: int, tail: int)
    requires Classified(tables, causes, head, tail) && cause in causes
    ensures var r := RecordLink(tables, cause, effect, head, tail);
      && Classified(r, causes, head, tail)
      && (r.tp == map[] <==> tables.tp == map[] && !IsTruePositive(cause, effect, head, tail))
      && (r.fp == map[] <==> tables.fp == map[] && IsTruePositive(cause, effect, head, tail))
  {
    var r := RecordLink(tables, cause, effect, head, tail);
    if IsTruePositive(cause, effect, head, tail) {
      if effect in tables.tp && cause in tables.tp[effect] {
        assert effect in r.tp;
      } else {
        assert r.tp[cause] == map[effect := 1];
      }
    } else {
      if effect in tables.fp && cause in tables.fp[effect] {
        assert effect in r.fp;
      } else {
        assert r.fp[cause] == map[effect := 1];
      }
    }
  }

  lemma {:induction false} TallyEffectsClassified(tables: Tables, causes: set<int>, cause: int, effects: seq<int>,
                                                  head: int, tail: int)
    requires Classified(tables, causes, head, tail) && cause in causes
    ensures var r := TallyEffects(tables, cause, effects, head, tail);
      && Classified(r, causes, head, tail)
      && (r.tp == map[] <==> tables.tp == map[] && NoTruePositive(cause, effects, head, tail))
      && (r.fp == map[] <==> tables.fp == map[] && AllTruePositive(cause, effects, head, tail))
  {
    if effects != [] {
      var n := |effects| - 1;
      TallyEffectsClassified(tables, causes, cause, effects[..n], head, tail);
      RecordLinkClassified(TallyEffects(tables, cause, effects[..n], head, tail), causes, cause, effects[n], head, tail);
      assert forall j :: 0 <= j < n ==> effects[..n][j] == effects[j];
    }
  }

  /**
   The tally puts a link among the true positives exactly when both its ends
   are head or tail: each table holds only links of its kind, keyed by a cause
   of the scene, and each is empty only when no link of its kind was reported.
   */
  lemma {:induction false} TallyClassification(links: CausalLinks, head: int, tail: int)
    ensures Classified(Tally(links, head, tail), Causes(links), head, tail)
    ensures Tally(links, head, tail).tp == map[]
            <==> forall i :: 0 <= i < |links| ==> NoTruePositive(links[i].0, links[i].1, head, tail)
    ensures Tally(links, head, tail).fp == map[]
            <==> forall i :: 0 <= i < |links| ==> AllTruePositive(links[i].0, links[i].1, head, tail)
  {
    if links != [] {
      var n := |links| - 1;
      var pre := links[..n];
      TallyClassification(pre, head, tail);
      assert forall i :: 0 <= i < n ==> pre[i] == links[i];
      assert Causes(links) == Causes(pre) + {links[n].0};
      TallyEffectsClassified(Tally(pre, head, tail), Causes(links), links[n].0, links[n].1, head, tail);
    }
  }

  lemma {:induction false} SubsetSize(a: set<int>, b: set<int>)
    requires a <= b
    ensures |a| <= |b|
    decreases b
  {
    if a != {} {
      HasElement(a);
      var x :| x in a;
      SubsetSize(a - {x}, b - {x});
    }
  }

  /** The one key of a map with a single entry. */
  lemma OnlyKey(m: map<int, int>) returns (x: int)
    requires |m| == 1
    ensures m.Keys == {x}
  {
    assert |m.Keys| == 1;
    HasElement(m.Keys);
    x :| x in m.Keys;
    assert |m.Keys - {x}| == 0;
  }

  lemma KeysWithin(t: LinkTable, causes: set<int>)
    requires forall c :: c in t ==> c in causes
    ensures |t| <= |causes|
  {
    forall c | c in t.Keys
      ensures c in causes
    {
      assert c in t;
    }
    SubsetSize(t.Keys, causes);
  }

  /** Neither count exceeds the number of distinct cause ids. */
  lemma CountsBoundedByCauses(links: CausalLinks, head: int, tail: int, total: int)
    ensures SceneScore(links, head, tail, total).tp <= |Causes(links)|
    ensures SceneScore(links, head, tail, total).fp <= |Causes(links)|
  {
    CountsAreCauses(links, head, tail, total);
    TallyClassification(links, head, tail);
    KeysWithin(Tally(links, head, tail).tp, Causes(links));
    KeysWithin(Tally(links, head, tail).fp, Causes(links));
  }

  /** The scene's false negative is 1 exactly when no reported link joins head and tail, and 0 otherwise. */
  lemma FalseNegativeIffNoTruePositive(links: CausalLinks, head: int, tail: int, total: int)
    ensures SceneScore(links, head, tail, total).fn == 1
            <==> forall i :: 0 <= i < |links| ==> NoTruePositive(links[i].0, links[i].1, head, tail)
    ensures SceneScore(links, head, tail, total).fn == 0
            <==> exists i :: 0 <= i < |links| && !NoTruePositive(links[i].0, links[i].1, head, tail)
  {
    CountsAreCauses(links, head, tail, total);
    TallyClassification(links, head, tail);
  }

  /** No reported link leads from an agent to itself. */
  predicate NoSelfLinks(links: CausalLinks)
  {
    forall i, j :: 0 <= i < |links| && 0 <= j < |links[i].1| ==> links[i].1[j] != links[i].0
  }

  /** The true-positive table: at most one cause, holding one effect, the other end of the convoy pair. */
  predicate PairShape(tp: LinkTable, head: int, tail: int)
  {
    && Singletons(tp)
    && (forall a, b :: a in tp && b in tp ==> a == b)
    && (forall c :: c in tp ==> forall e :: e in tp[c] ==> IsTruePositive(c, e, head, tail) && c != e)
  }

  lemma RecordPairShape(tp: LinkTable, cause: int, effect: int, head: int, tail: int)
    requires head != tail && PairShape(tp, head, tail)
    requires IsTruePositive(cause, effect, head, tail) && cause != effect
    ensures PairShape(Record(tp, cause, effect), head, tail)
  {
    if effect in tp && cause in tp[effect] {
      assert tp[effect][cause := tp[effect][cause] + 1].Keys == tp[effect].Keys;
    } else {
      assert map[effect := 1].Keys == {effect};
      if k :| k in tp && k != cause {
        var x := OnlyKey(tp[k]);
        assert false;
      }
    }
  }

  lemma {:induction false} TallyEffectsPairShape(tables: Tables, cause: int, effects: seq<int>, head: int, tail: int)
    requires head != tail && PairShape(tables.tp, head, tail)
    requires forall j :: 0 <= j < |effects| ==> effects[j] != cause
    ensures PairShape(TallyEffects(tables, cause, effects, head, tail).tp, head, tail)
  {
    if effects != [] {
      var n := |effects| - 1;
      TallyEffectsPairShape(tables, cause, effects[..n], head, tail);
      var pre := TallyEffects(tables, cause, effects[..n], head, tail);
      if IsTruePositive(cause, effects[n], head, tail) {
        RecordPairShape(pre.tp, cause, effects[n], head, tail);
      }
    }
  }

  lemma {:induction false} TallyPairShape(links: CausalLinks, head: int, tail: int)
    requires head != tail && NoSelfLinks(links)
    ensures PairShape(Tally(links, head, tail).tp, head, tail)
  {
    if links != [] {
      var n := |links| - 1;
      assert NoSelfLinks(links[..n]) by {
        assert forall i :: 0 <= i < n ==> links[..n][i] == links[i];
      }
      TallyPairShape(links[..n], head, tail);
      TallyEffectsPairShape(Tally(links[..n], head, tail), links[n].0, links[n].1, head, tail);
    }
  }

  /**
   With distinct head and tail and no self-links, a scene has at most one true
   positive: the reverse of a stored link increments it instead of adding one.
   */
  lemma TruePositivesAtMostOne(links: CausalLinks, head: int, tail: int, total: int)
    requires head != tail && NoSelfLinks(links)
    ensures SceneScore(links, head, tail, total).tp <= 1
  {
    CountsAreCauses(links, head, tail, total);
    TallyPairShape(links, head, tail);
    var tp := Tally(links, head, tail).tp;
    if k :| k in tp {
      assert forall a :: a in tp.Keys ==> a == k;
      assert tp.Keys == {k};
    }
  }

  /** With head 1, tail 2 and one independent, so three possible links. */
  lemma ScoreExamples()
    ensures SceneScore([(1, [2])], 1, 2, 3) == Counts(1, 0, 0, 2)
    ensures SceneScore([], 1, 2, 3) == Counts(0, 0, 1, 2)
    ensures SceneScore([(3, [1])], 1, 2, 3) == Counts(0, 1, 1, 1)
    ensures SceneScore([(3, [1, 2])], 1, 2, 3).fp == 1
  {
    var a: CausalLinks, b: CausalLinks, c: CausalLinks, d: CausalLinks := [(1, [2])], [], [(3, [1])], [(3, [1, 2])];
    assert a[..0] == [] && c[..0] == [] && d[..0] == [];
    assert [2][..0] == [] && [1][..0] == [] && [1, 2][..1] == [1] && [1, 2][..1][..0] == [];
    CountsAreCauses(a, 1, 2, 3);
    CountsAreCauses(b, 1, 2, 3);
    CountsAreCauses(c, 1, 2, 3);
    CountsAreCauses(d, 1, 2, 3);
    assert Tally(a, 1, 2).tp.Keys == {1};
    assert Tally(c, 1, 2).fp.Keys == {3};
    assert Tally(d, 1, 2).fp.Keys == {3};
  }

  /** The number of unordered pairs among n agents, counted agent by agent. */
  function PairCount(n: nat): nat
  {
    if n == 0 then 0 else PairCount(n - 1) + (n - 1)
  }

  /** `total_possible_links` for a scene with the given number of independents: n choose 2 with n = 2 + that number. */
  function TotalPossibleLinks(independentCount: nat): int
  {
    var n := 2 + independentCount;
    n * (n - 1) / 2
  }

  lemma {:induction false} PairCountClosedForm(n: nat)
    ensures 2 * PairCount(n) == n * (n - 1)
  {
    if n > 0 {
      PairCountClosedForm(n - 1);
      assert (n - 1) * (n - 2) + 2 * (n - 1) == n * (n - 1);
    }
  }

  /** The scorer's closed formula counts exactly the unordered pairs of the scene's agents. */
  lemma PossibleLinksArePairs(independentCount: nat)
    ensures TotalPossibleLinks(independentCount) == PairCount(2 + independentCount)
    ensures TotalPossibleLinks(independentCount) >= 1
  {
    var n := 2 + independentCount;
    PairCountClosedForm(n);
    assert n * (n - 1) == 2 * PairCount(n);
  }

  /**
   The tally loop: each effect of each cause, in file order, merged into the
   table of its kind.
   */
  method TallyLinks(links: CausalLinks, head: int, tail: int) returns (tpLinks: LinkTable, fpLinks: LinkTable)
    ensures Tables(tpLinks, fpLinks) == Tally(links, head, tail)
  {
    tpLinks, fpLinks := map[], map[];
    for i := 0 to |links|
      invariant Tables(tpLinks, fpLinks) == Tally(links[..i], head, tail)
    {
      assert links[..i + 1][..i] == links[..i];
      var (cause, effects) := links[i];
      for j := 0 to |effects|
        invariant Tables(tpLinks, fpLinks) == TallyEffects(Tally(links[..i], head, tail), cause, effects[..j], head, tail)
      {
        assert effects[..j + 1][..j] == effects[..j];
        var effect := effects[j];
        if (cause == head || cause == tail) && (effect == head || effect == tail) {
          if effect in tpLinks && cause in tpLinks[effect] {
            tpLinks := tpLinks[effect := tpLinks[effect][cause := tpLinks[effect][cause] + 1]];
          } else {
            tpLinks := tpLinks[cause := map[effect := 1]];
          }
        } else {
          if effect in fpLinks && cause in fpLinks[effect] {
            fpLinks := fpLinks[effect := fpLinks[effect][cause := fpLinks[effect][cause] + 1]];
          } else {
            fpLinks := fpLinks[cause := map[effect := 1]];
          }
        }
      }
      assert effects[..|effects|] == effects;
    }
    assert links[..|links|] == links;
  }

  /** The counting loops: one per (cause, effect) entry of the table. */
  method CountEntries(t: LinkTable) returns (count: int)
    ensures count == Entries(t, t.Keys)
  {
    count := 0;
    var causes := t.Keys;
    while causes != {}
      invariant causes <= t.Keys
      invariant count + Entries(t, causes) == Entries(t, t.Keys)
      decreases causes
    {
      HasElement(causes);
      var cause :| cause in causes;
      EntriesRemove(t, causes, cause);
      ghost var before := count;
      var effects := t[cause].Keys;
      while effects != {}
        invariant effects <= t[cause].Keys
        invariant count == before + |t[cause].Keys| - |effects|
        decreases effects
      {
        HasElement(effects);
        var effect :| effect in effects;
        count := count + 1;
        effects := effects - {effect};
      }
      causes := causes - {cause};
    }
  }

  /** `calculate_scene_performance`: the tally, the two counts, the fixed false negative and the true negatives. */
  method ScenePerformance(links: CausalLinks, head: int, tail: int, totalPossibleLinks: int)
    returns (tpCount: int, fpCount: int, fnCount: int, tnCount: int)
    ensures Counts(tpCount, fpCount, fnCount, tnCount) == SceneScore(links, head, tail, totalPossibleLinks)
  {
    var tpLinks, fpLinks := TallyLinks(links, head, tail);
    tpCount := CountEntries(tpLinks);
    fpCount := CountEntries(fpLinks);
    fnCount := 0;
    if tpCount == 0 {
      fnCount := fnCount + 1;
    }
    tnCount := totalPossibleLinks - (tpCount + fpCount + fnCount);
  }

  /** One result file: the convoy's head and tail, its independents and the reported links. */
  datatype SceneResult = SceneResult(head: int, tail: int, independentIds: seq<int>, links: CausalLinks)

  ghost function Score(r: SceneResult): Counts
  {
    SceneScore(r.links, r.head, r.tail, TotalPossibleLinks(|r.independentIds|))
  }

  function Add(a: Counts, b: Counts): Counts
  {
    Counts(a.tp + b.tp, a.fp + b.fp, a.fn + b.fn, a.tn + b.tn)
  }

  /** The running totals over the result files, in order. */
  ghost function Totals(results: seq<SceneResult>): Counts
  {
    if results == [] then Counts(0, 0, 0, 0)
    else Add(Totals(results[..|results| - 1]), Score(results[|results| - 1]))
  }

  /** The possible links of all scenes together. */
  function AllPossibleLinks(results: seq<SceneResult>): int
  {
    if results == [] then 0
    else AllPossibleLinks(results[..|results| - 1]) + TotalPossibleLinks(|results[|results| - 1].independentIds|)
  }

  /** The accumulation loop over the result files. */
  method EvaluateScenes(results: seq<SceneResult>) returns (totals: Counts)
    ensures totals == Totals(results)
  {
    var tp, fp, fn, tn := 0, 0, 0, 0;
    for i := 0 to |results|
      invariant tp == Totals(results[..i]).tp && fp == Totals(results[..i]).fp
      invariant fn == Totals(results[..i]).fn && tn == Totals(results[..i]).tn
    {
      assert results[..i + 1][..i] == results[..i];
      var r := results[i];
      var n := 2 + |r.independentIds|;
      var totalPossibleLinks := n * (n - 1) / 2;
      var sceneTp, sceneFp, sceneFn, sceneTn := ScenePerformance(r.links, r.head, r.tail, totalPossibleLinks);
      tp, fp, fn, tn := tp + sceneTp, fp + sceneFp, fn + sceneFn, tn + sceneTn;
    }
    assert results[..|results|] == results;
    totals := Counts(tp, fp, fn, tn);
  }

  /** Every scene's four counts add up to its possible links. */
  lemma ScorePartitions(r: SceneResult)
    ensures var c := Score(r); c.tp + c.fp + c.fn + c.tn == TotalPossibleLinks(|r.independentIds|)
    ensures var c := Score(r); c.tp >= 0 && c.fp >= 0 && c.tp + c.fn >= 1
  {
  }

  /**
   The totals keep the partition: they add up to the possible links of all
   scenes, and each scene contributes at least one true positive or false
   negative.
   */
  lemma {:induction false} TotalsPartition(results: seq<SceneResult>)
    ensures var c := Totals(results); c.tp + c.fp + c.fn + c.tn == AllPossibleLinks(results)
    ensures var c := Totals(results); c.tp >= 0 && c.fp >= 0 && c.fn >= 0 && c.tp + c.fn >= |results|
  {
    if results != [] {
      TotalsPartition(results[..|results| - 1]);
      ScorePartitions(results[|results| - 1]);
    }
  }

  /** Precision: zero when nothing was reported, otherwise the share of true positives among the reported links. */
  function Precision(c: Counts): (r: real)
    requires c.tp >= 0 && c.fp >= 0
    ensures 0.0 <= r <= 1.0
    ensures r == 0.0 <==> c.tp == 0
    ensures r == 1.0 <==> c.tp > 0 && c.fp == 0
  {
    if c.tp + c.fp == 0 then 0.0 else c.tp as real / (c.tp + c.fp) as real
  }

  /** Recall: the share of true positives among the true positives and false negatives. */
  function Recall(c: Counts): (r: real)
    requires c.tp >= 0 && c.fn >= 0 && c.tp + c.fn != 0
    ensures 0.0 <= r <= 1.0
    ensures r == 0.0 <==> c.tp == 0
    ensures r == 1.0 <==> c.fn == 0
  {
    c.tp as real / (c.tp + c.fn) as real
  }

  /** Fallout: the share of false positives among the false positives and true negatives. */
  function Fallout(c: Counts): (r: real)
    requires c.fp + c.tn != 0
    ensures c.fp >= 0 && c.tn >= 0 ==> 0.0 <= r <= 1.0
    ensures r == 0.0 <==> c.fp == 0
  {
    c.fp as real / (c.fp + c.tn) as real
  }

  /** F1 score: twice the true positives over twice the true positives plus the false positives and negatives. */
  function F1(c: Counts): (r: real)
    requires c.tp >= 0 && c.fp >= 0 && c.fn >= 0 && 2 * c.tp + c.fp + c.fn != 0
    ensures 0.0 <= r <= 1.0
    ensures r == 0.0 <==> c.tp == 0
  {
    (2 * c.tp) as real / (2 * c.tp + c.fp + c.fn) as real
  }

  /** Once one scene is scored, the recall and F1 denominators are positive. */
  lemma RecallAndF1Defined(results: seq<SceneResult>)
    requires results != []
    ensures var c := Totals(results); c.tp >= 0 && c.fp >= 0 && c.fn >= 0
    ensures var c := Totals(results); c.tp + c.fn > 0 && 2 * c.tp + c.fp + c.fn > 0
  {
    TotalsPartition(results);
  }

  /** With some true positive, F1 is the harmonic mean of precision and recall. */
  lemma F1IsHarmonicMean(c: Counts)
    requires c.tp > 0 && c.fp >= 0 && c.fn >= 0
    ensures F1(c) == 2.0 * Precision(c) * Recall(c) / (Precision(c) + Recall(c))
  {
    var tp, fp, fn := c.tp as real, c.fp as real, c.fn as real;
    var p, r := tp / (tp + fp), tp / (tp + fn);
    assert p * (tp + fp) == tp && r * (tp + fn) == tp;
    assert 2.0 * p * r / (p + r) == 2.0 * tp / (2.0 * tp + fp + fn) by {
      assert p + r == tp * (2.0 * tp + fp + fn) / ((tp + fp) * (tp + fn));
      assert 2.0 * p * r == 2.0 * tp * tp / ((tp + fp) * (tp + fn));
    }
  }

  /**
   When every scene has an independent, distinct head and tail and no
   self-links, the fallout denominator is positive too: each scene has at
   most one true positive, so its false positives and true negatives make up
   all but one of its at least three possible links.
   */
  lemma {:induction false} FalloutDefined(results: seq<SceneResult>)
    requires results != []
    requires forall i :: 0 <= i < |results| ==>
      |results[i].independentIds| >= 1 && results[i].head != results[i].tail && NoSelfLinks(results[i].links)
    ensures Totals(results).fp + Totals(results).tn >= 2 * |results|
  {
    var n := |results| - 1;
    var r := results[n];
    TruePositivesAtMostOne(r.links, r.head, r.tail, TotalPossibleLinks(|r.independentIds|));
    PossibleLinksArePairs(|r.independentIds|);
    assert TotalPossibleLinks(|r.independentIds|) >= 3 by {
      var k := 2 + |r.independentIds|;
      assert k * (k - 1) >= 3 * 2;
    }
    if n > 0 {
      assert forall i :: 0 <= i < n ==> results[..n][i] == results[i];
      FalloutDefined(results[..n]);
    }
  }
}
