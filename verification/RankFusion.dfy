/** Reciprocal rank fusion of rag/retrieval.py, with scores as exact numbers. */
module RankFusion {
  import opened Wrappers

  datatype Scored = Scored(id: string, score: real)

  datatype Error = DivisionByZero

  // ---------- Scores ----------

  /** No rank of the list cancels the constant. */
  predicate Scorable(ranked: seq<string>, k: int) {
    !(0 < -k <= |ranked|)
  }

  predicate AllScorable(lists: seq<seq<string>>, k: int) {
    forall l :: 0 <= l < |lists| ==> Scorable(lists[l], k)
  }

  /** What position i, counted from 0, is worth. */
  function Worth(k: int, i: nat): real
    requires k + i + 1 != 0
  {
    1.0 / (k + i + 1) as real
  }

  /** The worth of every occurrence of an id in a list. */
  function ListScore(ranked: seq<string>, k: int, id: string): real
    requires Scorable(ranked, k)
  {
    if ranked == [] then 0.0
    else
      var n := |ranked| - 1;
      ListScore(ranked[..n], k, id) + if ranked[n] == id then Worth(k, n) else 0.0
  }

  function Score(lists: seq<seq<string>>, k: int, id: string): real
    requires AllScorable(lists, k)
  {
    if lists == [] then 0.0
    else Score(lists[..|lists| - 1], k, id) + ListScore(lists[|lists| - 1], k, id)
  }

  // ---------- The order of a dictionary ----------

  function Flatten(lists: seq<seq<string>>): seq<string> {
    if lists == [] then [] else Flatten(lists[..|lists| - 1]) + lists[|lists| - 1]
  }

  /** The different ids, in order of first appearance. */
  function FirstSeen(ids: seq<string>): seq<string> {
    if ids == [] then []
    else
      var before, last := FirstSeen(ids[..|ids| - 1]), ids[|ids| - 1];
      if last in before then before else before + [last]
  }

  predicate Distinct(ids: seq<string>) {
    forall i, j :: 0 <= i < j < |ids| ==> ids[i] != ids[j]
  }

  lemma {:induction false} FirstSeenIds(ids: seq<string>)
    ensures Distinct(FirstSeen(ids)) && forall id :: id in FirstSeen(ids) <==> id in ids
  {
    if ids != [] {
      var init := ids[..|ids| - 1];
      FirstSeenIds(init);
      assert ids == init + [ids[|ids| - 1]];
    }
  }

  lemma FirstSeenPush(ids: seq<string>, id: string)
    ensures FirstSeen(ids + [id]) == if id in FirstSeen(ids) then FirstSeen(ids) else FirstSeen(ids) + [id]
  {
    assert (ids + [id])[..|ids|] == ids;
  }

  // ---------- sorted(items, key=score, reverse=True) ----------

  /** Behind every item with at least its score. */
  function Insert(items: seq<Scored>, x: Scored): seq<Scored> {
    if items == [] || items[|items| - 1].score >= x.score then items + [x]
    else Insert(items[..|items| - 1], x) + [items[|items| - 1]]
  }

  function SortDesc(items: seq<Scored>): seq<Scored> {
    if items == [] then [] else Insert(SortDesc(items[..|items| - 1]), items[|items| - 1])
  }

  predicate Descending(items: seq<Scored>) {
    forall i, j :: 0 <= i < j < |items| ==> items[i].score >= items[j].score
  }

  lemma {:induction false} InsertKeeps(items: seq<Scored>, x: Scored)
    requires Descending(items)
    ensures Descending(Insert(items, x)) && multiset(Insert(items, x)) == multiset(items) + multiset{x}
  {
    if items != [] && items[|items| - 1].score < x.score {
      var init, last := items[..|items| - 1], items[|items| - 1];
      InsertKeeps(init, x);
      assert items == init + [last];
      var inserted := Insert(init, x);
      forall i | 0 <= i < |inserted|
        ensures inserted[i].score >= last.score
      {
        assert inserted[i] in multiset(inserted);
        assert inserted[i] in init || inserted[i] == x;
      }
    }
  }

  lemma {:induction false} SortKeeps(items: seq<Scored>)
    ensures Descending(SortDesc(items)) && multiset(SortDesc(items)) == multiset(items)
  {
    if items != [] {
      var init := items[..|items| - 1];
      SortKeeps(init);
      InsertKeeps(SortDesc(init), items[|items| - 1]);
      assert items == init + [items[|items| - 1]];
    }
  }

  /** The items of one score. */
  function Tied(items: seq<Scored>, score: real): seq<Scored> {
    if items == [] then []
    else
      var last := items[|items| - 1];
      Tied(items[..|items| - 1], score) + if last.score == score then [last] else []
  }

  lemma TiedPush(items: seq<Scored>, x: Scored, score: real)
    ensures Tied(items + [x], score) == Tied(items, score) + if x.score == score then [x] else []
  {
    assert (items + [x])[..|items|] == items;
  }

  lemma {:induction false} InsertStable(items: seq<Scored>, x: Scored, score: real)
    requires Descending(items)
    ensures Tied(Insert(items, x), score) == Tied(items, score) + if x.score == score then [x] else []
  {
    hide Tied;
    if items == [] || items[|items| - 1].score >= x.score {
      TiedPush(items, x, score);
    } else {
      var init, last := items[..|items| - 1], items[|items| - 1];
      assert items == init + [last];
      InsertStable(init, x, score);
      TiedPush(Insert(init, x), last, score);
      TiedPush(init, last, score);
    }
  }

  /** Items of the same score stay in the order they came in. */
  lemma {:induction false} SortStable(items: seq<Scored>, score: real)
    ensures Tied(SortDesc(items), score) == Tied(items, score)
  {
    hide Tied;
    if items != [] {
      var init := items[..|items| - 1];
      SortStable(init, score);
      SortKeeps(init);
      InsertStable(SortDesc(init), items[|items| - 1], score);
      TiedPush(init, items[|items| - 1], score);
      assert items == init + [items[|items| - 1]];
    }
  }

  // ---------- The fused list ----------

  function Entries(ids: seq<string>, lists: seq<seq<string>>, k: int): seq<Scored>
    requires AllScorable(lists, k)
  {
    seq(|ids|, i requires 0 <= i < |ids| => Scored(ids[i], Score(lists, k, ids[i])))
  }

  function Fused(lists: seq<seq<string>>, k: int): seq<Scored>
    requires AllScorable(lists, k)
  {
    SortDesc(Entries(FirstSeen(Flatten(lists)), lists, k))
  }

  lemma {:induction false} FlattenIds(lists: seq<seq<string>>)
    ensures forall id :: id in Flatten(lists) <==> exists l :: 0 <= l < |lists| && id in lists[l]
  {
    if lists != [] {
      var init, last := lists[..|lists| - 1], lists[|lists| - 1];
      FlattenIds(init);
      forall id
        ensures id in Flatten(lists) <==> exists l :: 0 <= l < |lists| && id in lists[l]
      {
        if id in Flatten(init) {
          var l :| 0 <= l < |init| && id in init[l];
          assert id in lists[l];
        }
        if exists l :: 0 <= l < |lists| && id in lists[l] {
          var l :| 0 <= l < |lists| && id in lists[l];
          assert l < |init| ==> id in init[l];
        }
      }
    }
  }

  lemma EntriesOnce(ids: seq<string>, lists: seq<seq<string>>, k: int, x: Scored)
    requires AllScorable(lists, k) && Distinct(ids)
    ensures multiset(Entries(ids, lists, k))[x] == if x.id in ids && x.score == Score(lists, k, x.id) then 1 else 0
    decreases |ids|
  {
    hide Score;
    var items := Entries(ids, lists, k);
    if ids != [] {
      var n := |ids| - 1;
      EntriesOnce(ids[..n], lists, k, x);
      assert items == Entries(ids[..n], lists, k) + [items[n]];
      assert ids == ids[..n] + [ids[n]];
      assert ids[n] !in ids[..n];
    }
  }

  /** The fused list is the union of the ids, each once with its score, in descending order of score. */
  lemma FusedMeaning(lists: seq<seq<string>>, k: int)
    requires AllScorable(lists, k)
    ensures Descending(Fused(lists, k))
    ensures forall x :: x in Fused(lists, k) <==>
              (exists l :: 0 <= l < |lists| && x.id in lists[l]) && x.score == Score(lists, k, x.id)
    ensures forall i, j :: 0 <= i < j < |Fused(lists, k)| ==> Fused(lists, k)[i].id != Fused(lists, k)[j].id
  {
    hide Score, SortDesc, FirstSeen, Flatten;
    var ids := FirstSeen(Flatten(lists));
    var items, sorted := Entries(ids, lists, k), Fused(lists, k);
    FirstSeenIds(Flatten(lists));
    FlattenIds(lists);
    SortKeeps(items);
    forall x: Scored
      ensures x in sorted <==> x.id in ids && x.score == Score(lists, k, x.id)
      ensures multiset(sorted)[x] <= 1
    {
      EntriesOnce(ids, lists, k, x);
      assert x in sorted <==> multiset(sorted)[x] > 0;
    }
    forall i, j | 0 <= i < j < |sorted|
      ensures sorted[i].id != sorted[j].id
    {
      assert sorted[i] in sorted && sorted[j] in sorted;
      if sorted[i].id == sorted[j].id {
        TwiceCounted(sorted, i, j);
      }
    }
  }

  lemma TwiceCounted(items: seq<Scored>, i: nat, j: nat)
    requires i < j < |items| && items[i] == items[j]
    ensures multiset(items)[items[i]] >= 2
  {
    assert items == items[..j] + items[j..];
    assert items[i] == items[..j][i] && items[j] == items[j..][0];
    assert multiset(items) == multiset(items[..j]) + multiset(items[j..]);
    assert items[i] in multiset(items[..j]) && items[i] in multiset(items[j..]);
  }

  // ---------- The order of the lists does not matter ----------

  lemma {:induction false} ScoreConcat(a: seq<seq<string>>, b: seq<seq<string>>, k: int, id: string)
    requires AllScorable(a, k) && AllScorable(b, k) && AllScorable(a + b, k)
    ensures Score(a + b, k, id) == Score(a, k, id) + Score(b, k, id)
  {
    hide ListScore, Scorable;
    if b == [] {
      assert a + b == a;
    } else {
      assert (a + b)[..|a + b| - 1] == a + b[..|b| - 1];
      ScoreConcat(a, b[..|b| - 1], k, id);
    }
  }

  lemma ScoreOne(ranked: seq<string>, k: int, id: string)
    requires Scorable(ranked, k) && AllScorable([ranked], k)
    ensures Score([ranked], k, id) == ListScore(ranked, k, id)
  {
    hide ListScore, Scorable;
    assert [ranked][..0] == [];
  }

  lemma WithoutOne<T>(init: seq<T>, x: T, a: seq<T>, b: seq<T>)
    requires multiset(init + [x]) == multiset(a + ([x] + b))
    ensures multiset(init) == multiset(a + b)
  {
    assert multiset(init + [x]) == multiset(init) + multiset{x};
    assert multiset(a + ([x] + b)) == multiset(a) + (multiset{x} + multiset(b));
    assert multiset(init) == multiset(init + [x]) - multiset{x};
  }

  lemma ScoreSplit(a: seq<seq<string>>, x: seq<string>, b: seq<seq<string>>, k: int, id: string)
    requires AllScorable(a + ([x] + b), k)
    ensures Scorable(x, k) && AllScorable(a + b, k)
    ensures Score(a + ([x] + b), k, id) == Score(a + b, k, id) + ListScore(x, k, id)
  {
    hide Score, Scorable, ListScore;
    var all := a + ([x] + b);
    assert all[|a|] == x;
    assert forall l :: 0 <= l < |a| ==> all[l] == a[l];
    assert forall l :: 0 <= l < |b| ==> all[|a| + 1 + l] == b[l];
    ScoreOne(x, k, id);
    ScoreConcat([x], b, k, id);
    ScoreConcat(a, [x] + b, k, id);
    ScoreConcat(a, b, k, id);
  }

  lemma ScorableTogether(lists: seq<seq<string>>, lists': seq<seq<string>>, k: int)
    requires AllScorable(lists, k) && multiset(lists) == multiset(lists')
    ensures AllScorable(lists', k)
  {
    hide Scorable;
    forall l | 0 <= l < |lists'|
      ensures Scorable(lists'[l], k)
    {
      assert lists'[l] in multiset(lists');
      assert lists'[l] in lists;
    }
  }

  lemma ScoreNone(lists: seq<seq<string>>, lists': seq<seq<string>>)
    requires lists == [] && multiset(lists) == multiset(lists')
    ensures lists' == []
  {
    assert |multiset(lists')| == 0;
  }

  /** Scores depend only on the lists as a collection. */
  lemma {:induction false} ScoreOrderIrrelevant(lists: seq<seq<string>>, lists': seq<seq<string>>, k: int, id: string)
    requires AllScorable(lists, k) && multiset(lists) == multiset(lists')
    ensures AllScorable(lists', k) && Score(lists, k, id) == Score(lists', k, id)
    decreases |lists|
  {
    hide ListScore, AllScorable;
    ScorableTogether(lists, lists', k);
    if lists == [] {
      ScoreNone(lists, lists');
    } else {
      var n := |lists| - 1;
      var last := lists[n];
      assert last in multiset(lists);
      var m :| 0 <= m < |lists'| && lists'[m] == last;
      var a, b := lists'[..m], lists'[m + 1..];
      assert lists' == a + ([last] + b) && lists == lists[..n] + [last];
      WithoutOne(lists[..n], last, a, b);
      ScoreSplit(a, last, b, k, id);
      ScorableTogether(a + b, lists[..n], k);
      ScoreOrderIrrelevant(lists[..n], a + b, k, id);
    }
  }

  // ---------- Dominance ----------

  /** Every occurrence of b is behind an occurrence of a. */
  predicate Outranks(ranked: seq<string>, a: string, b: string) {
    forall j :: 0 <= j < |ranked| && ranked[j] == b ==> exists i :: 0 <= i < j && ranked[i] == a
  }

  lemma {:induction false} ListScoreAbsent(ranked: seq<string>, k: int, id: string)
    requires Scorable(ranked, k) && id !in ranked
    ensures ListScore(ranked, k, id) == 0.0
  {
    if ranked != [] {
      ListScoreAbsent(ranked[..|ranked| - 1], k, id);
    }
  }

  lemma {:induction false} ListScoreAt(ranked: seq<string>, k: int, i: nat)
    requires Scorable(ranked, k) && Distinct(ranked) && i < |ranked|
    ensures ListScore(ranked, k, ranked[i]) == Worth(k, i)
  {
    var n := |ranked| - 1;
    if i == n {
      ListScoreAbsent(ranked[..n], k, ranked[n]);
    } else {
      ListScoreAt(ranked[..n], k, i);
    }
  }

  lemma EarlierIsWorthMore(k: int, i: nat, j: nat)
    requires k >= 0 && i < j
    ensures Worth(k, i) > Worth(k, j) > 0.0
  {
    var x, y := (k + i + 1) as real, (k + j + 1) as real;
    assert 0.0 < x < y;
    assert 1.0 / x - 1.0 / y == (y - x) / (x * y);
  }

  lemma ListDominance(ranked: seq<string>, k: int, a: string, b: string)
    requires k >= 0 && Scorable(ranked, k) && Distinct(ranked) && Outranks(ranked, a, b)
    ensures ListScore(ranked, k, a) >= ListScore(ranked, k, b) >= 0.0
    ensures b in ranked ==> ListScore(ranked, k, a) > ListScore(ranked, k, b)
  {
    hide ListScore, Worth;
    if b in ranked {
      var j :| 0 <= j < |ranked| && ranked[j] == b;
      var i :| 0 <= i < j && ranked[i] == a;
      ListScoreAt(ranked, k, i);
      ListScoreAt(ranked, k, j);
      EarlierIsWorthMore(k, i, j);
    } else {
      ListScoreAbsent(ranked, k, b);
      if a in ranked {
        var i :| 0 <= i < |ranked| && ranked[i] == a;
        ListScoreAt(ranked, k, i);
        EarlierIsWorthMore(k, i, i + 1);
      } else {
        ListScoreAbsent(ranked, k, a);
      }
    }
  }

  lemma {:induction false} ScoreDominance(lists: seq<seq<string>>, k: int, a: string, b: string)
    requires k >= 0 && AllScorable(lists, k)
    requires forall l :: 0 <= l < |lists| ==> Distinct(lists[l]) && Outranks(lists[l], a, b)
    ensures Score(lists, k, a) >= Score(lists, k, b)
    ensures (exists l :: 0 <= l < |lists| && b in lists[l]) ==> Score(lists, k, a) > Score(lists, k, b)
  {
    hide ListScore, Distinct, Outranks, Scorable;
    if lists != [] {
      var n := |lists| - 1;
      ScoreDominance(lists[..n], k, a, b);
      ListDominance(lists[n], k, a, b);
      if exists l :: 0 <= l < |lists| && b in lists[l] {
        var l :| 0 <= l < |lists| && b in lists[l];
        if l < n {
          assert b in lists[..n][l];
        }
      }
    }
  }

  /** If a outranks b in every list that has b, and no list repeats an id, then a comes before b. */
  lemma Dominance(lists: seq<seq<string>>, k: int, a: string, b: string) returns (i: nat, j: nat)
    requires k >= 0 && AllScorable(lists, k)
    requires forall l :: 0 <= l < |lists| ==> Distinct(lists[l]) && Outranks(lists[l], a, b)
    requires exists l :: 0 <= l < |lists| && b in lists[l]
    ensures i < j < |Fused(lists, k)| && Fused(lists, k)[i].id == a && Fused(lists, k)[j].id == b
  {
    hide Score, Fused, Distinct, Scorable;
    var l :| 0 <= l < |lists| && b in lists[l];
    var q :| 0 <= q < |lists[l]| && lists[l][q] == b;
    var p :| 0 <= p < q && lists[l][p] == a;
    assert a in lists[l];
    FusedMeaning(lists, k);
    ScoreDominance(lists, k, a, b);
    var fused := Fused(lists, k);
    assert Scored(a, Score(lists, k, a)) in fused && Scored(b, Score(lists, k, b)) in fused;
    i :| 0 <= i < |fused| && fused[i] == Scored(a, Score(lists, k, a));
    j :| 0 <= j < |fused| && fused[j] == Scored(b, Score(lists, k, b));
  }

  // ---------- What a rank is worth, and ties ----------

  /** In one list without repetitions the id of rank r, counted from 1, scores 1 / (k + r). */
  lemma RankMeaning(ranked: seq<string>, k: int, r: nat)
    requires Scorable(ranked, k) && Distinct(ranked) && 1 <= r <= |ranked|
    ensures k + r != 0 && Score([ranked], k, ranked[r - 1]) * (k + r) as real == 1.0
  {
    var lists := [ranked];
    ListScoreAt(ranked, k, r - 1);
    assert lists[..0] == [];
    assert Score([], k, ranked[r - 1]) == 0.0;
    assert Score(lists, k, ranked[r - 1]) == Worth(k, r - 1);
  }

  /** The position of the first appearance of an id. */
  function FirstIndex(ids: seq<string>, id: string): (i: nat)
    requires id in ids
    ensures i < |ids| && ids[i] == id && id !in ids[..i]
  {
    if ids[0] == id then 0
    else
      assert ids == [ids[0]] + ids[1..];
      var i := FirstIndex(ids[1..], id);
      assert ids[..i + 1] == [ids[0]] + ids[1..][..i];
      i + 1
  }

  lemma FirstIndexIs(ids: seq<string>, i: nat)
    requires i < |ids| && ids[i] !in ids[..i]
    ensures FirstIndex(ids, ids[i]) == i
  {
    var f := FirstIndex(ids, ids[i]);
    forall m | 0 <= m < i
      ensures ids[m] != ids[i]
    {
      assert ids[m] in ids[..i];
    }
    forall m | 0 <= m < f
      ensures ids[m] != ids[i]
    {
      assert ids[m] in ids[..f];
    }
  }

  lemma {:induction false} FirstSeenOrder(ids: seq<string>, i: nat, j: nat)
    requires i < j < |FirstSeen(ids)|
    ensures FirstSeen(ids)[i] in ids && FirstSeen(ids)[j] in ids
    ensures FirstIndex(ids, FirstSeen(ids)[i]) < FirstIndex(ids, FirstSeen(ids)[j])
  {
    hide FirstIndex;
    FirstSeenIds(ids);
    var n := |ids| - 1;
    var init, seen := ids[..n], FirstSeen(ids);
    FirstSeenIds(init);
    assert ids == init + [ids[n]];
    if j < |FirstSeen(init)| {
      FirstSeenOrder(init, i, j);
      SameFirst(init, ids[n], seen[i]);
      SameFirst(init, ids[n], seen[j]);
    } else {
      SameFirst(init, ids[n], seen[i]);
      FirstIndexIs(ids, n);
    }
  }

  lemma SameFirst(ids: seq<string>, last: string, id: string)
    requires id in ids
    ensures FirstIndex(ids + [last], id) == FirstIndex(ids, id) < |ids|
  {
    var i := FirstIndex(ids, id);
    assert (ids + [last])[..i] == ids[..i];
    FirstIndexIs(ids + [last], i);
  }

  lemma {:induction false} TiedPlaces(items: seq<Scored>, i: nat, j: nat)
    requires i < j < |items| && items[i].score == items[j].score
    ensures exists p, q :: 0 <= p < q < |Tied(items, items[i].score)|
              && Tied(items, items[i].score)[p] == items[i] && Tied(items, items[i].score)[q] == items[j]
  {
    var n := |items| - 1;
    var s := items[i].score;
    var before := Tied(items[..n], s);
    assert forall p :: 0 <= p < |before| ==> Tied(items, s)[p] == before[p];
    if j < n {
      TiedPlaces(items[..n], i, j);
      var p, q :| 0 <= p < q < |before| && before[p] == items[i] && before[q] == items[j];
      assert Tied(items, s)[p] == items[i] && Tied(items, s)[q] == items[j];
    } else {
      TiedPlace(items[..n], i);
      var p :| 0 <= p < |before| && before[p] == items[i];
      assert Tied(items, s)[p] == items[i] && Tied(items, s)[|before|] == items[j];
    }
  }

  lemma {:induction false} TiedPlace(items: seq<Scored>, i: nat)
    requires i < |items|
    ensures exists p :: 0 <= p < |Tied(items, items[i].score)| && Tied(items, items[i].score)[p] == items[i]
  {
    var n := |items| - 1;
    var before := Tied(items[..n], items[i].score);
    if i < n {
      TiedPlace(items[..n], i);
      var p :| 0 <= p < |before| && before[p] == items[i];
      assert Tied(items, items[i].score)[p] == items[i];
    } else {
      assert Tied(items, items[i].score)[|before|] == items[i];
    }
  }

  lemma {:induction false} TiedFrom(items: seq<Scored>, s: real, q: nat)
    requires q < |Tied(items, s)|
    ensures exists j :: 0 <= j < |items| && items[j] == Tied(items, s)[q] && |Tied(items[..j], s)| == q
  {
    var n := |items| - 1;
    if q < |Tied(items[..n], s)| {
      TiedFrom(items[..n], s, q);
      var j :| 0 <= j < n && items[..n][j] == Tied(items[..n], s)[q] && |Tied(items[..n][..j], s)| == q;
      assert items[..n][..j] == items[..j];
      assert items[j] == Tied(items, s)[q];
    } else {
      assert items[n] == Tied(items, s)[q];
    }
  }

  lemma {:induction false} TiedGrows(items: seq<Scored>, s: real, i: nat, j: nat)
    requires i <= j <= |items|
    ensures |Tied(items[..i], s)| <= |Tied(items[..j], s)|
    decreases j
  {
    if i < j {
      assert items[..j][..j - 1] == items[..j - 1];
      TiedGrows(items, s, i, j - 1);
    }
  }

  /** Ids of equal score stand in the order of their first appearance, reading the lists one after the other. */
  lemma TiesByAppearance(lists: seq<seq<string>>, k: int, i: nat, j: nat)
    requires AllScorable(lists, k) && i < j < |Fused(lists, k)| && Fused(lists, k)[i].score == Fused(lists, k)[j].score
    ensures Fused(lists, k)[i].id in Flatten(lists) && Fused(lists, k)[j].id in Flatten(lists)
    ensures FirstIndex(Flatten(lists), Fused(lists, k)[i].id) < FirstIndex(Flatten(lists), Fused(lists, k)[j].id)
  {
    hide Score, SortDesc, FirstSeen, Flatten, Tied, FirstIndex, Scorable;
    var ids := FirstSeen(Flatten(lists));
    var items, sorted := Entries(ids, lists, k), Fused(lists, k);
    var s := sorted[i].score;
    SortStable(items, s);
    TiedPlaces(sorted, i, j);
    var p, q :| 0 <= p < q < |Tied(sorted, s)| && Tied(sorted, s)[p] == sorted[i] && Tied(sorted, s)[q] == sorted[j];
    TiedFrom(items, s, p);
    TiedFrom(items, s, q);
    var a: nat :| a < |items| && items[a] == Tied(items, s)[p] && |Tied(items[..a], s)| == p;
    var b: nat :| b < |items| && items[b] == Tied(items, s)[q] && |Tied(items[..b], s)| == q;
    if b <= a {
      TiedGrows(items, s, b, a);
    }
    FirstSeenOrder(Flatten(lists), a, b);
  }

  // ---------- The loop ----------

  /** A rank that is the negated constant divides by zero; otherwise the dictionary's items are sorted. */
  method ReciprocalRankFusion(lists: seq<seq<string>>, k: int) returns (r: Result<seq<Scored>, Error>)
    ensures r.Ok? <==> AllScorable(lists, k)
    ensures r.Ok? ==> AllScorable(lists, k) && r.value == Fused(lists, k)
  {
    hide ListScore, FirstSeen, Fused;
    var scores: map<string, real> := map[];
    var order: seq<string> := [];
    NothingSeen();
    for l := 0 to |lists|
      invariant AllScorable(lists[..l], k)
      invariant order == FirstSeen(Flatten(lists[..l]))
      invariant forall id :: id in scores <==> id in order
      invariant forall id :: (if id in scores then scores[id] else 0.0) == Score(lists[..l], k, id)
    {
      ghost var seen := Flatten(lists[..l]);
      forall id: string
        ensures ListScore(lists[l][..0], k, id) == 0.0
      {
        NoScore(k, id);
        assert lists[l][..0] == [];
      }
      assert seen + lists[l][..0] == seen;
      for i := 0 to |lists[l]|
        invariant Scorable(lists[l][..i], k)
        invariant order == FirstSeen(seen + lists[l][..i])
        invariant forall id :: id in scores <==> id in order
        invariant forall id :: (if id in scores then scores[id] else 0.0)
                               == Score(lists[..l], k, id) + ListScore(lists[l][..i], k, id)
      {
        var id := lists[l][i];
        if k + i + 1 == 0 {
          return Err(DivisionByZero);
        }
        RankStep(lists[l], k, i);
        assert seen + lists[l][..i + 1] == seen + lists[l][..i] + [id];
        FirstSeenPush(seen + lists[l][..i], id);
        scores := scores[id := (if id in scores then scores[id] else 0.0) + 1.0 / (k + i + 1) as real];
        if id !in order {
          order := order + [id];
        }
      }
      assert lists[l][..|lists[l]|] == lists[l];
      ListStep(lists, k, l);
    }
    assert lists[..|lists|] == lists;
    var items := seq(|order|, i requires 0 <= i < |order| => assert order[i] in scores; Scored(order[i], scores[order[i]]));
    assert items == Entries(order, lists, k);
    FusedIs(lists, k);
    return Ok(SortDesc(items));
  }

  lemma NothingSeen()
    ensures FirstSeen([]) == [] && Flatten([]) == []
  {
  }

  lemma NoScore(k: int, id: string)
    ensures ListScore([], k, id) == 0.0
  {
  }

  lemma FusedIs(lists: seq<seq<string>>, k: int)
    requires AllScorable(lists, k)
    ensures Fused(lists, k) == SortDesc(Entries(FirstSeen(Flatten(lists)), lists, k))
  {
  }

  lemma RankStep(ranked: seq<string>, k: int, i: nat)
    requires i < |ranked| && Scorable(ranked[..i], k) && k + i + 1 != 0
    ensures Scorable(ranked[..i + 1], k)
    ensures forall id :: ListScore(ranked[..i + 1], k, id)
                         == ListScore(ranked[..i], k, id) + if ranked[i] == id then 1.0 / (k + i + 1) as real else 0.0
  {
    assert ranked[..i + 1][..i] == ranked[..i];
  }

  lemma ListStep(lists: seq<seq<string>>, k: int, l: nat)
    requires l < |lists| && AllScorable(lists[..l], k) && Scorable(lists[l], k)
    ensures AllScorable(lists[..l + 1], k)
    ensures Flatten(lists[..l + 1]) == Flatten(lists[..l]) + lists[l]
    ensures forall id :: Score(lists[..l + 1], k, id) == Score(lists[..l], k, id) + ListScore(lists[l], k, id)
  {
    hide Scorable, ListScore;
    assert lists[..l + 1][..l] == lists[..l];
    assert forall j :: 0 <= j < l ==> lists[..l + 1][j] == lists[..l][j];
  }
}
