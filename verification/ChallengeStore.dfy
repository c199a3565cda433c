/** The bounded leaderboard of a challenge (engine/challenge_store.go): one row per
    account, sorted, and cut to 25 rows on every submission. */
module Leaderboard {
  import opened GameVars

  const LEADERBOARD_MAX := 25

  datatype ChallengeResult = ChallengeResult(
    ChallengeID: string, Version: int, AccountKey: string, Name: string, Ticks: int,
    Score: int, Gems: int, RecordingID: string, Evidence: string, Seq: nat)

  /** The documented ranking: fewest ticks, then the higher score, then server order. */
  predicate Less(a: ChallengeResult, b: ChallengeResult) {
    if a.Ticks != b.Ticks then a.Ticks < b.Ticks
    else if a.Score != b.Score then a.Score > b.Score
    else a.Seq < b.Seq
  }

  /** challengeResultBetter: an equal run does not replace the earlier one. */
  predicate Better(candidate: ChallengeResult, existing: ChallengeResult) {
    if candidate.Ticks != existing.Ticks then candidate.Ticks < existing.Ticks else candidate.Score > existing.Score
  }

  ghost predicate Ranked(rows: seq<ChallengeResult>) {
    forall i, j :: 0 <= i < j < |rows| ==> Less(rows[i], rows[j])
  }

  ghost predicate OnePerAccount(rows: seq<ChallengeResult>) {
    forall i, j :: 0 <= i < j < |rows| ==> rows[i].AccountKey != rows[j].AccountKey
  }

  /** Before the first row that ranks after it, as a stable insertion places it. */
  function Insert(x: ChallengeResult, rows: seq<ChallengeResult>): (r: seq<ChallengeResult>)
    ensures |r| == |rows| + 1
  {
    if rows == [] || !Less(x, rows[|rows| - 1]) then rows + [x]
    else Insert(x, rows[..|rows| - 1]) + [rows[|rows| - 1]]
  }

  /** sortChallengeResults: a stable sort. */
  function Sort(rows: seq<ChallengeResult>): (r: seq<ChallengeResult>)
    ensures |r| == |rows|
  {
    if rows == [] then [] else Insert(rows[|rows| - 1], Sort(rows[..|rows| - 1]))
  }

  function RowOf(rows: seq<ChallengeResult>, account: string): (i: int)
    ensures -1 <= i < |rows|
    ensures i >= 0 ==> rows[i].AccountKey == account
    ensures forall j :: 0 <= j < |rows| && (i < 0 || j < i) ==> rows[j].AccountKey != account
  {
    if rows == [] then -1
    else
      var i := RowOf(rows[..|rows| - 1], account);
      if i >= 0 then i else if rows[|rows| - 1].AccountKey == account then |rows| - 1 else -1
  }

  /** The rows with the result in them: in place of the account's slower row, or at the end. */
  function Placed(rows: seq<ChallengeResult>, r: ChallengeResult): seq<ChallengeResult> {
    var i := RowOf(rows, r.AccountKey);
    if i < 0 then rows + [r] else if Better(r, rows[i]) then rows[i := r] else rows
  }

  function Take(rows: seq<ChallengeResult>, n: nat): (t: seq<ChallengeResult>) {
    if |rows| > n then rows[..n] else rows
  }

  /** One submission, without and with the cut. */
  function Updated(rows: seq<ChallengeResult>, r: ChallengeResult): seq<ChallengeResult> { Sort(Placed(rows, r)) }

  function Cut(rows: seq<ChallengeResult>, r: ChallengeResult): seq<ChallengeResult> {
    Take(Updated(rows, r), LEADERBOARD_MAX)
  }

  // ---- Sorting -----------------------------------------------------------

  /** x ranks after the first k rows and before the rest. */
  ghost predicate SplitAt(x: ChallengeResult, rows: seq<ChallengeResult>, k: nat) {
    && k <= |rows|
    && (forall i :: 0 <= i < k ==> Less(rows[i], x))
    && forall i :: k <= i < |rows| ==> Less(x, rows[i])
  }

  function Spliced(x: ChallengeResult, rows: seq<ChallengeResult>, k: nat): seq<ChallengeResult>
    requires k <= |rows|
  {
    rows[..k] + [x] + rows[k..]
  }

  lemma {:induction false} InsertSplits(x: ChallengeResult, rows: seq<ChallengeResult>) returns (k: nat)
    requires Ranked(rows) && forall i :: 0 <= i < |rows| ==> rows[i].Seq != x.Seq
    ensures SplitAt(x, rows, k) && Insert(x, rows) == Spliced(x, rows, k)
  {
    if rows == [] || !Less(x, rows[|rows| - 1]) {
      k := |rows|;
    } else {
      var n := |rows| - 1;
      k := InsertSplits(x, rows[..n]);
      assert rows[k..] == rows[..n][k..] + [rows[n]];
    }
  }

  lemma SplitIsUnique(x: ChallengeResult, rows: seq<ChallengeResult>, j: nat, k: nat)
    requires SplitAt(x, rows, j) && SplitAt(x, rows, k)
    ensures j == k
  {
    assert j < |rows| ==> Less(rows[j], x) || Less(x, rows[j]);
    assert k < |rows| ==> Less(rows[k], x) || Less(x, rows[k]);
  }

  lemma SplicedRanked(x: ChallengeResult, rows: seq<ChallengeResult>, k: nat)
    requires Ranked(rows) && SplitAt(x, rows, k)
    ensures Ranked(Spliced(x, rows, k))
  {
    var s := Spliced(x, rows, k);
    forall i, j | 0 <= i < j < |s|
      ensures Less(s[i], s[j])
    {
      assert i < k ==> s[i] == rows[i];
      assert i > k ==> s[i] == rows[i - 1];
      assert j < k ==> s[j] == rows[j];
      assert j > k ==> s[j] == rows[j - 1];
    }
  }

  lemma SplicedMultiset(x: ChallengeResult, rows: seq<ChallengeResult>, k: nat)
    requires k <= |rows|
    ensures multiset(Spliced(x, rows, k)) == multiset(rows) + multiset{x}
  {
    assert rows == rows[..k] + rows[k..];
  }

  lemma InsertRanked(x: ChallengeResult, rows: seq<ChallengeResult>)
    requires Ranked(rows) && forall i :: 0 <= i < |rows| ==> rows[i].Seq != x.Seq
    ensures Ranked(Insert(x, rows)) && multiset(Insert(x, rows)) == multiset(rows) + multiset{x}
  {
    var k := InsertSplits(x, rows);
    hide Insert, Ranked, SplitAt, Spliced;
    assert k <= |rows|;
    SplicedRanked(x, rows, k);
    SplicedMultiset(x, rows, k);
  }

  ghost predicate DistinctSeqs(rows: seq<ChallengeResult>) {
    forall i, j :: 0 <= i < j < |rows| ==> rows[i].Seq != rows[j].Seq
  }

  lemma SortStep(rows: seq<ChallengeResult>)
    requires rows != []
    ensures Sort(rows) == Insert(rows[|rows| - 1], Sort(rows[..|rows| - 1]))
  {
  }

  lemma {:induction false} SortRanks(rows: seq<ChallengeResult>)
    requires DistinctSeqs(rows)
    ensures Ranked(Sort(rows)) && multiset(Sort(rows)) == multiset(rows)
  {
    if rows != [] {
      var n := |rows| - 1;
      SortRanks(rows[..n]);
      var s := Sort(rows[..n]);
      assert rows == rows[..n] + [rows[n]];
      hide Ranked, Insert, Sort;
      forall i | 0 <= i < |s|
        ensures s[i].Seq != rows[n].Seq
      {
        assert s[i] in multiset(s);
        assert s[i] in rows[..n];
      }
      SortStep(rows);
      InsertRanked(rows[n], s);
    }
  }

  /** There is only one ranking of the same rows. */
  lemma {:induction false} RankingIsUnique(a: seq<ChallengeResult>, b: seq<ChallengeResult>)
    requires Ranked(a) && Ranked(b) && multiset(a) == multiset(b)
    ensures a == b
    decreases |a|
  {
    if a == [] {
      assert |multiset(b)| == |b|;
    } else {
      SameFirst(a, b);
      assert a == [a[0]] + a[1..] && b == [b[0]] + b[1..];
      RankingIsUnique(a[1..], b[1..]);
    }
  }

  lemma SameFirst(a: seq<ChallengeResult>, b: seq<ChallengeResult>)
    requires Ranked(a) && Ranked(b) && multiset(a) == multiset(b) && a != []
    ensures b != [] && a[0] == b[0] && multiset(a[1..]) == multiset(b[1..])
  {
    assert a[0] in multiset(a) && a[0] in b;
    assert b[0] in multiset(b) && b[0] in a;
    var m :| 0 <= m < |b| && b[m] == a[0];
    var l :| 0 <= l < |a| && a[l] == b[0];
    assert m > 0 ==> Less(b[0], a[0]);
    assert l > 0 ==> Less(a[0], b[0]);
    hide Ranked;
    WithoutFirst(a);
    WithoutFirst(b);
  }

  lemma WithoutFirst(a: seq<ChallengeResult>)
    requires a != []
    ensures multiset(a[1..]) == multiset(a) - multiset{a[0]}
  {
    assert a == [a[0]] + a[1..];
  }

  // ---- One submission ----------------------------------------------------

  /** A table between submissions, when `last` is the sequence number given out last. */
  ghost predicate Table(rows: seq<ChallengeResult>, last: nat) {
    Ranked(rows) && OnePerAccount(rows) && DistinctSeqs(rows) && forall i :: 0 <= i < |rows| ==> rows[i].Seq <= last
  }

  function Without(rows: seq<ChallengeResult>, i: nat): seq<ChallengeResult>
    requires i < |rows|
  {
    rows[..i] + rows[i + 1..]
  }

  /** Sorting a table again with one row added or replaced inserts that row. */
  function Upserted(rows: seq<ChallengeResult>, r: ChallengeResult): seq<ChallengeResult> {
    var i := RowOf(rows, r.AccountKey);
    if i < 0 then Insert(r, rows) else if Better(r, rows[i]) then Insert(r, Without(rows, i)) else rows
  }

  lemma RankedDistinct(rows: seq<ChallengeResult>)
    requires Ranked(rows)
    ensures forall i, j :: 0 <= i < |rows| && 0 <= j < |rows| && rows[i] == rows[j] ==> i == j
  {
  }

  lemma WithoutTable(rows: seq<ChallengeResult>, i: nat, last: nat)
    requires Table(rows, last) && i < |rows|
    ensures Table(Without(rows, i), last)
  {
    var w := Without(rows, i);
    forall j, k | 0 <= j < k < |w|
      ensures Less(w[j], w[k]) && w[j].AccountKey != w[k].AccountKey && w[j].Seq != w[k].Seq
    {
      assert w[j] == rows[if j < i then j else j + 1];
      assert w[k] == rows[if k < i then k else k + 1];
    }
  }

  lemma WithoutMultiset(rows: seq<ChallengeResult>, i: nat)
    requires i < |rows|
    ensures multiset(Without(rows, i)) == multiset(rows) - multiset{rows[i]}
  {
    assert rows == rows[..i] + [rows[i]] + rows[i + 1..];
  }

  lemma AddedSeqs(rows: seq<ChallengeResult>, r: ChallengeResult, last: nat)
    requires Table(rows, last) && r.Seq > last
    ensures DistinctSeqs(rows + [r])
  {
  }

  lemma ReplacedSeqs(rows: seq<ChallengeResult>, r: ChallengeResult, last: nat, i: nat)
    requires Table(rows, last) && r.Seq > last && i < |rows|
    ensures DistinctSeqs(rows[i := r])
  {
  }

  lemma AddedIsInserted(rows: seq<ChallengeResult>, r: ChallengeResult, last: nat)
    requires Table(rows, last) && r.Seq > last
    ensures Sort(rows + [r]) == Insert(r, rows)
  {
    AddedSeqs(rows, r, last);
    SortRanks(rows + [r]);
    InsertRanked(r, rows);
    RankingIsUnique(Sort(rows + [r]), Insert(r, rows));
  }

  lemma ReplacedIsInserted(rows: seq<ChallengeResult>, r: ChallengeResult, last: nat, i: nat)
    requires Table(rows, last) && r.Seq > last && i < |rows|
    ensures Sort(rows[i := r]) == Insert(r, Without(rows, i))
  {
    hide Sort, Insert;
    WithoutTable(rows, i, last);
    WithoutMultiset(rows, i);
    ReplacedSeqs(rows, r, last, i);
    SortRanks(rows[i := r]);
    InsertRanked(r, Without(rows, i));
    assert rows[i := r] == rows[..i] + [r] + rows[i + 1..];
    RankingIsUnique(Sort(rows[i := r]), Insert(r, Without(rows, i)));
  }

  lemma UpdatedIsUpserted(rows: seq<ChallengeResult>, r: ChallengeResult, last: nat)
    requires Table(rows, last) && r.Seq > last
    ensures Updated(rows, r) == Upserted(rows, r)
  {
    var i := RowOf(rows, r.AccountKey);
    if i < 0 {
      AddedIsInserted(rows, r, last);
    } else if Better(r, rows[i]) {
      ReplacedIsInserted(rows, r, last, i);
    } else {
      SortRanks(rows);
      RankingIsUnique(Sort(rows), rows);
    }
  }

  lemma UpsertedTable(rows: seq<ChallengeResult>, r: ChallengeResult, last: nat)
    requires Table(rows, last) && r.Seq > last
    ensures Table(Upserted(rows, r), r.Seq)
  {
    var i := RowOf(rows, r.AccountKey);
    if i < 0 {
      InsertedTable(rows, r, last);
    } else if Better(r, rows[i]) {
      WithoutTable(rows, i, last);
      OthersDiffer(rows, i);
      InsertedTable(Without(rows, i), r, last);
    }
  }

  lemma OthersDiffer(rows: seq<ChallengeResult>, i: nat)
    requires OnePerAccount(rows) && i < |rows|
    ensures forall j :: 0 <= j < |rows| - 1 ==> Without(rows, i)[j].AccountKey != rows[i].AccountKey
  {
  }

  lemma InsertedTable(rows: seq<ChallengeResult>, r: ChallengeResult, last: nat)
    requires Table(rows, last) && r.Seq > last
    requires forall j :: 0 <= j < |rows| ==> rows[j].AccountKey != r.AccountKey
    ensures Table(Insert(r, rows), r.Seq)
  {
    var k := InsertSplits(r, rows);
    InsertRanked(r, rows);
    hide Insert, Ranked;
    SplicedTable(rows, r, k, last);
    assert Spliced(r, rows, k) == rows[..k] + [r] + rows[k..];
  }

  lemma SplicedTable(rows: seq<ChallengeResult>, r: ChallengeResult, k: nat, last: nat)
    requires Table(rows, last) && r.Seq > last && k <= |rows|
    requires forall j :: 0 <= j < |rows| ==> rows[j].AccountKey != r.AccountKey
    ensures var s := rows[..k] + [r] + rows[k..];
      OnePerAccount(s) && DistinctSeqs(s) && forall j :: 0 <= j < |s| ==> s[j].Seq <= r.Seq
  {
    hide Ranked;
    var s := rows[..k] + [r] + rows[k..];
    forall i, j | 0 <= i < j < |s|
      ensures s[i].AccountKey != s[j].AccountKey && s[i].Seq != s[j].Seq
    {
      assert i < k ==> s[i] == rows[i];
      assert i > k ==> s[i] == rows[i - 1];
      assert j < k ==> s[j] == rows[j];
      assert j > k ==> s[j] == rows[j - 1];
    }
  }

  // ---- The cut loses nothing ---------------------------------------------

  lemma TakeInsert(r: ChallengeResult, rows: seq<ChallengeResult>, n: nat)
    requires Ranked(rows) && forall i :: 0 <= i < |rows| ==> rows[i].Seq != r.Seq
    ensures Take(Insert(r, Take(rows, n)), n) == Take(Insert(r, rows), n)
  {
    var t := Take(rows, n);
    var k := InsertSplits(r, rows);
    var j := InsertSplits(r, t);
    if |rows| > n {
      SplitIsUnique(r, t, j, if k < n then k else n);
      hide Insert, Ranked, SplitAt;
      TakeSpliced(r, rows, k, n);
      TakeSpliced(r, t, if k < n then k else n, n);
      assert k < n ==> t[..k] == rows[..k] && t[k..n - 1] == rows[k..n - 1];
    }
  }

  lemma TakeSpliced(r: ChallengeResult, rows: seq<ChallengeResult>, k: nat, n: nat)
    requires k <= |rows| && n <= |rows|
    ensures Take(Spliced(r, rows, k), n) == if k < n then rows[..k] + [r] + rows[k..n - 1] else rows[..n]
  {
    var s := Spliced(r, rows, k);
    assert |s| == |rows| + 1 > n;
    if k < n {
      assert s == (rows[..k] + [r] + rows[k..n - 1]) + rows[n - 1..];
    } else {
      assert s[..n] == rows[..k][..n];
    }
  }

  lemma WithoutBeyond(rows: seq<ChallengeResult>, i: nat, n: nat)
    requires n <= i < |rows|
    ensures Take(Without(rows, i), n) == Take(rows, n)
  {
  }

  lemma TakeRanked(rows: seq<ChallengeResult>, n: nat, last: nat)
    requires Table(rows, last)
    ensures Table(Take(rows, n), last)
  {
  }

  lemma RowInTake(rows: seq<ChallengeResult>, n: nat, account: string)
    requires OnePerAccount(rows)
    ensures var i := RowOf(rows, account); RowOf(Take(rows, n), account) == if i < n then i else -1
  {
  }

  lemma {:induction false} InsertBeforeTail(r: ChallengeResult, a: seq<ChallengeResult>, b: seq<ChallengeResult>)
    requires forall i :: 0 <= i < |b| ==> Less(r, b[i])
    ensures Insert(r, a + b) == Insert(r, a) + b
  {
    if b == [] {
      assert a + b == a;
    } else {
      var n := |b| - 1;
      assert (a + b)[..|a + b| - 1] == a + b[..n] && b == b[..n] + [b[n]];
      InsertBeforeTail(r, a, b[..n]);
    }
  }

  /** A row better than the account's old one goes in before everything the old one preceded. */
  lemma TakeReplaced(rows: seq<ChallengeResult>, r: ChallengeResult, last: nat, i: nat, n: nat)
    requires Table(rows, last) && r.Seq > last && i < |rows| && i < n && Better(r, rows[i])
    ensures Take(Insert(r, Without(Take(rows, n), i)), n) == Take(Insert(r, Without(rows, i)), n)
  {
    if |rows| > n {
      var a, b := Without(rows[..n], i), rows[n..];
      assert Without(rows, i) == a + b;
      forall j | 0 <= j < |b|
        ensures Less(r, b[j])
      {
        assert Less(rows[i], rows[n + j]);
      }
      InsertBeforeTail(r, a, b);
      assert (Insert(r, a) + b)[..n] == Insert(r, a);
    }
  }

  /** An account cut off the board whose new run is no better stays off it. */
  lemma TakeUnchanged(rows: seq<ChallengeResult>, r: ChallengeResult, last: nat, i: nat, n: nat)
    requires Table(rows, last) && r.Seq > last && n <= i < |rows| && !Better(r, rows[i])
    ensures Take(Insert(r, Take(rows, n)), n) == Take(rows, n)
  {
    TakeRanked(rows, n, last);
    var t := Take(rows, n);
    var k := InsertSplits(r, t);
    assert Less(rows[i], r);
    forall j | 0 <= j < |t|
      ensures Less(t[j], r)
    {
      assert Less(rows[j], rows[i]);
    }
    SplitIsUnique(r, t, k, |t|);
  }

  lemma TakeUpserted(rows: seq<ChallengeResult>, r: ChallengeResult, last: nat, n: nat)
    requires Table(rows, last) && r.Seq > last
    ensures Take(Upserted(Take(rows, n), r), n) == Take(Upserted(rows, r), n)
  {
    hide Insert, Table, Better;
    assert OnePerAccount(rows) && Ranked(rows) && forall j :: 0 <= j < |rows| ==> rows[j].Seq != r.Seq by {
      TableFacts(rows, last);
    }
    var i := RowOf(rows, r.AccountKey);
    RowInTake(rows, n, r.AccountKey);
    if i < 0 {
      TakeInsert(r, rows, n);
    } else if i < n {
      if Better(r, rows[i]) {
        TakeReplaced(rows, r, last, i, n);
      }
    } else {
      if Better(r, rows[i]) {
        WithoutBeyond(rows, i, n);
        WithoutTable(rows, i, last);
        TableFacts(Without(rows, i), last);
        TakeInsert(r, Without(rows, i), n);
        TakeInsert(r, rows, n);
      } else {
        TakeUnchanged(rows, r, last, i, n);
      }
    }
  }

  lemma TableFacts(rows: seq<ChallengeResult>, last: nat)
    requires Table(rows, last)
    ensures OnePerAccount(rows) && Ranked(rows) && forall j :: 0 <= j < |rows| ==> rows[j].Seq <= last
  {
  }

  // ---- A whole history ---------------------------------------------------

  /** The table that would be stored if it were never cut. */
  function Full(history: seq<ChallengeResult>): seq<ChallengeResult> {
    if history == [] then [] else Upserted(Full(history[..|history| - 1]), history[|history| - 1])
  }

  /** The table that is stored: cut on every submission. */
  function Stored(history: seq<ChallengeResult>): seq<ChallengeResult> {
    if history == [] then [] else Cut(Stored(history[..|history| - 1]), history[|history| - 1])
  }

  /** Sequence numbers rise from one submission to the next. */
  ghost predicate Numbered(history: seq<ChallengeResult>) {
    forall i, j :: 0 <= i < j < |history| ==> history[i].Seq < history[j].Seq
  }

  function LastSeq(history: seq<ChallengeResult>): nat {
    if history == [] then 0 else history[|history| - 1].Seq
  }

  lemma {:induction false} FullTable(history: seq<ChallengeResult>)
    requires Numbered(history) && (history != [] ==> history[0].Seq > 0)
    ensures Table(Full(history), LastSeq(history))
  {
    if history != [] {
      var h := history[..|history| - 1];
      FullTable(h);
      UpsertedTable(Full(h), history[|history| - 1], LastSeq(h));
    }
  }

  /** Cutting on every submission loses nothing: what is stored is the first 25 rows
      of the table that was never cut. */
  lemma {:induction false} StoredIsTopOfFull(history: seq<ChallengeResult>)
    requires Numbered(history) && (history != [] ==> history[0].Seq > 0)
    ensures Stored(history) == Take(Full(history), LEADERBOARD_MAX)
  {
    if history != [] {
      var h, r := history[..|history| - 1], history[|history| - 1];
      StoredIsTopOfFull(h);
      FullTable(h);
      TakeRanked(Full(h), LEADERBOARD_MAX, LastSeq(h));
      UpdatedIsUpserted(Stored(h), r, LastSeq(h));
      TakeUpserted(Full(h), r, LastSeq(h), LEADERBOARD_MAX);
    }
  }

  /** The account's best run of the history: no other run of it ranks before this one. */
  ghost predicate BestOf(history: seq<ChallengeResult>, account: string, b: ChallengeResult) {
    && b in history && b.AccountKey == account
    && forall h :: h in history && h.AccountKey == account ==> h == b || Less(b, h)
  }

  /** The uncut table holds exactly the best run of every account that has submitted one. */
  lemma {:induction false} FullHoldsTheBests(history: seq<ChallengeResult>, b: ChallengeResult)
    requires Numbered(history) && (history != [] ==> history[0].Seq > 0)
    ensures b in Full(history) <==> BestOf(history, b.AccountKey, b)
  {
    hide Upserted, Table, BestOf, Full, Numbered, Better;
    if history != [] {
      var h, r := history[..|history| - 1], history[|history| - 1];
      HistoryStep(history);
      FullTable(h);
      FullHoldsTheBests(h, b);
      UpsertedRows(Full(h), r, LastSeq(h), b);
      var i := RowOf(Full(h), r.AccountKey);
      if i >= 0 {
        FullHoldsTheBests(h, Full(h)[i]);
        BestGrows(h, r, b, Full(h)[i]);
        BestIsOne(h, b, Full(h)[i]);
      } else {
        NoRowNoRun(h, r.AccountKey);
        BestBegins(h, r, b);
      }
    } else {
      NoHistory(b);
    }
  }

  lemma NoHistory(b: ChallengeResult)
    ensures Full([]) == [] && !BestOf([], b.AccountKey, b)
  {
  }

  lemma HistoryStep(history: seq<ChallengeResult>)
    requires Numbered(history) && history != [] && history[0].Seq > 0
    ensures var h, r := history[..|history| - 1], history[|history| - 1];
      && history == h + [r] && Full(history) == Upserted(Full(h), r)
      && Numbered(h) && (h != [] ==> h[0].Seq > 0) && LastSeq(h) < r.Seq
      && forall x :: x in h ==> x.Seq < r.Seq
  {
  }

  lemma BestIsOne(h: seq<ChallengeResult>, b: ChallengeResult, c: ChallengeResult)
    requires BestOf(h, c.AccountKey, c)
    ensures b.AccountKey == c.AccountKey ==> (BestOf(h, b.AccountKey, b) <==> b == c)
  {
  }

  /** The first run of an account. */
  lemma BestBegins(h: seq<ChallengeResult>, r: ChallengeResult, b: ChallengeResult)
    requires forall x :: x in h ==> x.AccountKey != r.AccountKey
    ensures BestOf(h + [r], b.AccountKey, b) <==> BestOf(h, b.AccountKey, b) || b == r
  {
    var g := h + [r];
    assert r in g && forall x :: x in h ==> x in g;
  }

  lemma UpsertedRows(rows: seq<ChallengeResult>, r: ChallengeResult, last: nat, b: ChallengeResult)
    requires Table(rows, last) && r.Seq > last
    ensures var i := RowOf(rows, r.AccountKey);
      b in Upserted(rows, r) <==>
        if i < 0 then b in rows || b == r
        else if Better(r, rows[i]) then (b in rows && b != rows[i]) || b == r
        else b in rows
  {
    var i := RowOf(rows, r.AccountKey);
    var u := Upserted(rows, r);
    if i < 0 {
      InsertRanked(r, rows);
      assert b in multiset(u) <==> b in multiset(rows) || b == r;
    } else if Better(r, rows[i]) {
      WithoutTable(rows, i, last);
      WithoutMultiset(rows, i);
      InsertRanked(r, Without(rows, i));
      RankedDistinct(rows);
      assert b in multiset(u) <==> b in multiset(Without(rows, i)) || b == r;
      assert multiset(rows)[rows[i]] == 1 by {
        OnceEach(rows, i);
      }
      assert b in multiset(rows) <==> b in rows;
    }
  }

  lemma OnceEach(rows: seq<ChallengeResult>, i: nat)
    requires Ranked(rows) && i < |rows|
    ensures multiset(rows)[rows[i]] == 1
  {
    RankedDistinct(rows);
    assert rows == rows[..i] + [rows[i]] + rows[i + 1..];
    assert rows[i] !in rows[..i] && rows[i] !in rows[i + 1..];
    assert multiset(rows) == multiset(rows[..i]) + multiset{rows[i]} + multiset(rows[i + 1..]);
  }

  /** One more run of an account that has a best one. */
  lemma BestGrows(h: seq<ChallengeResult>, r: ChallengeResult, b: ChallengeResult, old': ChallengeResult)
    requires BestOf(h, r.AccountKey, old') && (forall x :: x in h ==> x.Seq < r.Seq)
    ensures BestOf(h + [r], b.AccountKey, b) <==>
      if b.AccountKey != r.AccountKey then BestOf(h, b.AccountKey, b)
      else if Better(r, old') then b == r
      else b == old'
  {
    var g := h + [r];
    assert r in g && old' in g && forall x :: x in h ==> x in g;
  }

  /** Every account with a run has a row. */
  lemma {:induction false} NoRowNoRun(history: seq<ChallengeResult>, account: string)
    requires Numbered(history) && (history != [] ==> history[0].Seq > 0)
    ensures RowOf(Full(history), account) < 0 ==> forall x :: x in history ==> x.AccountKey != account
  {
    if history != [] {
      var n := |history| - 1;
      var h, r := history[..n], history[n];
      NoRowNoRun(h, account);
      FullTable(h);
      assert history == h + [r];
      var i := RowOf(Full(h), account);
      var j := RowOf(Full(h), r.AccountKey);
      if i >= 0 {
        UpsertedRows(Full(h), r, LastSeq(h), Full(h)[i]);
      }
      UpsertedRows(Full(h), r, LastSeq(h), r);
      if j >= 0 {
        UpsertedRows(Full(h), r, LastSeq(h), Full(h)[j]);
      }
    }
  }

  /** The stored rows are the first 25 of all the accounts' best runs, in rank order. */
  lemma LeaderboardIsExact(history: seq<ChallengeResult>)
    requires Numbered(history) && (history != [] ==> history[0].Seq > 0)
    ensures exists all: seq<ChallengeResult> ::
      && Ranked(all) && OnePerAccount(all)
      && (forall b :: b in all <==> BestOf(history, b.AccountKey, b))
      && Stored(history) == Take(all, LEADERBOARD_MAX)
      && forall account ::
        RowOf(Stored(history), account) == if RowOf(all, account) < LEADERBOARD_MAX then RowOf(all, account) else -1
  {
    hide Full, Stored, Numbered, BestOf, Table, Take;
    var all := Full(history);
    FullTable(history);
    TableFacts(all, LastSeq(history));
    hide Ranked, OnePerAccount;
    StoredIsTopOfFull(history);
    forall b
      ensures b in all <==> BestOf(history, b.AccountKey, b)
    {
      FullHoldsTheBests(history, b);
    }
    forall account
      ensures RowOf(Stored(history), account) == if RowOf(all, account) < LEADERBOARD_MAX then RowOf(all, account)
        else -1
    {
      RowInTake(all, LEADERBOARD_MAX, account);
    }
  }

  // ---- What the board shows ----------------------------------------------

  /** Fewer ticks first, then more points, then who came first. */
  predicate Precedes(a: ChallengeResult, b: ChallengeResult) {
    || a.Ticks < b.Ticks
    || (a.Ticks == b.Ticks && a.Score > b.Score)
    || (a.Ticks == b.Ticks && a.Score == b.Score && a.Seq < b.Seq)
  }

  /** A run of the history that precedes all others of its account. */
  ghost predicate BestRun(history: seq<ChallengeResult>, row: ChallengeResult) {
    row in history && forall h :: h in history && h.AccountKey == row.AccountKey ==> h == row || Precedes(row, h)
  }

  ghost predicate InOrder(rows: seq<ChallengeResult>) {
    forall i, j :: 0 <= i < j < |rows| ==> Precedes(rows[i], rows[j]) && rows[i].AccountKey != rows[j].AccountKey
  }

  /** The run's account has a row, or there are 25 rows and all precede it. */
  ghost predicate ShownOrPreceded(rows: seq<ChallengeResult>, h: ChallengeResult) {
    || (exists i :: 0 <= i < |rows| && rows[i].AccountKey == h.AccountKey)
    || (|rows| == 25 && forall i :: 0 <= i < 25 ==> Precedes(rows[i], h))
  }

  lemma LessPrecedes(a: ChallengeResult, b: ChallengeResult)
    ensures Less(a, b) <==> Precedes(a, b)
  {
  }

  lemma TakeInOrder(all: seq<ChallengeResult>, n: nat)
    requires Ranked(all) && OnePerAccount(all)
    ensures InOrder(Take(all, n)) && |Take(all, n)| <= n
  {
    hide Less, Precedes;
    var rows := Take(all, n);
    forall i, j | 0 <= i < j < |rows|
      ensures Precedes(rows[i], rows[j]) && rows[i].AccountKey != rows[j].AccountKey
    {
      assert rows[i] == all[i] && rows[j] == all[j];
      LessPrecedes(all[i], all[j]);
    }
  }

  lemma RowsInOrder(history: seq<ChallengeResult>)
    requires Numbered(history) && (history != [] ==> history[0].Seq > 0)
    ensures |Stored(history)| <= 25 && InOrder(Stored(history))
  {
    hide Full, Stored, Numbered, Take, InOrder, Table;
    FullTable(history);
    TableFacts(Full(history), LastSeq(history));
    StoredIsTopOfFull(history);
    TakeInOrder(Full(history), LEADERBOARD_MAX);
  }

  lemma RowIsBest(history: seq<ChallengeResult>, row: ChallengeResult)
    requires Numbered(history) && (history != [] ==> history[0].Seq > 0) && row in Stored(history)
    ensures BestRun(history, row)
  {
    StoredIsTopOfFull(history);
    hide Full, Stored, Numbered, Less;
    FullHoldsTheBests(history, row);
    forall h | h in history && h.AccountKey == row.AccountKey
      ensures h == row || Precedes(row, h)
    {
      LessPrecedes(row, h);
    }
  }

  lemma EveryRunCounts(history: seq<ChallengeResult>, h: ChallengeResult)
    requires Numbered(history) && (history != [] ==> history[0].Seq > 0) && h in history
    ensures ShownOrPreceded(Stored(history), h)
  {
    FullTable(history);
    StoredIsTopOfFull(history);
    var k := RowOf(Full(history), h.AccountKey);
    if k < 0 {
      NoRowNoRun(history, h.AccountKey);
    }
    hide Full, Stored, Numbered, Precedes;
    var rows, all := Stored(history), Full(history);
    FullHoldsTheBests(history, all[k]);
    forall i | 0 <= i < k
      ensures Precedes(all[i], h)
    {
      assert Less(all[i], all[k]);
      LessPrecedes(all[i], h);
    }
    assert k < 25 ==> rows[k] == all[k];
  }

  /** Every row is the run of its account that precedes all its others, the rows stand in
      order, and who has run and is not shown is preceded by 25 rows. */
  lemma BoardShowsTheBest(history: seq<ChallengeResult>)
    requires Numbered(history) && (history != [] ==> history[0].Seq > 0)
    ensures var rows := Stored(history);
      && |rows| <= 25 && InOrder(rows)
      && (forall row :: row in rows ==> BestRun(history, row))
      && forall h :: h in history ==> ShownOrPreceded(rows, h)
  {
    hide *;
    RowsInOrder(history);
    forall row | row in Stored(history)
      ensures BestRun(history, row)
    {
      RowIsBest(history, row);
    }
    forall h | h in history
      ensures ShownOrPreceded(Stored(history), h)
    {
      EveryRunCounts(history, h);
    }
  }
}

module Challenges {
  import opened Leaderboard

  datatype ChallengeDefinition = ChallengeDefinition(ID: string, Version: int)

  datatype Error = NotDurable | UnknownChallenge | Stale

  datatype Answer = Rank(rank: nat) | Refused(error: Error)

  /** Why a result may not be stored, if so. */
  function Refusal(catalogue: map<string, ChallengeDefinition>, r: ChallengeResult): Answer {
    if r.AccountKey == "" || r.Ticks <= 0 then Refused(NotDurable)
    else if r.ChallengeID !in catalogue then Refused(UnknownChallenge)
    else if r.Version != catalogue[r.ChallengeID].Version then Refused(Stale)
    else Rank(0)
  }

  /** A history numbered from 1 on, up to `last`. */
  ghost predicate Accepted(h: seq<ChallengeResult>, last: nat) {
    Numbered(h) && LastSeq(h) <= last && (h != [] ==> h[0].Seq > 0)
  }

  class ChallengeStore {
    const Catalogue: map<string, ChallengeDefinition>  // ChallengeByID, by every spelling of an id
    var seqNo: nat
    var results: map<string, seq<ChallengeResult>>
    ghost var History: map<string, seq<ChallengeResult>>  // what each challenge has accepted

    ghost predicate Ok()
      reads this
    {
      && History.Keys == results.Keys
      && forall id :: id in results ==> results[id] == Stored(History[id]) && Accepted(History[id], seqNo)
    }

    constructor (catalogue: map<string, ChallengeDefinition>)
      ensures Ok() && History == map[] && Catalogue == catalogue
    {
      Catalogue := catalogue;
      seqNo, results, History := 0, map[], map[];
    }

    /** The history of a challenge that may not have begun. */
    ghost function HistoryOf(id: string): seq<ChallengeResult>
      reads this
    {
      if id in History then History[id] else []
    }

    method Submit(result: ChallengeResult) returns (answer: Answer)
      requires Ok()
      modifies this
      ensures Ok()
      ensures answer == Refused(NotDurable) <==> result.AccountKey == "" || result.Ticks <= 0
      ensures answer == Refused(UnknownChallenge) <==>
        result.AccountKey != "" && result.Ticks > 0 && result.ChallengeID !in Catalogue
      ensures answer == Refused(Stale) <==>
        && result.AccountKey != "" && result.Ticks > 0 && result.ChallengeID in Catalogue
        && result.Version != Catalogue[result.ChallengeID].Version
      ensures Refusal(Catalogue, result).Refused? ==>
        answer == Refusal(Catalogue, result) && results == old(results) && History == old(History)
            && seqNo == old(seqNo)
      ensures Refusal(Catalogue, result).Rank? ==>
        var id := Catalogue[result.ChallengeID].ID;
        && seqNo == old(seqNo) + 1
        && History == old(History)[id := old(HistoryOf(id)) + [result.(ChallengeID := id, Seq := seqNo)]]
        && (forall other :: other != id && other in old(results) ==>
              other in results && results[other] == old(results)[other])
        && answer == Rank(RowOf(results[id], result.AccountKey) + 1)
    {
      hide Stored, Accepted, RowOf, Take, Sort, Placed;
      if result.AccountKey == "" || result.Ticks <= 0 {
        return Refused(NotDurable);
      }
      if result.ChallengeID !in Catalogue {
        return Refused(UnknownChallenge);
      }
      var def := Catalogue[result.ChallengeID];
      if result.Version != def.Version {
        return Refused(Stale);
      }
      var rank := Record(def.ID, result);
      answer := Rank(rank);
    }

    /** The part of Submit that runs under the lock. */
    method Record(id: string, result: ChallengeResult) returns (rank: nat)
      requires Ok()
      modifies this
      ensures Ok() && seqNo == old(seqNo) + 1
      ensures History == old(History)[id := old(HistoryOf(id)) + [result.(ChallengeID := id, Seq := seqNo)]]
      ensures forall other :: other != id && other in old(results) ==>
        other in results && results[other] == old(results)[other]
      ensures rank == RowOf(results[id], result.AccountKey) + 1
    {
      hide Stored, Accepted, Placed, Sort, Take, RowOf;
      NoneAccepted(seqNo);
      ghost var h := HistoryOf(id);
      seqNo := seqNo + 1;
      var r := result.(ChallengeID := id, Seq := seqNo);
      NextAccepted(h, r);
      var rows := if id in results then results[id] else [];
      rows := NextRows(rows, r);
      results := results[id := rows];
      History := History[id := h + [r]];
      var i := FindRow(rows, r.AccountKey);
      rank := i + 1;
    }
  }

  method NextRows(table: seq<ChallengeResult>, r: ChallengeResult) returns (rows: seq<ChallengeResult>)
    ensures rows == Take(Sort(Placed(table, r)), LEADERBOARD_MAX)
  {
    rows := PlaceRow(table, r);
    rows := Sort(rows);
    if |rows| > LEADERBOARD_MAX {
      rows := rows[..LEADERBOARD_MAX];
    }
  }

  lemma NoneAccepted(last: nat)
    ensures Accepted([], last) && Stored([]) == []
    ensures forall h :: Accepted(h, last) ==> Accepted(h, last + 1)
  {
  }

  lemma NextAccepted(h: seq<ChallengeResult>, r: ChallengeResult)
    requires r.Seq > 0 && Accepted(h, r.Seq - 1)
    ensures Accepted(h + [r], r.Seq)
    ensures Stored(h + [r]) == Take(Sort(Placed(Stored(h), r)), LEADERBOARD_MAX)
  {
    assert (h + [r])[..|h|] == h;
  }

  /** The loop that looks for the account's row and replaces it by a better one. */
  method PlaceRow(table: seq<ChallengeResult>, r: ChallengeResult) returns (rows: seq<ChallengeResult>)
    ensures rows == Placed(table, r)
  {
    rows := table;
    var i := FindRow(rows, r.AccountKey);
    if i >= 0 {
      if Better(r, rows[i]) {
        rows := rows[i := r];
      }
    } else {
      rows := rows + [r];
    }
  }

  method FindRow(rows: seq<ChallengeResult>, account: string) returns (i: int)
    ensures i == RowOf(rows, account)
  {
    i := 0;
    while i < |rows|
      invariant 0 <= i <= |rows|
      invariant forall j :: 0 <= j < i ==> rows[j].AccountKey != account
    {
      if rows[i].AccountKey == account {
        RowIs(rows, account, i);
        return;
      }
      i := i + 1;
    }
    i := -1;
  }

  lemma RowIs(rows: seq<ChallengeResult>, account: string, i: nat)
    requires i < |rows| && rows[i].AccountKey == account
    requires forall j :: 0 <= j < i ==> rows[j].AccountKey != account
    ensures RowOf(rows, account) == i
  {
  }
}
