/** The results pipeline run when an event ends (functions/onEventEnded.js):
    per-role totals of investment amounts and ratings per startup, the
    startup name lookup, the four ranked leaderboards and the trigger that
    writes them to `events/{eventId}/results`. */
module Results {
  import opened Common
  import opened Dict
  import opened StableSort
  import opened Documents

  /** The three fields the aggregation reads from an investment (`amount`)
      or rating (`rating`) document. */
  datatype Score = Score(startupId: string, value: int, role: string)

  function InvestmentScore(d: InvestmentDoc): Score
  {
    Score(d.startupId, d.amount, d.role)
  }

  function RatingScore(d: RatingDoc): Score
  {
    Score(d.startupId, d.rating, d.role)
  }

  function InvestmentScores(ds: seq<InvestmentDoc>): (ss: seq<Score>)
    ensures |ss| == |ds| && forall i :: 0 <= i < |ds| ==> ss[i] == InvestmentScore(ds[i])
  {
    seq(|ds|, i requires 0 <= i < |ds| => InvestmentScore(ds[i]))
  }

  function RatingScores(ds: seq<RatingDoc>): (ss: seq<Score>)
    ensures |ss| == |ds| && forall i :: 0 <= i < |ds| ==> ss[i] == RatingScore(ds[i])
  {
    seq(|ds|, i requires 0 <= i < |ds| => RatingScore(ds[i]))
  }

  /** A document is skipped when its startup id, value or role is falsy, or
      its role is neither `judge` nor `investor`. */
  predicate Accepted(s: Score)
  {
    s.startupId != "" && s.value != 0 && s.role != "" && (s.role == "judge" || s.role == "investor")
  }

  /** A document that adds to the totals of `role`. */
  predicate CountsFor(s: Score, role: string)
  {
    Accepted(s) && s.role == role
  }

  /** `totals[role][startupId] = (totals[role][startupId] || 0) + value`
      when the document counts for `role`. */
  function Add(t: Dict<int>, s: Score, role: string): Dict<int>
  {
    if CountsFor(s, role) then Put(t, s.startupId, Get(t, s.startupId, 0) + s.value) else t
  }

  /** `totals[role]` after the `forEach` over `scores`: each accepted
      document adds its value to its startup's entry, creating it at the end
      of the object on first sight. */
  function Totals(scores: seq<Score>, role: string): Dict<int>
    decreases |scores|
  {
    if scores == [] then [] else Add(Totals(scores[..|scores| - 1], role), scores[|scores| - 1], role)
  }

  /** Reference definition: the sum of the values the documents of `role`
      give to startup `sid`. */
  function SumFor(scores: seq<Score>, role: string, sid: string): int
  {
    if scores == [] then 0
    else
      var v := if CountsFor(scores[0], role) && scores[0].startupId == sid then scores[0].value else 0;
      v + SumFor(scores[1..], role, sid)
  }

  /** Whether some document of `role` names startup `sid`. */
  predicate Mentions(scores: seq<Score>, role: string, sid: string)
  {
    exists i :: 0 <= i < |scores| && CountsFor(scores[i], role) && scores[i].startupId == sid
  }

  /** The startup ids of the documents of `role`, in document order. */
  function CountedIds(scores: seq<Score>, role: string): seq<string>
    decreases |scores|
  {
    if scores == [] then []
    else
      var ids := CountedIds(scores[..|scores| - 1], role);
      var s := scores[|scores| - 1];
      if CountsFor(s, role) then ids + [s.startupId] else ids
  }

  /** The first occurrences of the elements of `s`, in order. */
  function Dedup(s: seq<string>): (d: seq<string>)
    decreases |s|
    ensures forall x :: x in d <==> x in s
    ensures forall i, j :: 0 <= i < j < |d| ==> d[i] != d[j]
  {
    if s == [] then []
    else
      var d := Dedup(s[..|s| - 1]);
      var x := s[|s| - 1];
      assert s == s[..|s| - 1] + [x];
      if x in d then d else d + [x]
  }

  lemma {:induction false} SumForAppend(scores: seq<Score>, x: Score, role: string, sid: string)
    ensures SumFor(scores + [x], role, sid)
         == SumFor(scores, role, sid) + (if CountsFor(x, role) && x.startupId == sid then x.value else 0)
  {
    if scores != [] {
      assert (scores + [x])[1..] == scores[1..] + [x];
      SumForAppend(scores[1..], x, role, sid);
    }
  }

  /** One step of the loop. */
  lemma TotalsStep(scores: seq<Score>, n: nat, role: string)
    requires n < |scores|
    ensures Totals(scores[..n + 1], role) == Add(Totals(scores[..n], role), scores[n], role)
  {
    assert scores[..n + 1][..n] == scores[..n];
  }

  lemma AddDistinct(t: Dict<int>, s: Score, role: string)
    requires DistinctKeys(t)
    ensures DistinctKeys(Add(t, s, role))
  {
    if CountsFor(s, role) {
      PutKeepsDistinct(t, s.startupId, Get(t, s.startupId, 0) + s.value);
    }
  }

  lemma AddHasKey(t: Dict<int>, s: Score, role: string, sid: string)
    ensures HasKey(Add(t, s, role), sid) <==> HasKey(t, sid) || (CountsFor(s, role) && s.startupId == sid)
  {
    if CountsFor(s, role) {
      HasKeyPut(t, s.startupId, Get(t, s.startupId, 0) + s.value, sid);
    }
  }

  lemma AddGet(t: Dict<int>, s: Score, role: string, sid: string)
    requires DistinctKeys(t)
    ensures Get(Add(t, s, role), sid, 0) == Get(t, sid, 0) + (if CountsFor(s, role) && s.startupId == sid then s.value else 0)
  {
    if CountsFor(s, role) {
      var v := Get(t, s.startupId, 0) + s.value;
      assert Add(t, s, role) == Put(t, s.startupId, v);
      GetPut(t, s.startupId, v, sid, 0);
    }
  }

  lemma {:induction false} TotalsDistinct(scores: seq<Score>, role: string)
    ensures DistinctKeys(Totals(scores, role))
  {
    if scores != [] {
      var pre := scores[..|scores| - 1];
      TotalsDistinct(pre, role);
      AddDistinct(Totals(pre, role), scores[|scores| - 1], role);
    }
  }

  lemma MentionsAppend(pre: seq<Score>, s: Score, role: string, sid: string)
    ensures Mentions(pre + [s], role, sid) <==> Mentions(pre, role, sid) || (CountsFor(s, role) && s.startupId == sid)
  {
    var all := pre + [s];
    if Mentions(all, role, sid) && !(CountsFor(s, role) && s.startupId == sid) {
      var i :| 0 <= i < |all| && CountsFor(all[i], role) && all[i].startupId == sid;
      assert pre[i] == all[i];
    }
    if Mentions(pre, role, sid) {
      var i :| 0 <= i < |pre| && CountsFor(pre[i], role) && pre[i].startupId == sid;
      assert all[i] == pre[i];
    }
    if CountsFor(s, role) && s.startupId == sid {
      assert all[|pre|] == s;
    }
  }

  /** The totals object has an entry exactly for the startups some document
      of `role` names. */
  lemma {:induction false} TotalsKeys(scores: seq<Score>, role: string, sid: string)
    ensures HasKey(Totals(scores, role), sid) <==> Mentions(scores, role, sid)
  {
    if scores != [] {
      var pre := scores[..|scores| - 1];
      var s := scores[|scores| - 1];
      TotalsKeys(pre, role, sid);
      assert scores == pre + [s];
      MentionsAppend(pre, s, role, sid);
      AddHasKey(Totals(pre, role), s, role, sid);
    }
  }

  /** Each entry of the totals object holds the sum of the values the
      documents of `role` give to that startup. */
  lemma {:induction false} TotalsAreSums(scores: seq<Score>, role: string, sid: string)
    ensures Get(Totals(scores, role), sid, 0) == SumFor(scores, role, sid)
  {
    if scores != [] {
      var pre := scores[..|scores| - 1];
      var s := scores[|scores| - 1];
      assert scores == pre + [s];
      SumForAppend(pre, s, role, sid);
      TotalsAreSums(pre, role, sid);
      TotalsDistinct(pre, role);
      AddGet(Totals(pre, role), s, role, sid);
    }
  }

  /** `Object.entries` lists the startups in the order their first counted
      document appears. */
  lemma DedupSnoc(ids: seq<string>, x: string)
    ensures Dedup(ids + [x]) == if x in Dedup(ids) then Dedup(ids) else Dedup(ids) + [x]
  {
    assert (ids + [x])[..|ids|] == ids;
  }

  lemma AddKeys(t: Dict<int>, s: Score, role: string)
    ensures Keys(Add(t, s, role))
         == if CountsFor(s, role) && s.startupId !in Keys(t) then Keys(t) + [s.startupId] else Keys(t)
  {
    if CountsFor(s, role) {
      HasKeyIffInKeys(t, s.startupId);
      PutKeys(t, s.startupId, Get(t, s.startupId, 0) + s.value);
    }
  }

  lemma {:induction false} TotalsKeyOrder(scores: seq<Score>, role: string)
    ensures Keys(Totals(scores, role)) == Dedup(CountedIds(scores, role))
  {
    if scores != [] {
      var pre := scores[..|scores| - 1];
      var s := scores[|scores| - 1];
      var t := Totals(pre, role);
      var ids := CountedIds(pre, role);
      TotalsKeyOrder(pre, role);
      AddKeys(t, s, role);
      if CountsFor(s, role) {
        DedupSnoc(ids, s.startupId);
      }
    }
  }

  lemma NotCounted(d: Score)
    requires !Accepted(d)
    ensures forall t: Dict<int> :: Add(t, d, "investor") == t && Add(t, d, "judge") == t
  {
  }

  /** The loop of `onEventEnded` over one snapshot, filling both role
      buckets. */
  method Aggregate(scores: seq<Score>) returns (investor: Dict<int>, judge: Dict<int>)
    ensures investor == Totals(scores, "investor")
    ensures judge == Totals(scores, "judge")
  {
    investor, judge := [], [];
    var n := 0;
    while n < |scores|
      invariant n <= |scores|
      invariant investor == Totals(scores[..n], "investor")
      invariant judge == Totals(scores[..n], "judge")
    {
      var d := scores[n];
      TotalsStep(scores, n, "investor");
      TotalsStep(scores, n, "judge");
      if d.startupId == "" || d.value == 0 || d.role == "" {
        NotCounted(d);
      } else if d.role != "judge" && d.role != "investor" {
        NotCounted(d);
      } else if d.role == "investor" {
        var v := Get(investor, d.startupId, 0) + d.value;
        investor := Put(investor, d.startupId, v);
      } else {
        var v := Get(judge, d.startupId, 0) + d.value;
        judge := Put(judge, d.startupId, v);
      }
      n := n + 1;
    }
    assert scores[..n] == scores;
  }

  /** Document ids of a query snapshot are distinct. */
  predicate DistinctIds<T>(snap: seq<(string, T)>)
  {
    forall i, j :: 0 <= i < j < |snap| ==> snap[i].0 != snap[j].0
  }

  /** The name lookup: the startups of the snapshot that have a non-empty
      name, by id. */
  function NameLookup(snap: seq<(string, Startup)>): (names: map<string, string>)
    decreases |snap|
    ensures forall i :: 0 <= i < |snap| && snap[i].1.name != "" ==> snap[i].0 in names
    ensures forall id :: id in names ==>
                           names[id] != "" && exists i :: 0 <= i < |snap| && snap[i].0 == id && snap[i].1.name == names[id]
  {
    if snap == [] then map[]
    else
      var pre, last := snap[..|snap| - 1], snap[|snap| - 1];
      var m := NameLookup(pre);
      assert forall i :: 0 <= i < |pre| ==> pre[i] == snap[i];
      if last.1.name != "" then m[last.0 := last.1.name] else m
  }

  /** With distinct document ids every named startup is found under its own
      name. */
  lemma {:induction false} NameLookupExact(snap: seq<(string, Startup)>, i: nat)
    requires DistinctIds(snap) && i < |snap| && snap[i].1.name != ""
    ensures NameLookup(snap)[snap[i].0] == snap[i].1.name
  {
    var pre, last := snap[..|snap| - 1], snap[|snap| - 1];
    if i < |pre| {
      assert pre[i] == snap[i];
      assert DistinctIds(pre) by {
        forall a, b | 0 <= a < b < |pre| ensures pre[a].0 != pre[b].0 {
          assert pre[a] == snap[a] && pre[b] == snap[b];
        }
      }
      NameLookupExact(pre, i);
    }
  }

  /** The `startupsSnap.forEach` loop building the name lookup. */
  method BuildNameLookup(snap: seq<(string, Startup)>) returns (names: map<string, string>)
    ensures names == NameLookup(snap)
  {
    names := map[];
    var n := 0;
    while n < |snap|
      invariant n <= |snap|
      invariant names == NameLookup(snap[..n])
    {
      assert snap[..n + 1][..n] == snap[..n];
      if snap[n].1.name != "" {
        names := names[snap[n].0 := snap[n].1.name];
      }
      n := n + 1;
    }
    assert snap[..n] == snap;
  }

  /** An entry before ranking. */
  datatype Row = Row(startupId: string, name: string, total: int)

  /** `startups[startupId]?.name || 'Unknown'`. */
  function NameOr(names: map<string, string>, sid: string): string
  {
    if sid in names && names[sid] != "" then names[sid] else "Unknown"
  }

  /** `Object.entries(totals).map(...)`. */
  function Rows(totals: Dict<int>, names: map<string, string>): (rows: seq<Row>)
    ensures |rows| == |totals|
    ensures forall i :: 0 <= i < |totals| ==> rows[i] == Row(totals[i].0, NameOr(names, totals[i].0), totals[i].1)
  {
    seq(|totals|, i requires 0 <= i < |totals| => Row(totals[i].0, NameOr(names, totals[i].0), totals[i].1))
  }

  /** The sort key of `(a, b) => b.total - a.total`: descending total. */
  function Descending(r: Row): int
  {
    -r.total
  }

  /** `.map((entry, i) => ({ rank: i + 1, ...entry, metric, role }))`. */
  function Ranked(rows: seq<Row>, role: string, metric: string): (lb: seq<LeaderboardEntry>)
    ensures |lb| == |rows|
    ensures forall i :: 0 <= i < |rows| ==>
      lb[i] == LeaderboardEntry(i + 1, rows[i].startupId, rows[i].name, rows[i].total, metric, role)
  {
    seq(|rows|, i requires 0 <= i < |rows| => LeaderboardEntry(i + 1, rows[i].startupId, rows[i].name, rows[i].total, metric, role))
  }

  /** The rows a leaderboard was ranked from. */
  function Unranked(lb: seq<LeaderboardEntry>): (rows: seq<Row>)
    ensures |rows| == |lb|
    ensures forall i :: 0 <= i < |lb| ==> rows[i] == Row(lb[i].startupId, lb[i].name, lb[i].total)
  {
    seq(|lb|, i requires 0 <= i < |lb| => Row(lb[i].startupId, lb[i].name, lb[i].total))
  }

  /** `makeLeaderboard(totals, role, metricLabel)`. */
  function MakeLeaderboard(totals: Dict<int>, names: map<string, string>, role: string, metric: string): seq<LeaderboardEntry>
  {
    Ranked(Sort(Rows(totals, names), Descending), role, metric)
  }

  /** Ranks run 1, 2, ... down the board, every entry carries the metric and
      role labels, and totals never increase down the board. */
  lemma LeaderboardRanked(totals: Dict<int>, names: map<string, string>, role: string, metric: string)
    ensures var lb := MakeLeaderboard(totals, names, role, metric);
      && |lb| == |totals|
      && (forall i :: 0 <= i < |lb| ==> lb[i].rank == i + 1 && lb[i].metric == metric && lb[i].role == role)
      && (forall i, j :: 0 <= i < j < |lb| ==> lb[i].total >= lb[j].total)
  {
    var sorted := Sort(Rows(totals, names), Descending);
    assert forall i, j :: 0 <= i < j < |sorted| ==> Descending(sorted[i]) <= Descending(sorted[j]);
  }

  /** The board is a permutation of the totals' rows: every startup with a
      total appears, with its total and name, and nothing else appears. */
  lemma LeaderboardPermutation(totals: Dict<int>, names: map<string, string>, role: string, metric: string)
    ensures multiset(Unranked(MakeLeaderboard(totals, names, role, metric))) == multiset(Rows(totals, names))
  {
    var sorted := Sort(Rows(totals, names), Descending);
    assert Unranked(Ranked(sorted, role, metric)) == sorted;
  }

  /** Each entry is named after its startup, or `Unknown`. */
  lemma LeaderboardNames(totals: Dict<int>, names: map<string, string>, role: string, metric: string)
    ensures var lb := MakeLeaderboard(totals, names, role, metric);
      forall i :: 0 <= i < |lb| ==> lb[i].name == NameOr(names, lb[i].startupId)
  {
    var rows := Rows(totals, names);
    var sorted := Sort(rows, Descending);
    forall i | 0 <= i < |sorted| ensures sorted[i].name == NameOr(names, sorted[i].startupId) {
      assert sorted[i] in multiset(rows);
      var k :| 0 <= k < |rows| && rows[k] == sorted[i];
    }
  }

  /** Ties keep the order of `Object.entries`: the entries with any one total
      appear on the board in the order of the totals object. */
  lemma LeaderboardTiesStable(totals: Dict<int>, names: map<string, string>, role: string, metric: string, total: int)
    ensures WithKey(Unranked(MakeLeaderboard(totals, names, role, metric)), Descending, -total)
         == WithKey(Rows(totals, names), Descending, -total)
  {
    var sorted := Sort(Rows(totals, names), Descending);
    assert Unranked(Ranked(sorted, role, metric)) == sorted;
    SortIsStable(Rows(totals, names), Descending, -total);
  }

  /** The guard: run only on the update that moves the event to `ended`. */
  predicate ShouldCompute(before: Event, after: Event)
  {
    after.status == "ended" && before.status != "ended"
  }

  /** Every entry of the document's board carries the document's metric
      and role. */
  predicate Labelled(doc: ResultDoc)
  {
    forall i :: 0 <= i < |doc.leaderboard| ==>
      doc.leaderboard[i].metric == doc.metric && doc.leaderboard[i].role == doc.role
  }

  /** One result document: its title and labels, and the board of `totals`
      for `role` under `metric`, every entry of which carries those labels. */
  function ResultBoard(title: string, metric: string, role: string, totals: Dict<int>,
                       names: map<string, string>): (doc: ResultDoc)
    ensures doc.title == title && doc.metric == metric && doc.role == role
    ensures Labelled(doc)
  {
    LeaderboardRanked(totals, names, role, metric);
    ResultDoc(title, metric, role, MakeLeaderboard(totals, names, role, metric))
  }

  /** The four documents written to `events/{eventId}/results`, under their
      fixed ids; each board's entries carry its document's metric and role. */
  function ResultDocs(eventId: string, invest: (Dict<int>, Dict<int>), rating: (Dict<int>, Dict<int>),
                      names: map<string, string>): (docs: map<DocPath, ResultDoc>)
    ensures docs.Keys == {(eventId, "startupInvestmentInvestor"), (eventId, "startupInvestmentJudge"),
                          (eventId, "startupRatingInvestor"), (eventId, "startupRatingJudge")}
    ensures forall d :: d in docs.Values ==> Labelled(d)
  {
    var investInvestor := ResultBoard("Startup Leaderboard – Investor Investment", "investment", "investor", invest.0, names);
    var investJudge := ResultBoard("Startup Leaderboard – Judge Investment", "investment", "judge", invest.1, names);
    var ratingInvestor := ResultBoard("Startup Leaderboard – Investor Ratings", "rating", "investor", rating.0, names);
    var ratingJudge := ResultBoard("Startup Leaderboard – Judge Ratings", "rating", "judge", rating.1, names);
    map[(eventId, "startupInvestmentInvestor") := investInvestor,
        (eventId, "startupInvestmentJudge") := investJudge,
        (eventId, "startupRatingInvestor") := ratingInvestor,
        (eventId, "startupRatingJudge") := ratingJudge]
  }

  /** The results written for an event whose investments, ratings and
      startups snapshots are the given ones. */
  function ComputedResults(eventId: string, investments: seq<InvestmentDoc>, ratings: seq<RatingDoc>,
                           startups: seq<(string, Startup)>): map<DocPath, ResultDoc>
  {
    var inv, rat := InvestmentScores(investments), RatingScores(ratings);
    ResultDocs(eventId, (Totals(inv, "investor"), Totals(inv, "judge")),
               (Totals(rat, "investor"), Totals(rat, "judge")), NameLookup(startups))
  }

  /** `onEventEnded`: on the transition to `ended`, the four leaderboards are
      written (replacing earlier ones); on any other update nothing is. The
      event document itself is never written. */
  method OnEventEnded(db: Database, eventId: string, before: Event, after: Event,
                      investments: seq<InvestmentDoc>, ratings: seq<RatingDoc>, startups: seq<(string, Startup)>)
    modifies db`results
    ensures !ShouldCompute(before, after) ==> db.results == old(db.results)
    ensures ShouldCompute(before, after) ==>
      db.results == old(db.results) + ComputedResults(eventId, investments, ratings, startups)
  {
    if after.status != "ended" || before.status == "ended" {
      return;
    }
    var names := BuildNameLookup(startups);
    var investInvestor, investJudge := Aggregate(InvestmentScores(investments));
    var ratingInvestor, ratingJudge := Aggregate(RatingScores(ratings));
    db.results := db.results + ResultDocs(eventId, (investInvestor, investJudge), (ratingInvestor, ratingJudge), names);
  }
}
