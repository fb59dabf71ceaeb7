/** An investor's client-side investment state for one event
    (src/composables/useInvestments.js): the allocation, the amounts per
    startup in an insertion-ordered object, the derived total and balance,
    the budget check on an edit, and the merge of the investment documents
    the live query reports. */
module Investments {
  import opened Common
  import opened Dict
  import opened Documents
  import Results

  /** The `eventIdRef` argument: nothing, a plain id, or a Vue ref object
      holding an id ("" standing for a falsy `value`). */
  datatype IdInput = Missing | Id(s: string) | RefObj(value: string)

  /** How `String` renders an object without its own `toString`. */
  const ObjectText := "[object Object]"

  /** `normalizeId(id)` as written: falsy gives `null`, a ref with a truthy
      `value` gives that value, anything else `String(id)` — which for a
      ref whose `value` is still empty is the text of the ref object. */
  function NormalizeId(id: IdInput): (r: Option<string>)
    ensures r.Some? ==> r.value != ""
  {
    match id
    case Missing => None
    case Id(s) => if s == "" then None else Some(s)
    case RefObj(v) => if v != "" then Some(v) else Some(ObjectText)
  }

  /** A ref whose value is not set yet normalizes to a truthy id, so the
      event id guard lets it through. */
  lemma EmptyRefIsNotNull()
    ensures NormalizeId(RefObj("")) == Some(ObjectText)
    ensures NormalizeId(RefObj("")) != NormalizeId(Missing)
  {
  }

  /** `normalizeId` with a ref's empty `value` read as no id: a present id
      is exactly the non-empty text given, plain or inside a ref. */
  function NormalizeIdUnwrapped(id: IdInput): (r: Option<string>)
    ensures r.None? <==> id.Missing? || (id.Id? && id.s == "") || (id.RefObj? && id.value == "")
    ensures id.Id? && id.s != "" ==> r == Some(id.s)
    ensures id.RefObj? && id.value != "" ==> r == Some(id.value)
  {
    match id
    case Missing => None
    case Id(s) => if s == "" then None else Some(s)
    case RefObj(v) => if v == "" then None else Some(v)
  }

  /** The two readings differ only on a ref with an empty value. */
  lemma NormalizeIdAgrees(id: IdInput)
    ensures NormalizeId(id) == NormalizeIdUnwrapped(id) <==> !(id.RefObj? && id.value == "")
  {
  }

  /** The budget check's sum as written: every present entry counts, with
      `amount` in place of `startupId`'s current value. A `startupId` that
      is not in the object yet adds nothing. */
  function PotentialTotal(investments: Dict<int>, startupId: string, amount: int): (r: int)
  {
    if investments == [] then 0
    else (if investments[0].0 == startupId then amount else investments[0].1)
         + PotentialTotal(investments[1..], startupId, amount)
  }

  lemma {:induction false} PotentialTotalAbsent(investments: Dict<int>, startupId: string, amount: int)
    requires !HasKey(investments, startupId)
    ensures PotentialTotal(investments, startupId, amount) == Sum(investments)
  {
    if investments != [] {
      HasKeyTail(investments, startupId);
      PotentialTotalAbsent(investments[1..], startupId, amount);
    }
  }

  /** The check's sum is the total after the edit when `startupId` already
      has an entry, and the total before it when it has none. */
  lemma {:induction false} PotentialTotalIs(investments: Dict<int>, startupId: string, amount: int)
    requires DistinctKeys(investments)
    ensures PotentialTotal(investments, startupId, amount)
         == Sum(investments) - Get(investments, startupId, 0) + (if HasKey(investments, startupId) then amount else 0)
  {
    if investments != [] {
      var tail := investments[1..];
      assert DistinctKeys(tail) by {
        forall i, j | 0 <= i < j < |tail| ensures tail[i].0 != tail[j].0 {
          assert tail[i] == investments[i + 1] && tail[j] == investments[j + 1];
        }
      }
      if investments[0].0 == startupId {
        assert !HasKey(tail, startupId) by {
          forall i | 0 <= i < |tail| ensures tail[i].0 != startupId {
            assert tail[i] == investments[i + 1];
          }
        }
        PotentialTotalAbsent(tail, startupId, amount);
        assert HasKey(investments, startupId) by { assert investments[0].0 == startupId; }
      } else {
        HasKeyTail(investments, startupId);
        PotentialTotalIs(tail, startupId, amount);
      }
    }
  }

  /** What `updateInvestment` does with an edit. */
  datatype Decision = Closed | OverBudget | Accepted

  /** `updateInvestment`'s guards as written: a closed event refuses the
      edit, and so does a check sum above the allocation. */
  function Decide(investments: Dict<int>, totalAllocated: int, startupId: string, amount: int, eventIsLive: bool): (r: Decision)
  {
    if !eventIsLive then Closed
    else if PotentialTotal(investments, startupId, amount) > totalAllocated then OverBudget
    else Accepted
  }

  /** For a startup that already has an entry the check does its job: an
      accepted edit keeps the total within the allocation. */
  lemma AcceptedExistingStaysInBudget(investments: Dict<int>, totalAllocated: int, startupId: string, amount: int)
    requires DistinctKeys(investments) && HasKey(investments, startupId)
    ensures Decide(investments, totalAllocated, startupId, amount, true) == Accepted ==>
              Sum(Put(investments, startupId, amount)) <= totalAllocated
  {
    PotentialTotalIs(investments, startupId, amount);
    SumPut(investments, startupId, amount);
  }

  /** For a startup without an entry the check ignores the new amount: with
      nothing invested and an allocation of 100, an investment of 1000 is
      accepted and the total becomes 1000. */
  lemma NewStartupBypassesBudget()
    ensures Decide([], 100, "s", 1000, true) == Accepted
    ensures Sum(Put([], "s", 1000)) == 1000 > 100
  {
  }

  /** The check with the edited object's total, as the budget calls for. */
  function DecideCorrected(investments: Dict<int>, totalAllocated: int, startupId: string, amount: int, eventIsLive: bool): (r: Decision)
  {
    if !eventIsLive then Closed
    else if Sum(Put(investments, startupId, amount)) > totalAllocated then OverBudget
    else Accepted
  }

  /** The corrected check keeps every accepted edit within the allocation,
      and agrees with the check as written on startups already present. */
  lemma CorrectedStaysInBudget(investments: Dict<int>, totalAllocated: int, startupId: string, amount: int, eventIsLive: bool)
    requires DistinctKeys(investments)
    ensures DecideCorrected(investments, totalAllocated, startupId, amount, eventIsLive) == Accepted ==>
              Sum(Put(investments, startupId, amount)) <= totalAllocated
    ensures HasKey(investments, startupId) ==>
              DecideCorrected(investments, totalAllocated, startupId, amount, eventIsLive)
              == Decide(investments, totalAllocated, startupId, amount, eventIsLive)
  {
    if HasKey(investments, startupId) {
      PotentialTotalIs(investments, startupId, amount);
      SumPut(investments, startupId, amount);
    }
  }

  /** The `investments` document `updateInvestment` merges in under
      `{uid}_{startupId}`: a new document carries no `amount` and no
      `role`. */
  function MergeInvestment(docs: map<DocPath, InvestmentDoc>, eventId: string, uid: Uid,
                           startupId: string, amount: int): (r: map<DocPath, InvestmentDoc>)
  {
    var key := (eventId, uid + "_" + startupId);
    var written := if key in docs then docs[key].(userId := uid, eventId := eventId, startupId := startupId, investedPM := amount)
                   else InvestmentDoc(uid, eventId, startupId, amount, 0, "");
    docs[key := written]
  }

  /** The result aggregation never counts an investment document the client
      created: it has neither `amount` nor `role`. */
  lemma ClientDocumentNotCounted(docs: map<DocPath, InvestmentDoc>, eventId: string, uid: Uid,
                                 startupId: string, amount: int, t: Dict<int>, role: string)
    requires (eventId, uid + "_" + startupId) !in docs
    ensures var d := MergeInvestment(docs, eventId, uid, startupId, amount)[(eventId, uid + "_" + startupId)];
      !Results.Accepted(Results.InvestmentScore(d)) && Results.Add(t, Results.InvestmentScore(d), role) == t
  {
    var d := MergeInvestment(docs, eventId, uid, startupId, amount)[(eventId, uid + "_" + startupId)];
    Results.NotCounted(Results.InvestmentScore(d));
  }

  /** `investments` after the live query reports `docs`, in order: each
      document sets its startup's entry to its `investedPM`. */
  function Merged(investments: Dict<int>, docs: seq<InvestmentDoc>): (r: Dict<int>)
    decreases |docs|
  {
    if docs == [] then investments
    else Put(Merged(investments, docs[..|docs| - 1]), docs[|docs| - 1].startupId, docs[|docs| - 1].investedPM)
  }

  /** The `investedPM` of the last of `docs` for `startupId`, or `fallback`
      when none is for it. */
  function LastInvested(docs: seq<InvestmentDoc>, startupId: string, fallback: int): (r: int)
    decreases |docs|
  {
    if docs == [] then fallback
    else if docs[|docs| - 1].startupId == startupId then docs[|docs| - 1].investedPM
    else LastInvested(docs[..|docs| - 1], startupId, fallback)
  }

  /** After a snapshot every startup reads the amount of its last reported
      document, or what it held before when none was reported; keys stay
      distinct. */
  lemma {:induction false} MergedReadsLast(investments: Dict<int>, docs: seq<InvestmentDoc>, startupId: string)
    requires DistinctKeys(investments)
    ensures DistinctKeys(Merged(investments, docs))
    ensures Get(Merged(investments, docs), startupId, 0) == LastInvested(docs, startupId, Get(investments, startupId, 0))
  {
    if docs != [] {
      var prefix := docs[..|docs| - 1];
      var last := docs[|docs| - 1];
      MergedReadsLast(investments, prefix, startupId);
      PutKeepsDistinct(Merged(investments, prefix), last.startupId, last.investedPM);
      GetPut(Merged(investments, prefix), last.startupId, last.investedPM, startupId, 0);
    }
  }

  /** The client state of `useInvestments`. `user` is the signed-in
      account, if any. */
  class InvestmentsState {
    var user: Option<Uid>
    var totalAllocated: int
    var investments: Dict<int>

    ghost predicate Valid()
      reads this
    {
      DistinctKeys(investments)
    }

    constructor (user: Option<Uid>)
      ensures this.user == user && totalAllocated == 0 && investments == [] && Valid()
    {
      this.user := user;
      totalAllocated := 0;
      investments := [];
    }

    /** `totalInvested`: the sum of the amounts. */
    function TotalInvested(): (r: int)
      reads this
    {
      Sum(investments)
    }

    /** `remainingBalance`: what is left of the allocation, never below
      zero. */
    function RemainingBalance(): (b: int)
      reads this
      ensures b >= 0 && b >= totalAllocated - TotalInvested()
      ensures b == 0 || b == totalAllocated - TotalInvested()
    {
      if totalAllocated - TotalInvested() > 0 then totalAllocated - TotalInvested() else 0
    }

    /** The first read of `fetchWallet(eventId)`: the allocation of the
      account's wallet for the event, 0 when it has none; nothing without an
      event id or an account. */
    method FetchWallet(db: Database, eventId: Option<string>)
      modifies this`totalAllocated
      ensures eventId.None? || user.None? ==> totalAllocated == old(totalAllocated)
      ensures eventId.Some? && user.Some? ==>
        totalAllocated == (if (user.value, eventId.value) in db.wallets
                           then db.wallets[(user.value, eventId.value)].totalAllocated else 0)
    {
      if eventId.None? || user.None? {
        return;
      }
      var key := (user.value, eventId.value);
      if key in db.wallets {
        totalAllocated := db.wallets[key].totalAllocated;
      } else {
        totalAllocated := 0;
      }
    }

    /** The `onSnapshot` callback of `listenInvestments`. */
    method ApplySnapshot(docs: seq<InvestmentDoc>)
      requires Valid()
      modifies this`investments
      ensures Valid()
      ensures investments == Merged(old(investments), docs)
    {
      ghost var start := investments;
      var i := 0;
      while i < |docs|
        invariant 0 <= i <= |docs|
        invariant investments == Merged(start, docs[..i])
        invariant DistinctKeys(investments)
      {
        assert docs[..i + 1][..i] == docs[..i];
        PutKeepsDistinct(investments, docs[i].startupId, docs[i].investedPM);
        investments := Put(investments, docs[i].startupId, docs[i].investedPM);
        i := i + 1;
      }
      assert docs[..|docs|] == docs;
    }

    /** `updateInvestment(startupId, amount, eventIsLive)`: a refused edit
      changes nothing; an accepted one sets the amount locally, then merges
      the investment document in when the event id and the account are
      known. */
    method UpdateInvestment(db: Database, eventIdRef: IdInput, startupId: string, amount: int, eventIsLive: bool)
      returns (decision: Decision)
      requires Valid()
      modifies this`investments, db`investments
      ensures Valid()
      ensures decision == Decide(old(investments), totalAllocated, startupId, amount, eventIsLive)
      ensures decision != Accepted ==> investments == old(investments) && db.investments == old(db.investments)
      ensures decision == Accepted ==>
        && investments == Put(old(investments), startupId, amount)
        && db.investments == (if NormalizeId(eventIdRef).Some? && user.Some?
                              then MergeInvestment(old(db.investments), NormalizeId(eventIdRef).value, user.value, startupId, amount)
                              else old(db.investments))
    {
      if !eventIsLive {
        return Closed;
      }
      if PotentialTotal(investments, startupId, amount) > totalAllocated {
        return OverBudget;
      }
      PutKeepsDistinct(investments, startupId, amount);
      investments := Put(investments, startupId, amount);
      decision := Accepted;
      var eventId := NormalizeId(eventIdRef);
      if eventId.None? || user.None? {
        return;
      }
      db.investments := MergeInvestment(db.investments, eventId.value, user.value, startupId, amount);
    }
  }
}
