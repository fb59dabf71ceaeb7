/** Joining a live event as an investor (functions/joiningPremoney.js): the
    caller's premoney wallet for the event and the event's investor record,
    written together in one batch, once. */
module Premoney {
  import opened Common
  import opened Documents

  /** The allocation of an event that sets no `startingPremoney`. */
  const DefaultPremoney := 10000

  /** `eventData.startingPremoney || 10000`. */
  function StartingBalance(event: Event): int
  {
    if event.startingPremoney != 0 then event.startingPremoney else DefaultPremoney
  }

  /** What the callable returns: the existing wallet, or the two new
      records. */
  datatype Joined = AlreadyJoined(wallet: Wallet) | NewlyJoined(wallet: Wallet, investor: Investor)

  /** The two collections the callable writes: wallets under
      `(uid, eventId)`, investor records under `(eventId, uid)`. */
  datatype Ledger = Ledger(wallets: map<DocPath, Wallet>, investors: map<DocPath, Investor>)

  /** Every wallet has the matching investor record: the batch writes both
      or neither. */
  ghost predicate Paired(ledger: Ledger)
  {
    forall p :: p in ledger.wallets ==> (p.1, p.0) in ledger.investors
  }

  /** The investor record as the callable builds it: its `email` is
      `user.email || null` where `user` is `request.auth`, whose fields are
      the uid and the token, so the email is always `null`. */
  function InvestorRecord(uid: Uid, balance: int): Investor
  {
    Investor(uid, None, balance, balance, 0)
  }

  /** The investor record with the caller's email taken from the token,
      where the account's email lives. */
  function InvestorRecordWithEmail(auth: Auth, balance: int): (r: Investor)
    requires auth.SignedIn?
    ensures auth.email != "" <==> r.email == Some(auth.email)
    ensures r.userId == auth.uid && r.startingBalance == r.currentBalance == balance && r.totalInvested == 0
  {
    Investor(auth.uid, if auth.email != "" then Some(auth.email) else None, balance, balance, 0)
  }

  /** `joiningPremoney` on `ledger`: its outcome and the ledger after it. */
  function Join(events: map<string, Event>, ledger: Ledger, auth: Auth, eventId: string): (Result<Joined>, Ledger)
  {
    if auth.Anonymous? then (Err(Unauthenticated), ledger)
    else if eventId == "" then (Err(InvalidArgument), ledger)
    else if eventId !in events then (Err(NotFound), ledger)
    else if events[eventId].status != "live" then (Err(FailedPrecondition), ledger)
    else
      var balance, key := StartingBalance(events[eventId]), (auth.uid, eventId);
      if key in ledger.wallets then (Ok(AlreadyJoined(ledger.wallets[key])), ledger)
      else
        var wallet, investor := Wallet(eventId, balance, balance, 0), InvestorRecord(auth.uid, balance);
        (Ok(NewlyJoined(wallet, investor)),
         Ledger(ledger.wallets[key := wallet], ledger.investors[(eventId, auth.uid) := investor]))
  }

  /** The errors of `joiningPremoney`, in the order it checks them; a failed
      call writes nothing, and neither does a repeated one. */
  lemma JoinErrors(events: map<string, Event>, ledger: Ledger, auth: Auth, eventId: string)
    ensures var res := Join(events, ledger, auth, eventId);
      && (res.0.Err? || res.0.value.AlreadyJoined? ==> res.1 == ledger)
      && (auth.Anonymous? <==> res.0 == Err(Unauthenticated))
      && (res.0 == Err(InvalidArgument) <==> auth.SignedIn? && eventId == "")
      && (res.0 == Err(NotFound) <==> auth.SignedIn? && eventId != "" && eventId !in events)
      && (res.0 == Err(FailedPrecondition) <==>
            auth.SignedIn? && eventId in events && eventId != "" && events[eventId].status != "live")
  {
  }

  /** A first join writes a full wallet and the matching investor record,
      both holding the event's starting balance (or 10000), and nothing
      else. */
  lemma JoinCreatesWallet(events: map<string, Event>, ledger: Ledger, auth: Auth, eventId: string)
    ensures var res := Join(events, ledger, auth, eventId);
      res.0.Ok? && res.0.value.NewlyJoined? ==>
        && auth.SignedIn? && eventId in events && events[eventId].status == "live"
        && (auth.uid, eventId) !in ledger.wallets
        && var (wallet, investor) := (res.0.value.wallet, res.0.value.investor);
        && var balance := if events[eventId].startingPremoney != 0 then events[eventId].startingPremoney else 10000;
        && wallet == Wallet(eventId, balance, balance, 0)
        && wallet.remaining == wallet.totalAllocated && wallet.totalInvested == 0
        && investor.userId == auth.uid && investor.startingBalance == investor.currentBalance == balance
        && investor.totalInvested == 0
        && res.1.wallets == ledger.wallets[(auth.uid, eventId) := wallet]
        && res.1.investors == ledger.investors[(eventId, auth.uid) := investor]
  {
  }

  /** Joining keeps every wallet paired with its investor record. */
  lemma JoinKeepsPaired(events: map<string, Event>, ledger: Ledger, auth: Auth, eventId: string)
    requires Paired(ledger)
    ensures Paired(Join(events, ledger, auth, eventId).1)
  {
    var res := Join(events, ledger, auth, eventId);
    if res.1 != ledger {
      forall p | p in res.1.wallets
        ensures (p.1, p.0) in res.1.investors
      {
        if p != (auth.uid, eventId) {
          assert p in ledger.wallets;
        }
      }
    }
  }

  /** Joining twice creates one wallet: the second call reports the wallet
      the first made and writes nothing. */
  lemma JoinTwice(events: map<string, Event>, ledger: Ledger, auth: Auth, eventId: string)
    ensures var first := Join(events, ledger, auth, eventId);
      var second := Join(events, first.1, auth, eventId);
      first.0.Ok? ==>
        && second.1 == first.1
        && second.0 == Ok(AlreadyJoined(first.0.value.wallet))
  {
  }

  /** As written the investor record never holds an email, even for a
      caller whose token carries one. */
  lemma InvestorEmailAlwaysNull(events: map<string, Event>, ledger: Ledger, auth: Auth, eventId: string)
    requires auth.SignedIn? && auth.email != ""
    ensures var res := Join(events, ledger, auth, eventId);
      res.0.Ok? && res.0.value.NewlyJoined? ==>
        res.0.value.investor.email == None && res.0.value.investor != InvestorRecordWithEmail(auth, res.0.value.investor.startingBalance)
  {
  }

  /** `joiningPremoney`. */
  method JoinPremoney(db: Database, auth: Auth, eventId: string) returns (r: Result<Joined>)
    modifies db`wallets, db`investors
    ensures (r, Ledger(db.wallets, db.investors)) == Join(db.events, Ledger(old(db.wallets), old(db.investors)), auth, eventId)
  {
    if auth.Anonymous? {
      return Err(Unauthenticated);
    }
    if eventId == "" {
      return Err(InvalidArgument);
    }
    if eventId !in db.events {
      return Err(NotFound);
    }
    var event := db.events[eventId];
    if event.status != "live" {
      return Err(FailedPrecondition);
    }
    var balance := StartingBalance(event);
    var key := (auth.uid, eventId);
    if key in db.wallets {
      return Ok(AlreadyJoined(db.wallets[key]));
    }
    var wallet := Wallet(eventId, balance, balance, 0);
    var investor := InvestorRecord(auth.uid, balance);
    db.wallets := db.wallets[key := wallet];
    db.investors := db.investors[(eventId, auth.uid) := investor];
    r := Ok(NewlyJoined(wallet, investor));
  }
}
