/** Creating an event (functions/createEvent.js): a bounded search for a
    free five-digit event code, the event record, the host's user document
    and the `hostedEvents` mirror. The random numbers the search draws are a
    parameter. */
module EventCreation {
  import opened Common
  import opened JsString
  import opened Documents
  import opened Requests

  /** How many candidate codes are tried before giving up. */
  const Attempts := 10

  /** The ten draws of `Math.random() * 90000`, rounded down. */
  predicate ValidDraws(draws: seq<int>)
  {
    |draws| == Attempts && forall i :: 0 <= i < |draws| ==> 0 <= draws[i] < 90000
  }

  /** `Math.floor(10000 + draw).toString()`. */
  function Candidate(draw: int): string
    requires 0 <= draw < 90000
  {
    DecimalString(10000 + draw)
  }

  /** Every candidate is the decimal form of a number in 10000..99999, so it
      has exactly five digits, and distinct draws give distinct codes. */
  lemma CandidateIsFiveDigits(draw: int)
    requires 0 <= draw < 90000
    ensures |Candidate(draw)| == 5
    ensures forall i :: 0 <= i < 5 ==> IsDigit(Candidate(draw)[i])
    ensures ParseDecimal(Candidate(draw)) == 10000 + draw
  {
    assert Pow10(2) == 100 by { assert Pow10(1) == 10; }
    assert Pow10(4) == 10000 by { assert Pow10(3) == 1000; }
    DecimalStringLength(10000 + draw, 5, 10000);
    ParseDecimalString(10000 + draw);
  }

  /** The first candidate of `draws` that no event uses yet. */
  function FirstFree(events: map<string, Event>, draws: seq<int>): (code: Option<string>)
    requires forall i :: 0 <= i < |draws| ==> 0 <= draws[i] < 90000
    ensures code.Some? ==> code.value !in events
  {
    if draws == [] then None
    else if Candidate(draws[0]) !in events then Some(Candidate(draws[0]))
    else FirstFree(events, draws[1..])
  }

  /** The search finds a code exactly when some candidate is free, and then
      it is the first free one: every earlier candidate was taken. */
  lemma {:induction false} FirstFreeIsFirst(events: map<string, Event>, draws: seq<int>)
    requires forall i :: 0 <= i < |draws| ==> 0 <= draws[i] < 90000
    ensures FirstFree(events, draws).None? <==> forall i :: 0 <= i < |draws| ==> Candidate(draws[i]) in events
    ensures FirstFree(events, draws).Some? ==>
      exists i :: 0 <= i < |draws| && FirstFree(events, draws).value == Candidate(draws[i])
                  && forall j :: 0 <= j < i ==> Candidate(draws[j]) in events
  {
    if draws != [] && Candidate(draws[0]) in events {
      FirstFreeIsFirst(events, draws[1..]);
      if FirstFree(events, draws).Some? {
        var i :| 0 <= i < |draws[1..]| && FirstFree(events, draws[1..]).value == Candidate(draws[1..][i])
                  && forall j :: 0 <= j < i ==> Candidate(draws[1..][j]) in events;
        assert FirstFree(events, draws).value == Candidate(draws[i + 1]);
        forall j | 0 <= j < i + 1
          ensures Candidate(draws[j]) in events
        {
          if j > 0 {
            assert draws[j] == draws[1..][j - 1];
          }
        }
      } else {
        forall i | 0 <= i < |draws|
          ensures Candidate(draws[i]) in events
        {
          if i > 0 {
            assert draws[i] == draws[1..][i - 1];
          }
        }
      }
    }
  }

  /** The code allocation loop of `createEvent`: up to ten candidates, the
      first one without an event document wins. */
  method AllocateEventCode(db: Database, draws: seq<int>) returns (code: Option<string>)
    requires ValidDraws(draws)
    ensures code == FirstFree(db.events, draws)
  {
    code := None;
    var i := 0;
    while i < Attempts
      invariant 0 <= i <= Attempts
      invariant code.None?
      invariant FirstFree(db.events, draws) == FirstFree(db.events, draws[i..])
    {
      var candidate := Candidate(draws[i]);
      if candidate !in db.events {
        code := Some(candidate);
        break;
      }
      assert draws[i..][1..] == draws[i + 1..];
      i := i + 1;
    }
  }

  /** `location?.trim() || null`. */
  function OptionalLocation(location: Arg): (r: Result<Option<string>>)
    ensures r.Err? <==> location.Other?
    ensures r.Ok? && r.value.Some? ==> r.value.value != "" && Trimmed(r.value.value)
  {
    var trimmed := OptionalTrim(location);
    if trimmed.Err? then Err(Internal)
    else if trimmed.value == "" then Ok(None)
    else Ok(Some(trimmed.value))
  }

  /** The event record `createEvent` writes under `code`, or the error
      trimming its optional fields throws. */
  function NewEvent(uid: Uid, hostEmail: string, name: string, description: Arg, location: Arg,
                    isPublic: Arg, code: string): Result<Event>
  {
    var d, loc := OptionalTrim(description), OptionalLocation(location);
    if d.Err? || loc.Err? then Err(Internal)
    else Ok(Event(Trim(name), d.value, loc.value, Truthy(isPublic), code, uid, hostEmail,
                  "setup", 0, false, "", None, None))
  }

  /** The outcome of `createEvent`: the code and the event written under it,
      or the error. `accountEmail` is the email Firebase Auth holds for the
      caller, used when the token carries none; `""` stands for an account
      without one, whose `undefined` `hostEmail` makes the event write fail. */
  function CreateEventOutcome(events: map<string, Event>, auth: Auth, name: Arg, description: Arg,
                              location: Arg, isPublic: Arg, accountEmail: string, draws: seq<int>): Result<(string, Event)>
    requires ValidDraws(draws)
  {
    if auth.Anonymous? then Err(Unauthenticated)
    else if !ValidId(name) then Err(InvalidArgument)
    else
      var code := FirstFree(events, draws);
      if code.None? then Err(Internal)
      else
        var hostEmail := if auth.email != "" then auth.email else accountEmail;
        var event := NewEvent(auth.uid, hostEmail, name.s, description, location, isPublic, code.value);
        if event.Err? || hostEmail == "" then Err(Internal) else Ok((code.value, event.value))
  }

  /** The errors of `createEvent`: no account, then a missing or non-string
      name, then (inside its `try`, all as `internal`) ten taken codes, an
      optional field that cannot be trimmed, or an event write rejected for
      lack of a host email. */
  lemma CreateEventErrors(events: map<string, Event>, auth: Auth, name: Arg, description: Arg,
                          location: Arg, isPublic: Arg, accountEmail: string, draws: seq<int>)
    requires ValidDraws(draws)
    ensures var r := CreateEventOutcome(events, auth, name, description, location, isPublic, accountEmail, draws);
      && (auth.Anonymous? <==> r == Err(Unauthenticated))
      && (auth.SignedIn? && !ValidId(name) <==> r == Err(InvalidArgument))
      && (r == Err(Internal) <==>
            auth.SignedIn? && ValidId(name)
            && ((forall i :: 0 <= i < |draws| ==> Candidate(draws[i]) in events) || description.Other? || location.Other?
                || (auth.email == "" && accountEmail == "")))
  {
    FirstFreeIsFirst(events, draws);
  }

  /** A created event sits under a five-digit code no event used, the first
      free candidate; it is in `setup`, carries its own code, the trimmed
      name, the caller as host with a non-empty email (the token's, else the
      account's) and `isPublic` as a boolean. */
  lemma CreatedEvent(events: map<string, Event>, auth: Auth, name: Arg, description: Arg,
                     location: Arg, isPublic: Arg, accountEmail: string, draws: seq<int>)
    requires ValidDraws(draws)
    ensures var r := CreateEventOutcome(events, auth, name, description, location, isPublic, accountEmail, draws);
      r.Ok? ==>
        && auth.SignedIn? && ValidId(name)
        && var (code, event) := r.value;
        && code !in events && |code| == 5
        && (exists i :: 0 <= i < |draws| && code == Candidate(draws[i])
                        && forall j :: 0 <= j < i ==> Candidate(draws[j]) in events)
        && event.status == "setup" && event.code == code && event.name == Trim(name.s)
        && event.hostUid == auth.uid && (event.isPublic <==> Truthy(isPublic))
        && event.hostEmail == (if auth.email != "" then auth.email else accountEmail)
        && event.hostEmail != ""
  {
    var r := CreateEventOutcome(events, auth, name, description, location, isPublic, accountEmail, draws);
    if r.Ok? {
      FirstFreeIsFirst(events, draws);
      var i :| 0 <= i < |draws| && r.value.0 == Candidate(draws[i])
               && forall j :: 0 <= j < i ==> Candidate(draws[j]) in events;
      CandidateIsFiveDigits(draws[i]);
    }
  }

  /** The user document `createEvent` makes for a host who has none: the
      profile fields are all absent. */
  const EmptyProfile := UserProfile([], 0, 0, [])

  /** The three writes of a successful `createEvent`: the event under its
      code, the host's user document if it has none, and the `hostedEvents`
      mirror. */
  method WriteEvent(db: Database, uid: Uid, code: string, event: Event)
    modifies db`events, db`users, db`hostedEvents
    ensures db.events == old(db.events)[code := event]
    ensures db.users == (if uid in old(db.users) then old(db.users) else old(db.users)[uid := EmptyProfile])
    ensures db.hostedEvents == old(db.hostedEvents)[(uid, code) := HostedEvent("host", code)]
  {
    db.events := db.events[code := event];
    if uid !in db.users {
      db.users := db.users[uid := EmptyProfile];
    }
    db.hostedEvents := db.hostedEvents[(uid, code) := HostedEvent("host", code)];
  }

  /** `createEvent`. */
  method CreateEvent(db: Database, auth: Auth, name: Arg, description: Arg, location: Arg,
                     isPublic: Arg, accountEmail: string, draws: seq<int>) returns (r: Result<string>)
    requires ValidDraws(draws)
    modifies db`events, db`users, db`hostedEvents
    ensures var out := CreateEventOutcome(old(db.events), auth, name, description, location, isPublic, accountEmail, draws);
      && (out.Err? ==> r == Err(out.code) && unchanged(db`events, db`users, db`hostedEvents))
      && (out.Ok? ==>
            var (code, event) := out.value;
            && r == Ok(code)
            && db.events == old(db.events)[code := event]
            && db.users == (if auth.uid in old(db.users) then old(db.users) else old(db.users)[auth.uid := EmptyProfile])
            && db.hostedEvents == old(db.hostedEvents)[(auth.uid, code) := HostedEvent("host", code)])
  {
    if auth.Anonymous? {
      return Err(Unauthenticated);
    }
    var hostEmail := if auth.email != "" then auth.email else accountEmail;
    if !ValidId(name) {
      return Err(InvalidArgument);
    }
    var code := AllocateEventCode(db, draws);
    if code.None? {
      return Err(Internal);
    }
    var event := NewEvent(auth.uid, hostEmail, name.s, description, location, isPublic, code.value);
    if event.Err? || hostEmail == "" {
      return Err(Internal);
    }
    assert CreateEventOutcome(db.events, auth, name, description, location, isPublic, accountEmail, draws)
        == Ok((code.value, event.value));
    WriteEvent(db, auth.uid, code.value, event.value);
    r := Ok(code.value);
  }
}
