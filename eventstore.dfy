/** The client's event store (src/stores/event-store.js): entering an event
    code, the first-time join that grants premoney, onboarding, and reset.
    `user` stands for the signed-in account object the user store holds,
    with the fields this store reads and writes on it. */
module EventStore {
  import opened Common
  import opened JsString
  import opened Documents
  import EventCreation

  /** The signed-in account as the store sees it; `completedEvents` is
      absent until onboarding first sets it. */
  datatype ClientUser = ClientUser(
    uid: Uid,
    premoney: int,
    joinedEvents: seq<string>,
    completedEvents: Option<seq<string>>)

  const BadFormatMessage := "Please enter a valid 4-digit code"
  const UnknownMessage := "Invalid event code"
  const EndedMessage := "This event has ended"
  const SetupMessage := "Event is still being set up"

  /** The premoney a first join grants. */
  const JoinGrant := 10000

  /** The only code length `validateEventCode` lets through. */
  const CodeLength := 4

  /** Where the lookup of an entered code ends. */
  datatype Lookup = BadFormat | NoSuchEvent | Found(id: string, event: Event)

  /** The format check, then the event stored under the upper-cased code. */
  function LookupCode(events: map<string, Event>, code: string): (l: Lookup)
    ensures l.BadFormat? <==> |code| != CodeLength
    ensures l.NoSuchEvent? <==> |code| == CodeLength && Upper(code) !in events
    ensures l.Found? ==> l.id == Upper(code) && l.id in events && l.event == events[l.id]
  {
    if |code| != CodeLength then BadFormat
    else if Upper(code) !in events then NoSuchEvent
    else Found(Upper(code), events[Upper(code)])
  }

  /** `validateEventCode`'s answer: an existing event that is neither
      ended nor still in setup. */
  function Accepts(events: map<string, Event>, code: string): (ok: bool)
    ensures ok <==> |code| == CodeLength && Upper(code) in events
                    && events[Upper(code)].status != "ended" && events[Upper(code)].status != "setup"
  {
    var l := LookupCode(events, code);
    l.Found? && l.event.status != "ended" && l.event.status != "setup"
  }

  /** The message `validateEventCode` leaves in `error`. */
  function ErrorFor(events: map<string, Event>, code: string): (msg: string)
    ensures msg == "" <==> Accepts(events, code)
  {
    match LookupCode(events, code)
    case BadFormat => BadFormatMessage
    case NoSuchEvent => UnknownMessage
    case Found(_, event) =>
      if event.status == "ended" then EndedMessage
      else if event.status == "setup" then SetupMessage
      else ""
  }

  /** Every code `createEvent` issues has five digits, so the store rejects
      each of them with the format message before any lookup. */
  lemma IssuedCodesRejected(events: map<string, Event>, draw: int)
    requires 0 <= draw < 90000
    ensures LookupCode(events, EventCreation.Candidate(draw)) == BadFormat
    ensures !Accepts(events, EventCreation.Candidate(draw))
    ensures ErrorFor(events, EventCreation.Candidate(draw)) == BadFormatMessage
  {
    EventCreation.CandidateIsFiveDigits(draw);
  }

  /** The format check with the length of the codes `createEvent` issues. */
  function LookupCodeCorrected(events: map<string, Event>, code: string): (l: Lookup)
    ensures l.BadFormat? <==> |code| != 5
    ensures l.Found? ==> l.id in events && l.event == events[l.id]
  {
    if |code| != 5 then BadFormat
    else if Upper(code) !in events then NoSuchEvent
    else Found(Upper(code), events[Upper(code)])
  }

  /** With the corrected check an issued code finds the event stored under
      it. */
  lemma IssuedCodesFound(events: map<string, Event>, draw: int)
    requires 0 <= draw < 90000
    requires EventCreation.Candidate(draw) in events
    ensures LookupCodeCorrected(events, EventCreation.Candidate(draw))
            == Found(EventCreation.Candidate(draw), events[EventCreation.Candidate(draw)])
  {
    EventCreation.CandidateIsFiveDigits(draw);
    var code := EventCreation.Candidate(draw);
    assert Upper(code) == code by {
      forall i | 0 <= i < |code| ensures Upper(code)[i] == code[i] {
        assert IsDigit(code[i]);
      }
    }
  }

  /** `handleFirstTimeJoin(eventId)`: the user document and the local
      account after it. A missing document, or an event already joined,
      changes nothing; otherwise the event is appended and 10000 premoney
      granted, from the stored values. */
  function FirstJoin(users: map<string, UserProfile>, user: ClientUser, eventId: string): (r: (map<string, UserProfile>, ClientUser))
  {
    if user.uid !in users || eventId in users[user.uid].joinedEvents then (users, user)
    else
      var p := users[user.uid];
      (users[user.uid := p.(joinedEvents := p.joinedEvents + [eventId],
                            premoney := p.premoney + JoinGrant,
                            totalEvents := p.totalEvents + 1)],
       user.(premoney := p.premoney + JoinGrant, joinedEvents := p.joinedEvents + [eventId]))
  }

  /** A profile whose counters agree with its list of joined events: one
      grant and one count per distinct event. */
  ghost predicate Balanced(p: UserProfile)
  {
    && p.premoney == JoinGrant * |p.joinedEvents|
    && p.totalEvents == |p.joinedEvents|
    && forall i, j :: 0 <= i < j < |p.joinedEvents| ==> p.joinedEvents[i] != p.joinedEvents[j]
  }

  /** A join grants 10000 and one count exactly when the event is new to the
      document, touches no other document, and leaves the event joined. */
  lemma FirstJoinGrantsOnce(users: map<string, UserProfile>, user: ClientUser, eventId: string)
    requires user.uid in users
    ensures var (after, u) := FirstJoin(users, user, eventId);
      var (p, q) := (users[user.uid], after[user.uid]);
      && after.Keys == users.Keys
      && (forall k :: k in users && k != user.uid ==> after[k] == users[k])
      && eventId in q.joinedEvents
      && q.premoney == p.premoney + (if eventId in p.joinedEvents then 0 else JoinGrant)
      && q.totalEvents == p.totalEvents + (if eventId in p.joinedEvents then 0 else 1)
      && q.completedEvents == p.completedEvents
      && (eventId !in p.joinedEvents ==> u.premoney == q.premoney && u.joinedEvents == q.joinedEvents)
  {
  }

  /** Joining the same event twice is joining it once. */
  lemma FirstJoinTwice(users: map<string, UserProfile>, user: ClientUser, eventId: string)
    ensures var once := FirstJoin(users, user, eventId);
      FirstJoin(once.0, once.1, eventId) == once
  {
  }

  /** Joins keep a balanced profile balanced. */
  lemma FirstJoinKeepsBalanced(users: map<string, UserProfile>, user: ClientUser, eventId: string)
    requires user.uid in users && Balanced(users[user.uid])
    ensures Balanced(FirstJoin(users, user, eventId).0[user.uid])
  {
    var p := users[user.uid];
    if eventId !in p.joinedEvents {
      var q := FirstJoin(users, user, eventId).0[user.uid];
      assert q.joinedEvents == p.joinedEvents + [eventId];
      forall i, j | 0 <= i < j < |q.joinedEvents| ensures q.joinedEvents[i] != q.joinedEvents[j] {
        if j == |p.joinedEvents| {
          assert q.joinedEvents[i] == p.joinedEvents[i];
        } else {
          assert q.joinedEvents[i] == p.joinedEvents[i] && q.joinedEvents[j] == p.joinedEvents[j];
        }
      }
    }
  }

  /** `arrayUnion(x)` on a stored array. */
  function ArrayUnion(s: seq<string>, x: string): (r: seq<string>)
    ensures x in r && forall y :: y in s ==> y in r
    ensures forall y :: y in r ==> y in s || y == x
    ensures x in s ==> r == s
  {
    if x in s then s else s + [x]
  }

  /** The store's state. */
  class Store {
    var currentEvent: Option<(string, Event)>
    var eventCode: string
    var isLoading: bool
    var error: string
    var user: Option<ClientUser>

    constructor (user: Option<ClientUser>)
      ensures currentEvent.None? && eventCode == "" && !isLoading && error == "" && this.user == user
    {
      currentEvent := None;
      eventCode := "";
      isLoading := false;
      error := "";
      this.user := user;
    }

    /** `hasCompletedOnboarding`: there is a current event and an account,
        and the account's completed events hold the event's id. */
    function HasCompletedOnboarding(): (r: bool)
      reads this
    {
      currentEvent.Some? && user.Some? && user.value.completedEvents.Some?
      && currentEvent.value.0 in user.value.completedEvents.value
    }

    /** `handleFirstTimeJoin`, for a signed-in account. */
    method HandleFirstTimeJoin(db: Database, eventId: string)
      requires user.Some?
      modifies this`user, db`users
      ensures user.Some?
      ensures (db.users, user.value) == FirstJoin(old(db.users), old(user.value), eventId)
    {
      var uid := user.value.uid;
      if uid !in db.users {
        return;
      }
      var data := db.users[uid];
      if eventId in data.joinedEvents {
        return;
      }
      db.users := db.users[uid := data.(joinedEvents := data.joinedEvents + [eventId],
                                        premoney := data.premoney + JoinGrant,
                                        totalEvents := data.totalEvents + 1)];
      user := Some(user.value.(premoney := data.premoney + JoinGrant, joinedEvents := data.joinedEvents + [eventId]));
    }

    /** `validateEventCode(code)`: the answer and the message; any existing
      event becomes the current one, whatever its status; a live event is
      joined for a signed-in account; `isLoading` ends false once the
      format check has passed. */
    method ValidateEventCode(db: Database, code: string) returns (ok: bool)
      modifies this`currentEvent, this`isLoading, this`error, this`user, db`users
      ensures ok == Accepts(db.events, code) && error == ErrorFor(db.events, code)
      ensures var l := LookupCode(db.events, code);
        && currentEvent == (if l.Found? then Some((l.id, l.event)) else old(currentEvent))
        && isLoading == (if l.BadFormat? then old(isLoading) else false)
        && (if l.Found? && l.event.status == "live" && old(user).Some?
            then user.Some? && (db.users, user.value) == FirstJoin(old(db.users), old(user).value, l.id)
            else user == old(user) && db.users == old(db.users))
    {
      if |code| != CodeLength {
        error := BadFormatMessage;
        return false;
      }
      isLoading := true;
      error := "";
      var id := Upper(code);
      if id !in db.events {
        error := UnknownMessage;
        isLoading := false;
        return false;
      }
      var event := db.events[id];
      currentEvent := Some((id, event));
      if event.status == "ended" {
        error := EndedMessage;
        isLoading := false;
        return false;
      }
      if event.status == "setup" {
        error := SetupMessage;
        isLoading := false;
        return false;
      }
      if event.status == "live" && user.Some? {
        HandleFirstTimeJoin(db, id);
      }
      isLoading := false;
      ok := true;
    }

    /** `completeOnboarding`. */
    method CompleteOnboarding(db: Database)
      modifies this`user, db`users
      ensures currentEvent.None? || old(user).None? ==> user == old(user) && db.users == old(db.users)
      ensures currentEvent.Some? && old(user).Some? ==>
        user.Some? && (db.users, user.value) == Onboard(old(db.users), old(user).value, currentEvent.value.0)
      ensures currentEvent.Some? && old(user).Some? && old(user).value.uid in old(db.users) ==> HasCompletedOnboarding()
    {
      if currentEvent.None? || user.None? {
        return;
      }
      var uid := user.value.uid;
      if uid !in db.users {
        return;
      }
      var id := currentEvent.value.0;
      var p := db.users[uid];
      db.users := db.users[uid := p.(completedEvents := ArrayUnion(p.completedEvents, id))];
      var done := if user.value.completedEvents.Some? then user.value.completedEvents.value else [];
      user := Some(user.value.(completedEvents := Some(done + [id])));
    }

    /** `resetEvent`. */
    method ResetEvent()
      modifies this`currentEvent, this`eventCode, this`error
      ensures currentEvent.None? && eventCode == "" && error == ""
      ensures !HasCompletedOnboarding()
    {
      currentEvent := None;
      eventCode := "";
      error := "";
    }
  }

  /** `completeOnboarding` for event `id`: the user document and the local
      account after it. The event is added to the stored `completedEvents`
      once, and pushed onto the local list even when it is already there; a
      missing user document makes the update throw, which is caught before
      the local push. */
  function Onboard(users: map<string, UserProfile>, user: ClientUser, id: string): (r: (map<string, UserProfile>, ClientUser))
  {
    if user.uid !in users then (users, user)
    else
      var p := users[user.uid];
      var done := if user.completedEvents.Some? then user.completedEvents.value else [];
      (users[user.uid := p.(completedEvents := ArrayUnion(p.completedEvents, id))],
       user.(completedEvents := Some(done + [id])))
  }

  /** Onboarding marks the event complete both in the user document and
      locally, and touches nothing else of either. */
  lemma OnboardCompletes(users: map<string, UserProfile>, user: ClientUser, id: string)
    requires user.uid in users
    ensures var (after, u) := Onboard(users, user, id);
      && after.Keys == users.Keys
      && (forall k :: k in users && k != user.uid ==> after[k] == users[k])
      && id in after[user.uid].completedEvents
      && after[user.uid].(completedEvents := users[user.uid].completedEvents) == users[user.uid]
      && u.completedEvents.Some? && id in u.completedEvents.value
      && u.(completedEvents := user.completedEvents) == user
  {
  }

  /** Onboarding twice leaves the stored list as after one call, but the
      local list holds the event one more time. */
  lemma OnboardTwice(users: map<string, UserProfile>, user: ClientUser, id: string)
    requires user.uid in users
    ensures var once := Onboard(users, user, id);
      var twice := Onboard(once.0, once.1, id);
      && twice.0 == once.0
      && twice.1.completedEvents == Some(once.1.completedEvents.value + [id])
      && multiset(twice.1.completedEvents.value)[id] == multiset(once.1.completedEvents.value)[id] + 1
  {
  }
}
