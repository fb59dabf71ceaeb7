/** Person identity keyed by normalized email: reserving a person record for
    an invited founder or judge (functions/reservePersonByEmail.js) and
    linking a newly created account to it (functions/onUserCreate.js). */
module Identity {
  import opened Common
  import opened JsString
  import opened Documents
  import opened Requests
  import ServerEmail

  /** Every email index entry names an existing person whose stored email is
      the entry's key. */
  ghost predicate IndexConsistent(emailIndex: map<string, EmailIndexEntry>, people: map<string, Person>)
  {
    forall e :: e in emailIndex ==>
      emailIndex[e].personId in people && people[emailIndex[e].personId].email == e
  }

  /** So one person never stands for two index keys. */
  lemma ConsistentIndexInjective(emailIndex: map<string, EmailIndexEntry>, people: map<string, Person>, e1: string, e2: string)
    requires IndexConsistent(emailIndex, people)
    requires e1 in emailIndex && e2 in emailIndex && emailIndex[e1].personId == emailIndex[e2].personId
    ensures e1 == e2
  {
  }

  /** Indexing a new person under its own email keeps the index consistent. */
  lemma NewPersonKeepsConsistent(emailIndex: map<string, EmailIndexEntry>, people: map<string, Person>,
                                 e: string, pid: string, person: Person)
    requires pid !in people && person.email == e
    ensures IndexConsistent(emailIndex, people) ==>
              IndexConsistent(emailIndex[e := EmailIndexEntry(pid)], people[pid := person])
  {
    if IndexConsistent(emailIndex, people) {
      var index', people' := emailIndex[e := EmailIndexEntry(pid)], people[pid := person];
      forall e' | e' in index' ensures index'[e'].personId in people' && people'[index'[e'].personId].email == e' {
        if e' != e {
          assert emailIndex[e'].personId in people;
        }
      }
    }
  }

  /** `normalizeEmail(x)` for a request field: a falsy field gives `""`, and
      a truthy one that is not a string makes `trim` throw. */
  function NormalizedArg(a: Arg): (r: Result<string>)
    ensures r.Err? <==> a.Other? && a.truthy
    ensures a.Text? ==> r == Ok(ServerEmail.NormalizeEmail(Some(a.s)))
  {
    match a
    case Absent => Ok("")
    case Text(s) => Ok(ServerEmail.NormalizeEmail(Some(s)))
    case Other(t) => if t then Err(Internal) else Ok("")
  }

  /** The callable's return value. */
  datatype Reservation = Reservation(personId: string, status: string, linkedUid: Option<Uid>)

  /** The two collections the reservation transaction reads and writes. */
  datatype Directory = Directory(emailIndex: map<string, EmailIndexEntry>, people: map<string, Person>)

  /** Every email index entry names an existing person whose stored email is
      the entry's key. */
  ghost predicate Consistent(d: Directory)
  {
    IndexConsistent(d.emailIndex, d.people)
  }

  /** The writes of a reservation whose input passed validation: `e` is
      indexed to the person already indexed under it, or to a new `invited`
      person stored under `freshId`. */
  function Admit(d: Directory, e: string, first: string, last: string, freshId: string): (Reservation, Directory)
  {
    var personId := if e in d.emailIndex then d.emailIndex[e].personId else freshId;
    var index' := d.emailIndex[e := EmailIndexEntry(personId)];
    if personId !in d.people then
      (Reservation(personId, "invited", None),
       Directory(index', d.people[personId := Person(e, first, last, None, "invited")]))
    else
      var person := d.people[personId];
      (Reservation(personId, if person.linkedUid.Some? then "registered" else "invited", person.linkedUid),
       Directory(index', d.people))
  }

  /** The validated input of the callable: the normalized address and the
      trimmed names. */
  datatype Request = Request(email: string, firstName: string, lastName: string)

  /** The checks `reservePersonByEmail` makes before its transaction: the
      address is normalized and must then be valid, and the names are
      trimmed. */
  function ParseRequest(email: Arg, firstName: Arg, lastName: Arg): (r: Result<Request>)
    ensures r.Ok? ==> Trimmed(r.value.firstName) && Trimmed(r.value.lastName)
  {
    var normalized := NormalizedArg(email);
    if normalized.Err? then Err(normalized.code)
    else if !ServerEmail.IsValidEmail(Some(normalized.value)) then Err(InvalidArgument)
    else
      var first, last := TrimmedArg(firstName), TrimmedArg(lastName);
      if first.Err? || last.Err? then Err(Internal)
      else Ok(Request(normalized.value, first.value, last.value))
  }

  /** Only a valid address is ever reserved, and it is the normalized form
      of the request's `email`. */
  lemma ParseRequestValid(email: Arg, firstName: Arg, lastName: Arg)
    ensures var r := ParseRequest(email, firstName, lastName);
      r.Ok? ==> && email.Text?
                && r.value.email == ServerEmail.NormalizeEmail(Some(email.s))
                && ServerEmail.IsValidEmail(Some(r.value.email))
  {
  }

  /** The transaction of `reservePersonByEmail` on `d`: its outcome and the
      directory after it. `freshId` is the id Firestore generates for a new
      person. */
  function Reserve(d: Directory, email: Arg, firstName: Arg, lastName: Arg, freshId: string): (Result<Reservation>, Directory)
  {
    var req := ParseRequest(email, firstName, lastName);
    if req.Err? then (Err(req.code), d)
    else
      var admitted := Admit(d, req.value.email, req.value.firstName, req.value.lastName, freshId);
      (Ok(admitted.0), admitted.1)
  }

  /** A field that makes `trim` throw fails with `internal`, an address that
      is not valid once normalized with `invalid-argument`; a failed call
      writes nothing. */
  lemma ReserveErrors(d: Directory, email: Arg, firstName: Arg, lastName: Arg, freshId: string)
    ensures var res := Reserve(d, email, firstName, lastName, freshId);
      && (res.0.Err? ==> res.1 == d)
      && (email.Other? && email.truthy ==> res.0 == Err(Internal))
      && (NormalizedArg(email).Ok? && !ServerEmail.IsValidEmail(Some(NormalizedArg(email).value)) ==> res.0 == Err(InvalidArgument))
      && (NormalizedArg(email).Ok? && ServerEmail.IsValidEmail(Some(NormalizedArg(email).value)) ==>
            (res.0.Ok? <==> !(firstName.Other? && firstName.truthy) && !(lastName.Other? && lastName.truthy)))
  {
  }

  /** The admitted person is indexed under `e` and exists; an existing
      person's record is not touched and its link is reported. */
  lemma AdmitIndexes(d: Directory, e: string, first: string, last: string, freshId: string)
    requires freshId !in d.people
    ensures var (r, d') := Admit(d, e, first, last, freshId);
      && r.personId == (if e in d.emailIndex then d.emailIndex[e].personId else freshId)
      && d'.emailIndex == d.emailIndex[e := EmailIndexEntry(r.personId)]
      && r.personId in d'.people
      && (r.personId in d.people ==>
            && d'.people == d.people
            && r.linkedUid == d.people[r.personId].linkedUid
            && (r.status == "registered" <==> d.people[r.personId].linkedUid.Some?))
      && (r.personId !in d.people ==>
            && d'.people == d.people[r.personId := Person(e, first, last, None, "invited")]
            && r == Reservation(r.personId, "invited", None))
  {
  }

  /** On success the normalized address is indexed to the returned person,
      which exists: the person already indexed under it, or a new `invited`
      person with that email and the trimmed names under `freshId`. An
      existing person's record is not touched and its link is reported. */
  lemma ReserveIndexes(d: Directory, email: Arg, firstName: Arg, lastName: Arg, freshId: string)
    requires freshId !in d.people
    ensures var res := Reserve(d, email, firstName, lastName, freshId);
      res.0.Ok? ==>
        && ParseRequest(email, firstName, lastName).Ok?
        && var req, pid := ParseRequest(email, firstName, lastName).value, res.0.value.personId;
        && pid == (if req.email in d.emailIndex then d.emailIndex[req.email].personId else freshId)
        && res.1.emailIndex == d.emailIndex[req.email := EmailIndexEntry(pid)]
        && pid in res.1.people
        && (pid in d.people ==>
              && res.1.people == d.people
              && res.0.value.linkedUid == d.people[pid].linkedUid
              && (res.0.value.status == "registered" <==> d.people[pid].linkedUid.Some?))
        && (pid !in d.people ==>
              && res.1.people == d.people[pid := Person(req.email, req.firstName, req.lastName, None, "invited")]
              && res.0.value == Reservation(pid, "invited", None))
  {
    var req := ParseRequest(email, firstName, lastName);
    if req.Ok? {
      AdmitIndexes(d, req.value.email, req.value.firstName, req.value.lastName, freshId);
    }
  }

  /** Admitting keeps every index entry pointing at a person with that email. */
  lemma AdmitKeepsConsistent(d: Directory, e: string, first: string, last: string, freshId: string)
    requires freshId !in d.people && Consistent(d)
    ensures Consistent(Admit(d, e, first, last, freshId).1)
  {
    var personId := if e in d.emailIndex then d.emailIndex[e].personId else freshId;
    if personId !in d.people {
      NewPersonKeepsConsistent(d.emailIndex, d.people, e, personId, Person(e, first, last, None, "invited"));
    } else {
      var index' := d.emailIndex[e := EmailIndexEntry(personId)];
      assert e in d.emailIndex;
      assert index' == d.emailIndex;
    }
  }

  /** The reservation keeps every index entry pointing at a person with that
      email. */
  lemma ReserveKeepsConsistent(d: Directory, email: Arg, firstName: Arg, lastName: Arg, freshId: string)
    requires freshId !in d.people && Consistent(d)
    ensures Consistent(Reserve(d, email, firstName, lastName, freshId).1)
  {
    var req := ParseRequest(email, firstName, lastName);
    if req.Ok? {
      AdmitKeepsConsistent(d, req.value.email, req.value.firstName, req.value.lastName, freshId);
    }
  }

  /** Admitting the same address again gives the same person and changes
      nothing. */
  lemma AdmitTwice(d: Directory, e: string, first: string, last: string, first2: string, last2: string,
                   freshId: string, freshId2: string)
    requires freshId !in d.people && Consistent(d)
    requires freshId2 !in Admit(d, e, first, last, freshId).1.people
    ensures var a1 := Admit(d, e, first, last, freshId);
      var a2 := Admit(a1.1, e, first2, last2, freshId2);
      a2.0.personId == a1.0.personId && a2.1 == a1.1
  {
    var a1 := Admit(d, e, first, last, freshId);
    AdmitIndexes(d, e, first, last, freshId);
    var pid := a1.0.personId;
    assert e in a1.1.emailIndex && a1.1.emailIndex[e].personId == pid;
    assert pid in a1.1.people;
    assert a1.1.emailIndex[e := EmailIndexEntry(pid)] == a1.1.emailIndex;
  }

  /** Reserving an address twice gives the same person, and the second call
      changes nothing: one email, one person. */
  lemma ReserveTwice(d: Directory, email: Arg, email2: Arg, firstName: Arg, lastName: Arg,
                     firstName2: Arg, lastName2: Arg, freshId: string, freshId2: string)
    requires freshId !in d.people && Consistent(d)
    requires NormalizedArg(email).Ok? && NormalizedArg(email2) == NormalizedArg(email)
    requires freshId2 !in Reserve(d, email, firstName, lastName, freshId).1.people
    ensures var res1 := Reserve(d, email, firstName, lastName, freshId);
      var res2 := Reserve(res1.1, email2, firstName2, lastName2, freshId2);
      res1.0.Ok? && res2.0.Ok? ==> res2.0.value.personId == res1.0.value.personId && res2.1 == res1.1
  {
    var res1 := Reserve(d, email, firstName, lastName, freshId);
    var res2 := Reserve(res1.1, email2, firstName2, lastName2, freshId2);
    if res1.0.Ok? && res2.0.Ok? {
      var req1, req2 := ParseRequest(email, firstName, lastName).value, ParseRequest(email2, firstName2, lastName2).value;
      assert req2.email == req1.email;
      AdmitTwice(d, req1.email, req1.firstName, req1.lastName, req2.firstName, req2.lastName, freshId, freshId2);
    }
  }

  /** The Firestore transaction of `reservePersonByEmail` for a validated
      request: reads the index entry and the person, then writes. */
  method RunReservation(db: Database, req: Request, freshId: string) returns (r: Reservation)
    requires freshId !in db.people
    modifies db`people, db`emailIndex
    ensures (r, Directory(db.emailIndex, db.people))
         == Admit(Directory(old(db.emailIndex), old(db.people)), req.email, req.firstName, req.lastName, freshId)
  {
    var e := req.email;
    var personId := if e in db.emailIndex then db.emailIndex[e].personId else freshId;
    if personId !in db.people {
      db.people := db.people[personId := Person(e, req.firstName, req.lastName, None, "invited")];
      r := Reservation(personId, "invited", None);
    } else {
      var person := db.people[personId];
      r := Reservation(personId, if person.linkedUid.Some? then "registered" else "invited", person.linkedUid);
    }
    db.emailIndex := db.emailIndex[e := EmailIndexEntry(personId)];
  }

  /** `reservePersonByEmail`: the checks on the request, then the
      transaction. */
  method ReservePersonByEmail(db: Database, email: Arg, firstName: Arg, lastName: Arg, freshId: string)
    returns (r: Result<Reservation>)
    requires freshId !in db.people
    modifies db`people, db`emailIndex
    ensures (r, Directory(db.emailIndex, db.people))
         == Reserve(Directory(old(db.emailIndex), old(db.people)), email, firstName, lastName, freshId)
  {
    var req := ParseRequest(email, firstName, lastName);
    if req.Err? {
      return Err(req.code);
    }
    var reservation := RunReservation(db, req.value, freshId);
    r := Ok(reservation);
  }

  /** What the account trigger did. */
  datatype LinkOutcome =
    | NoEmail
    | NotReserved
    | PersonMissing
    | Linked(personId: string)

  /** Which person, if any, a new account with `email` is linked to. */
  function LinkTarget(emailIndex: map<string, EmailIndexEntry>, people: map<string, Person>, email: string): (o: LinkOutcome)
    ensures o.Linked? <==> email != "" && ServerEmail.NormalizeEmail(Some(email)) in emailIndex
                           && emailIndex[ServerEmail.NormalizeEmail(Some(email))].personId in people
    ensures o.Linked? ==> o.personId == emailIndex[ServerEmail.NormalizeEmail(Some(email))].personId
  {
    if email == "" then NoEmail
    else
      var e := ServerEmail.NormalizeEmail(Some(email));
      if e !in emailIndex then NotReserved
      else if emailIndex[e].personId !in people then PersonMissing
      else Linked(emailIndex[e].personId)
  }

  /** An account created with the address a reservation was made for is
      linked to the reserved person. */
  lemma ReserveThenLink(d: Directory, address: string, firstName: Arg, lastName: Arg, freshId: string)
    requires freshId !in d.people
    ensures var res := Reserve(d, Text(address), firstName, lastName, freshId);
      res.0.Ok? ==> LinkTarget(res.1.emailIndex, res.1.people, address) == Linked(res.0.value.personId)
  {
    var res := Reserve(d, Text(address), firstName, lastName, freshId);
    if res.0.Ok? {
      ParseRequestValid(Text(address), firstName, lastName);
      ReserveIndexes(d, Text(address), firstName, lastName, freshId);
      var e := ParseRequest(Text(address), firstName, lastName).value.email;
      assert res.1.emailIndex[e].personId == res.0.value.personId;
    }
  }

  /** Applies `claim` to every document that `matches`, as the batched
      `update` of each query result does; the other documents are untouched. */
  method ClaimMatches<T>(m: map<DocPath, T>, matches: T -> bool, claim: T -> T) returns (r: map<DocPath, T>)
    ensures r.Keys == m.Keys
    ensures forall p :: p in m ==> r[p] == if matches(m[p]) then claim(m[p]) else m[p]
  {
    r := m;
    var todo := set p | p in m && matches(m[p]);
    while todo != {}
      invariant todo <= m.Keys
      invariant r.Keys == m.Keys
      invariant forall p :: p in m ==> r[p] == if matches(m[p]) && p !in todo then claim(m[p]) else m[p]
      invariant forall p :: p in todo ==> matches(m[p])
      decreases |todo|
    {
      var p :| p in todo;
      r := r[p := claim(m[p])];
      todo := todo - {p};
    }
  }

  function ClaimStartup(s: Startup, uid: Uid): Startup
  {
    s.(claimedByUid := Some(uid), status := "claimed")
  }

  function ClaimJudge(j: Judge, uid: Uid): Judge
  {
    j.(claimedByUid := Some(uid), status := "claimed")
  }

  /** `linkUserToPerson`: a new account whose email normalizes to an
      indexed address is linked to that person, and every startup and judge
      record reserved for the person is claimed by the account. */
  method LinkUserToPerson(db: Database, uid: Uid, email: string) returns (outcome: LinkOutcome)
    modifies db`people, db`startups, db`judges
    ensures outcome == LinkTarget(old(db.emailIndex), old(db.people), email)
    ensures !outcome.Linked? ==>
      db.people == old(db.people) && db.startups == old(db.startups) && db.judges == old(db.judges)
    ensures outcome.Linked? ==>
      var pid := outcome.personId;
      && db.people == old(db.people)[pid := old(db.people)[pid].(linkedUid := Some(uid), status := "registered")]
      && db.startups.Keys == old(db.startups).Keys
      && (forall p :: p in old(db.startups) ==>
            db.startups[p] == if old(db.startups)[p].personId == Some(pid) then ClaimStartup(old(db.startups)[p], uid) else old(db.startups)[p])
      && db.judges.Keys == old(db.judges).Keys
      && (forall p :: p in old(db.judges) ==>
            db.judges[p] == if old(db.judges)[p].personId == Some(pid) then ClaimJudge(old(db.judges)[p], uid) else old(db.judges)[p])
    ensures IndexConsistent(db.emailIndex, old(db.people)) ==> IndexConsistent(db.emailIndex, db.people)
  {
    if email == "" {
      return NoEmail;
    }
    var e := ServerEmail.NormalizeEmail(Some(email));
    if e !in db.emailIndex {
      return NotReserved;
    }
    var personId := db.emailIndex[e].personId;
    if personId !in db.people {
      return PersonMissing;
    }
    db.people := db.people[personId := db.people[personId].(linkedUid := Some(uid), status := "registered")];
    db.startups := ClaimMatches(db.startups, (s: Startup) => s.personId == Some(personId), (s: Startup) => ClaimStartup(s, uid));
    db.judges := ClaimMatches(db.judges, (j: Judge) => j.personId == Some(personId), (j: Judge) => ClaimJudge(j, uid));
    outcome := Linked(personId);
  }
}
