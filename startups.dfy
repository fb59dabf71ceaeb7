/** The startups of an event (`events/{eventId}/startups`): the callables
    that create, rename and delete them (functions/createStartup.js,
    functions/updateStartup.js, functions/deleteStartup.js), and the
    invariant they keep that no two startups of one event share a
    normalized name. */
module Startups {
  import opened Common
  import opened JsString
  import opened Documents
  import opened Requests

  /** `name.trim().toLowerCase()`: the name duplicates are detected on. */
  function NormalizedName(name: string): (r: string)
  {
    Lower(Trim(name))
  }

  /** A normalized name is lower case and trimmed, and is empty only for a
      blank name. */
  lemma NormalizedNameShape(name: string)
    ensures IsLower(NormalizedName(name)) && Trimmed(NormalizedName(name))
    ensures NormalizedName(name) == "" <==> Trim(name) == ""
  {
    LowerKeepsTrimmed(Trim(name));
  }

  /** `!name || typeof name !== 'string' || name.trim().length === 0`,
      negated: the name is a string with something besides white space. */
  predicate ValidName(name: Arg)
  {
    name.Text? && NonBlank(name.s)
  }

  /** A valid name trims to a non-empty name, and only a valid one does. */
  lemma ValidNameTrim(name: Arg)
    requires name.Text?
    ensures ValidName(name) <==> Trim(name.s) != ""
  {
    NonBlankTrim(name.s);
  }

  /** Some startup of `eventId` has the normalized name `nn` (the
      `where('normalizedName', '==', nn).limit(1)` query is non-empty). */
  predicate NameTaken(startups: map<DocPath, Startup>, eventId: string, nn: string)
  {
    exists p :: p in startups && p.0 == eventId && startups[p].normalizedName == nn
  }

  /** No two startups of the same event share a normalized name. */
  ghost predicate NamesUnique(startups: map<DocPath, Startup>)
  {
    forall p, q :: p in startups && q in startups && p.0 == q.0 && p != q ==>
      startups[p].normalizedName != startups[q].normalizedName
  }

  /** The three optional text fields, trimmed, or the error their trimming
      throws. */
  function OptionalFields(description: Arg, industry: Arg, website: Arg): (r: Result<(string, string, string)>)
    ensures r.Err? <==> description.Other? || industry.Other? || website.Other?
  {
    var d, i, w := OptionalTrim(description), OptionalTrim(industry), OptionalTrim(website);
    if d.Err? || i.Err? || w.Err? then Err(Internal) else Ok((d.value, i.value, w.value))
  }

  /** The checks of `createStartup` once the event is found: the caller
      must be its host and the name unused in it; then the record written. */
  function CheckCreateIn(event: Event, startups: map<DocPath, Startup>, uid: Uid, eventId: string,
                         name: string, description: Arg, industry: Arg, website: Arg): (r: Result<Startup>)
    ensures r.Err? ==> r.code == PermissionDenied || r.code == AlreadyExists || r.code == Internal
  {
    if event.hostUid != uid then Err(PermissionDenied)
    else if NameTaken(startups, eventId, NormalizedName(name)) then Err(AlreadyExists)
    else
      var fields := OptionalFields(description, industry, website);
      if fields.Err? then Err(Internal)
      else Ok(Startup(Trim(name), NormalizedName(name), fields.value.0, fields.value.1, fields.value.2,
                      uid, "host", "active", None, None))
  }

  /** What a successful check inside the event guarantees, and the record
      it makes. */
  lemma CheckCreateInRecord(event: Event, startups: map<DocPath, Startup>, uid: Uid, eventId: string,
                            name: string, description: Arg, industry: Arg, website: Arg)
    ensures var r := CheckCreateIn(event, startups, uid, eventId, name, description, industry, website);
      r.Ok? ==>
        && event.hostUid == uid && !NameTaken(startups, eventId, NormalizedName(name))
        && r.value.name == Trim(name) && r.value.normalizedName == NormalizedName(name)
        && r.value.ownerUid == uid && r.value.ownerRole == "host" && r.value.status == "active"
  {
  }

  /** The checks of `createStartup`, in its order, and the record it then
      writes. */
  function CheckCreate(events: map<string, Event>, startups: map<DocPath, Startup>, auth: Auth,
                       eventId: Arg, name: Arg, description: Arg, industry: Arg, website: Arg): (r: Result<Startup>)
    ensures r.Ok? ==> auth.SignedIn? && ValidId(eventId) && ValidName(name)
  {
    if auth.Anonymous? then Err(Unauthenticated)
    else if !ValidId(eventId) || !ValidName(name) then Err(InvalidArgument)
    else if eventId.s !in events then Err(NotFound)
    else CheckCreateIn(events[eventId.s], startups, auth.uid, eventId.s, name.s, description, industry, website)
  }

  /** `createStartup` on the `events` and `startups` collections: its
      outcome (the new startup's id) and the startups after it. `freshId` is
      the id `add` generates. */
  function Create(events: map<string, Event>, startups: map<DocPath, Startup>, auth: Auth,
                  eventId: Arg, name: Arg, description: Arg, industry: Arg, website: Arg,
                  freshId: string): (r: (Result<string>, map<DocPath, Startup>))
  {
    var checked := CheckCreate(events, startups, auth, eventId, name, description, industry, website);
    if checked.Err? then (Err(checked.code), startups)
    else (Ok(freshId), startups[(eventId.s, freshId) := checked.value])
  }

  /** Adding a startup under a normalized name its event does not use yet
      keeps the names unique. */
  lemma InsertKeepsUnique(startups: map<DocPath, Startup>, p: DocPath, record: Startup)
    requires NamesUnique(startups) && p !in startups
    requires !NameTaken(startups, p.0, record.normalizedName)
    ensures NamesUnique(startups[p := record])
  {
    var startups' := startups[p := record];
    forall q | q in startups && q.0 == p.0
      ensures startups'[q].normalizedName != record.normalizedName
    {
      assert startups'[q] == startups[q];
    }
  }

  /** Rewriting a startup keeps the names unique when its normalized name
      stays the same or is not used by its event yet. */
  lemma RewriteKeepsUnique(startups: map<DocPath, Startup>, p: DocPath, record: Startup)
    requires NamesUnique(startups) && p in startups
    requires record.normalizedName == startups[p].normalizedName || !NameTaken(startups, p.0, record.normalizedName)
    ensures NamesUnique(startups[p := record])
  {
    var startups' := startups[p := record];
    forall q | q in startups && q.0 == p.0 && q != p
      ensures startups'[q].normalizedName != record.normalizedName
    {
      assert startups'[q] == startups[q];
      if record.normalizedName == startups[p].normalizedName {
        assert startups[q].normalizedName != startups[p].normalizedName;
      }
    }
  }

  /** The errors of `createStartup` up to the event lookup, in the order
      it checks them. */
  lemma CreateErrors(events: map<string, Event>, startups: map<DocPath, Startup>, auth: Auth,
                     eventId: Arg, name: Arg, description: Arg, industry: Arg, website: Arg)
    ensures var r := CheckCreate(events, startups, auth, eventId, name, description, industry, website);
      && (auth.Anonymous? <==> r == Err(Unauthenticated))
      && (auth.SignedIn? && (!ValidId(eventId) || !ValidName(name)) <==> r == Err(InvalidArgument))
      && (r == Err(NotFound) <==> auth.SignedIn? && ValidId(eventId) && ValidName(name) && eventId.s !in events)
  {
    var r := CheckCreate(events, startups, auth, eventId, name, description, industry, website);
    if auth.SignedIn? && ValidId(eventId) && ValidName(name) && eventId.s in events {
      assert r == CheckCreateIn(events[eventId.s], startups, auth.uid, eventId.s, name.s, description, industry, website);
    }
  }

  /** The errors of `createStartup` after the event lookup: a caller who
      is not the host, a name already used in the event, and optional fields
      that cannot be trimmed. */
  lemma CreateLaterErrors(events: map<string, Event>, startups: map<DocPath, Startup>, auth: Auth,
                          eventId: Arg, name: Arg, description: Arg, industry: Arg, website: Arg)
    ensures var r := CheckCreate(events, startups, auth, eventId, name, description, industry, website);
      && (r == Err(PermissionDenied) ==> events[eventId.s].hostUid != auth.uid)
      && (r == Err(AlreadyExists) ==> NameTaken(startups, eventId.s, NormalizedName(name.s)))
      && (r == Err(Internal) ==> description.Other? || industry.Other? || website.Other?)
  {
  }

  /** A failed `createStartup` writes nothing. */
  lemma CreateFailsCleanly(events: map<string, Event>, startups: map<DocPath, Startup>, auth: Auth,
                           eventId: Arg, name: Arg, description: Arg, industry: Arg, website: Arg, freshId: string)
    ensures var res := Create(events, startups, auth, eventId, name, description, industry, website, freshId);
      res.0.Err? ==> res.1 == startups && res.0.code == CheckCreate(events, startups, auth, eventId, name, description, industry, website).code
  {
  }

  /** Only the event's host creates a startup, and only under a name no
      startup of the event has yet; the one new record holds the trimmed
      name, its normalized form, the caller as `host` owner and status
      `active`; no other startup changes. */
  lemma CreateInserts(events: map<string, Event>, startups: map<DocPath, Startup>, auth: Auth,
                      eventId: Arg, name: Arg, description: Arg, industry: Arg, website: Arg, freshId: string)
    ensures var res := Create(events, startups, auth, eventId, name, description, industry, website, freshId);
      res.0.Ok? ==>
        && auth.SignedIn? && ValidId(eventId) && ValidName(name)
        && eventId.s in events && events[eventId.s].hostUid == auth.uid
        && !NameTaken(startups, eventId.s, NormalizedName(name.s))
        && var p := (eventId.s, freshId);
        && res.0.value == freshId
        && res.1.Keys == startups.Keys + {p}
        && (forall q :: q in startups && q != p ==> res.1[q] == startups[q])
        && res.1[p].name == Trim(name.s) && res.1[p].name != ""
        && res.1[p].normalizedName == Lower(res.1[p].name)
        && res.1[p].ownerUid == auth.uid && res.1[p].ownerRole == "host"
        && res.1[p].status == "active"
  {
    var res := Create(events, startups, auth, eventId, name, description, industry, website, freshId);
    if res.0.Ok? {
      var checked := CheckCreate(events, startups, auth, eventId, name, description, industry, website);
      assert checked == CheckCreateIn(events[eventId.s], startups, auth.uid, eventId.s, name.s, description, industry, website);
      CheckCreateInRecord(events[eventId.s], startups, auth.uid, eventId.s, name.s, description, industry, website);
      ValidNameTrim(name);
      assert res.1 == startups[(eventId.s, freshId) := checked.value];
    }
  }

  /** Creating a startup keeps the names of each event unique. */
  lemma CreateKeepsUnique(events: map<string, Event>, startups: map<DocPath, Startup>, auth: Auth,
                          eventId: Arg, name: Arg, description: Arg, industry: Arg, website: Arg, freshId: string)
    requires NamesUnique(startups)
    requires eventId.Text? ==> (eventId.s, freshId) !in startups
    ensures NamesUnique(Create(events, startups, auth, eventId, name, description, industry, website, freshId).1)
  {
    var checked := CheckCreate(events, startups, auth, eventId, name, description, industry, website);
    if checked.Ok? {
      var p := (eventId.s, freshId);
      assert checked == CheckCreateIn(events[eventId.s], startups, auth.uid, eventId.s, name.s, description, industry, website);
      CheckCreateInRecord(events[eventId.s], startups, auth.uid, eventId.s, name.s, description, industry, website);
      InsertKeepsUnique(startups, p, checked.value);
      assert Create(events, startups, auth, eventId, name, description, industry, website, freshId).1
          == startups[p := checked.value];
    }
  }

  /** `createStartup`. */
  method CreateStartup(db: Database, auth: Auth, eventId: Arg, name: Arg,
                       description: Arg, industry: Arg, website: Arg, freshId: string)
    returns (r: Result<string>)
    requires eventId.Text? ==> (eventId.s, freshId) !in db.startups
    modifies db`startups
    ensures (r, db.startups)
         == Create(db.events, old(db.startups), auth, eventId, name, description, industry, website, freshId)
  {
    var checked := CheckCreate(db.events, db.startups, auth, eventId, name, description, industry, website);
    if checked.Err? {
      return Err(checked.code);
    }
    db.startups := db.startups[(eventId.s, freshId) := checked.value];
    r := Ok(freshId);
  }

  /** The checks of `updateStartup` once the ids are strings: the startup
      must exist and belong to the caller, and a changed normalized name must
      be unused in the event; then the record written. */
  function CheckUpdateIn(startups: map<DocPath, Startup>, uid: Uid, eventId: string, startupId: string,
                         name: string, description: Arg, industry: Arg, website: Arg): (r: Result<Startup>)
    ensures r.Err? ==> r.code in {NotFound, PermissionDenied, AlreadyExists, Internal}
    ensures r.Ok? ==>
      && (eventId, startupId) in startups
      && var old_ := startups[(eventId, startupId)];
      && old_.ownerUid == uid
      && r.value.name == Trim(name) && r.value.normalizedName == NormalizedName(name)
      && r.value.ownerUid == old_.ownerUid && r.value.ownerRole == old_.ownerRole
      && r.value.status == old_.status && r.value.personId == old_.personId
      && r.value.claimedByUid == old_.claimedByUid
  {
    var p := (eventId, startupId);
    if p !in startups then Err(NotFound)
    else if startups[p].ownerUid != uid then Err(PermissionDenied)
    else
      var nn := NormalizedName(name);
      if nn != startups[p].normalizedName && NameTaken(startups, eventId, nn) then Err(AlreadyExists)
      else
        var fields := OptionalFields(description, industry, website);
        if fields.Err? then Err(Internal)
        else Ok(startups[p].(name := Trim(name), normalizedName := nn, description := fields.value.0,
                             industry := fields.value.1, website := fields.value.2))
  }

  /** The checks of `updateStartup`, in its order, and the record it then
      writes. The ids are tested for truthiness only; a truthy id that is not
      a string makes the document reference throw. */
  function CheckUpdate(startups: map<DocPath, Startup>, auth: Auth, eventId: Arg, startupId: Arg,
                       name: Arg, description: Arg, industry: Arg, website: Arg): (r: Result<Startup>)
    ensures r.Ok? ==> auth.SignedIn? && eventId.Text? && startupId.Text? && ValidName(name)
                      && (eventId.s, startupId.s) in startups
    ensures r.Ok? ==>
      var old_ := startups[(eventId.s, startupId.s)];
      && old_.ownerUid == auth.uid
      && r.value.name == Trim(name.s) && r.value.normalizedName == NormalizedName(name.s)
      && r.value.ownerUid == old_.ownerUid && r.value.ownerRole == old_.ownerRole
      && r.value.status == old_.status && r.value.personId == old_.personId
      && r.value.claimedByUid == old_.claimedByUid
  {
    if auth.Anonymous? then Err(Unauthenticated)
    else if !Truthy(eventId) || !Truthy(startupId) || !ValidName(name) then Err(InvalidArgument)
    else if !eventId.Text? || !startupId.Text? then Err(Internal)
    else CheckUpdateIn(startups, auth.uid, eventId.s, startupId.s, name.s, description, industry, website)
  }

  /** `updateStartup` on the `startups` collection: its outcome (the trimmed
      name it reports) and the startups after it. */
  function Update(startups: map<DocPath, Startup>, auth: Auth, eventId: Arg, startupId: Arg,
                  name: Arg, description: Arg, industry: Arg, website: Arg): (r: (Result<string>, map<DocPath, Startup>))
  {
    var checked := CheckUpdate(startups, auth, eventId, startupId, name, description, industry, website);
    if checked.Err? then (Err(checked.code), startups)
    else (Ok(Trim(name.s)), startups[(eventId.s, startupId.s) := checked.value])
  }

  /** The errors of `updateStartup` before any lookup: no account, then a
      falsy id or a blank name. */
  lemma UpdateErrors(startups: map<DocPath, Startup>, auth: Auth, eventId: Arg, startupId: Arg,
                     name: Arg, description: Arg, industry: Arg, website: Arg)
    ensures var r := CheckUpdate(startups, auth, eventId, startupId, name, description, industry, website);
      && (auth.Anonymous? <==> r == Err(Unauthenticated))
      && (auth.SignedIn? && (!Truthy(eventId) || !Truthy(startupId) || !ValidName(name)) <==> r == Err(InvalidArgument))
  {
  }

  /** A startup that does not exist is `not-found`; one the caller does not
      own is `permission-denied`. */
  lemma UpdateLookupErrors(startups: map<DocPath, Startup>, auth: Auth, eventId: Arg, startupId: Arg,
                           name: Arg, description: Arg, industry: Arg, website: Arg)
    ensures var r := CheckUpdate(startups, auth, eventId, startupId, name, description, industry, website);
      && (r == Err(NotFound) <==>
            auth.SignedIn? && eventId.Text? && startupId.Text? && eventId.s != "" && startupId.s != ""
            && ValidName(name) && (eventId.s, startupId.s) !in startups)
      && (r == Err(PermissionDenied) ==> startups[(eventId.s, startupId.s)].ownerUid != auth.uid)
  {
  }

  /** `CheckUpdateIn` refuses a rename only when another startup of the
      event already holds the new normalized name. */
  lemma UpdateInRenameClash(startups: map<DocPath, Startup>, uid: Uid, eventId: string, startupId: string,
                            name: string, description: Arg, industry: Arg, website: Arg)
    ensures CheckUpdateIn(startups, uid, eventId, startupId, name, description, industry, website) == Err(AlreadyExists) ==>
      exists q :: q in startups && q.0 == eventId && q.1 != startupId
                  && startups[q].normalizedName == NormalizedName(name)
  {
    var r := CheckUpdateIn(startups, uid, eventId, startupId, name, description, industry, website);
    if r == Err(AlreadyExists) {
      var p, nn := (eventId, startupId), NormalizedName(name);
      assert nn != startups[p].normalizedName && NameTaken(startups, eventId, nn);
      var q :| q in startups && q.0 == eventId && startups[q].normalizedName == nn;
      assert q != p;
    }
  }

  /** A rename onto a name another startup of the event holds is refused. */
  lemma UpdateRenameClash(startups: map<DocPath, Startup>, auth: Auth, eventId: Arg, startupId: Arg,
                          name: Arg, description: Arg, industry: Arg, website: Arg)
    ensures CheckUpdate(startups, auth, eventId, startupId, name, description, industry, website) == Err(AlreadyExists) ==>
      && eventId.Text? && startupId.Text?
      && exists q :: q in startups && q.0 == eventId.s && q.1 != startupId.s
                     && startups[q].normalizedName == NormalizedName(name.s)
  {
    var r := CheckUpdate(startups, auth, eventId, startupId, name, description, industry, website);
    if r == Err(AlreadyExists) {
      assert auth.SignedIn? && eventId.Text? && startupId.Text?;
      assert r == CheckUpdateIn(startups, auth.uid, eventId.s, startupId.s, name.s, description, industry, website);
      UpdateInRenameClash(startups, auth.uid, eventId.s, startupId.s, name.s, description, industry, website);
    }
  }

  /** A failed `updateStartup` writes nothing. */
  lemma UpdateFailsCleanly(startups: map<DocPath, Startup>, auth: Auth, eventId: Arg, startupId: Arg,
                           name: Arg, description: Arg, industry: Arg, website: Arg)
    ensures var res := Update(startups, auth, eventId, startupId, name, description, industry, website);
      res.0.Err? ==> res.1 == startups && res.0.code == CheckUpdate(startups, auth, eventId, startupId, name, description, industry, website).code
  {
  }

  /** Only the owner updates a startup, and only its name, normalized name,
      description, industry and website change; every other startup and
      every other field stays as it was. */
  lemma UpdateChangesFields(startups: map<DocPath, Startup>, auth: Auth, eventId: Arg, startupId: Arg,
                            name: Arg, description: Arg, industry: Arg, website: Arg)
    ensures var res := Update(startups, auth, eventId, startupId, name, description, industry, website);
      res.0.Ok? ==>
        && auth.SignedIn? && eventId.Text? && startupId.Text? && ValidName(name)
        && var p := (eventId.s, startupId.s);
        && p in startups && startups[p].ownerUid == auth.uid
        && res.1.Keys == startups.Keys
        && (forall q :: q in startups && q != p ==> res.1[q] == startups[q])
        && res.1[p].name == Trim(name.s) && res.1[p].normalizedName == NormalizedName(name.s)
        && res.1[p].ownerUid == startups[p].ownerUid && res.1[p].ownerRole == startups[p].ownerRole
        && res.1[p].status == startups[p].status && res.1[p].personId == startups[p].personId
        && res.1[p].claimedByUid == startups[p].claimedByUid
  {
    var checked := CheckUpdate(startups, auth, eventId, startupId, name, description, industry, website);
    var res := Update(startups, auth, eventId, startupId, name, description, industry, website);
    if checked.Err? {
      assert res.0.Err?;
    } else {
      var p := (eventId.s, startupId.s);
      assert res.1 == startups[p := checked.value];
      RewriteOnlyOne(startups, p, checked.value);
    }
  }

  /** Writing one existing document leaves the keys and every other
      document as they were. */
  lemma RewriteOnlyOne(startups: map<DocPath, Startup>, p: DocPath, s: Startup)
    requires p in startups
    ensures startups[p := s].Keys == startups.Keys
    ensures forall q :: q in startups && q != p ==> startups[p := s][q] == startups[q]
    ensures startups[p := s][p] == s
  {
  }

  /** Renaming a startup keeps the names of each event unique. */
  lemma UpdateKeepsUnique(startups: map<DocPath, Startup>, auth: Auth, eventId: Arg, startupId: Arg,
                          name: Arg, description: Arg, industry: Arg, website: Arg)
    requires NamesUnique(startups)
    ensures NamesUnique(Update(startups, auth, eventId, startupId, name, description, industry, website).1)
  {
    var checked := CheckUpdate(startups, auth, eventId, startupId, name, description, industry, website);
    if checked.Ok? {
      RewriteKeepsUnique(startups, (eventId.s, startupId.s), checked.value);
    }
  }

  /** `updateStartup`. */
  method UpdateStartup(db: Database, auth: Auth, eventId: Arg, startupId: Arg,
                       name: Arg, description: Arg, industry: Arg, website: Arg)
    returns (r: Result<string>)
    modifies db`startups
    ensures (r, db.startups)
         == Update(old(db.startups), auth, eventId, startupId, name, description, industry, website)
  {
    var checked := CheckUpdate(db.startups, auth, eventId, startupId, name, description, industry, website);
    if checked.Err? {
      return Err(checked.code);
    }
    db.startups := db.startups[(eventId.s, startupId.s) := checked.value];
    r := Ok(Trim(name.s));
  }

  /** `deleteStartup` on the `startups` collection: its outcome (the name
      its message reports, `'Unknown'` for a startup without one) and the
      startups after it. */
  function Delete(startups: map<DocPath, Startup>, auth: Auth, eventId: Arg, startupId: Arg): (r: (Result<string>, map<DocPath, Startup>))
  {
    if auth.Anonymous? then (Err(Unauthenticated), startups)
    else if !ValidId(eventId) || !ValidId(startupId) then (Err(InvalidArgument), startups)
    else
      var p := (eventId.s, startupId.s);
      if p !in startups then (Err(NotFound), startups)
      else if startups[p].ownerUid != auth.uid then (Err(PermissionDenied), startups)
      else (Ok(if startups[p].name == "" then "Unknown" else startups[p].name), startups - {p})
  }

  /** Only the owner deletes a startup; exactly that startup goes and the
      rest stay as they were; a failed call changes nothing. */
  lemma DeleteRemovesOne(startups: map<DocPath, Startup>, auth: Auth, eventId: Arg, startupId: Arg)
    ensures var res := Delete(startups, auth, eventId, startupId);
      && (res.0.Err? ==> res.1 == startups)
      && (res.0 == Err(Unauthenticated) <==> auth.Anonymous?)
      && (res.0 == Err(InvalidArgument) <==> auth.SignedIn? && (!ValidId(eventId) || !ValidId(startupId)))
      && (res.0 == Err(NotFound) <==> auth.SignedIn? && ValidId(eventId) && ValidId(startupId) && (eventId.s, startupId.s) !in startups)
      && (res.0 == Err(PermissionDenied) <==>
            auth.SignedIn? && ValidId(eventId) && ValidId(startupId)
            && (eventId.s, startupId.s) in startups && startups[(eventId.s, startupId.s)].ownerUid != auth.uid)
      && (res.0.Ok? <==>
            auth.SignedIn? && ValidId(eventId) && ValidId(startupId)
            && (eventId.s, startupId.s) in startups && startups[(eventId.s, startupId.s)].ownerUid == auth.uid)
      && (res.0.Ok? ==>
            var p := (eventId.s, startupId.s);
            && res.1.Keys == startups.Keys - {p}
            && (forall q :: q in res.1 ==> res.1[q] == startups[q])
            && res.0.value == (if startups[p].name == "" then "Unknown" else startups[p].name))
  {
  }

  /** Deleting a startup keeps the names of each event unique. */
  lemma DeleteKeepsUnique(startups: map<DocPath, Startup>, auth: Auth, eventId: Arg, startupId: Arg)
    requires NamesUnique(startups)
    ensures NamesUnique(Delete(startups, auth, eventId, startupId).1)
  {
  }

  /** `deleteStartup`. */
  method DeleteStartup(db: Database, auth: Auth, eventId: Arg, startupId: Arg) returns (r: Result<string>)
    modifies db`startups
    ensures (r, db.startups) == Delete(old(db.startups), auth, eventId, startupId)
  {
    if auth.Anonymous? {
      return Err(Unauthenticated);
    }
    if !ValidId(eventId) || !ValidId(startupId) {
      return Err(InvalidArgument);
    }
    var p := (eventId.s, startupId.s);
    if p !in db.startups {
      return Err(NotFound);
    }
    var startupName := if db.startups[p].name == "" then "Unknown" else db.startups[p].name;
    if db.startups[p].ownerUid != auth.uid {
      return Err(PermissionDenied);
    }
    db.startups := db.startups - {p};
    r := Ok(startupName);
  }
}
