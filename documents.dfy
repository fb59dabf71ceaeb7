/** The Firestore documents the core reads and writes, and the database as a
    set of collections. A document field that may be absent is modelled by
    its falsy value ("" for a string, 0 for a number, false, or an empty
    list), because every read of such a field in the core only tests its
    truthiness; a field whose `null` is written explicitly is an `Option`.
    Server timestamps are not modelled. */
module Documents {
  import opened Common

  /** A sub-collection document address: the parent document's id and the
      document's own id (`events/{parent}/startups/{id}`, ...). */
  type DocPath = (string, string)

  /** An entry of an event's `audienceQuestions` or `judgeQuestions` array. */
  datatype Question = Question(qtype: string, order: Option<int>, text: string)

  /** `events/{eventId}`. A question list that is not an array is `None`. */
  datatype Event = Event(
    name: string,
    description: string,
    location: Option<string>,
    isPublic: bool,
    code: string,
    hostUid: string,
    hostEmail: string,
    status: string,
    startingPremoney: int,
    resultsReady: bool,
    resultsError: string,
    audienceQuestions: Option<seq<Question>>,
    judgeQuestions: Option<seq<Question>>)

  /** `events/{eventId}/startups/{startupId}`. `personId` and `claimedByUid`
      are set by the founder-invite and account-linking flows. */
  datatype Startup = Startup(
    name: string,
    normalizedName: string,
    description: string,
    industry: string,
    website: string,
    ownerUid: string,
    ownerRole: string,
    status: string,
    personId: Option<string>,
    claimedByUid: Option<Uid>)

  /** A document of a `judges` collection. */
  datatype Judge = Judge(personId: Option<string>, claimedByUid: Option<Uid>, status: string)

  /** `people/{personId}`. */
  datatype Person = Person(
    email: string,
    firstName: string,
    lastName: string,
    linkedUid: Option<Uid>,
    status: string)

  /** `emailIndex/{normalizedEmail}`. */
  datatype EmailIndexEntry = EmailIndexEntry(personId: string)

  /** `users/{uid}/eventPremoneyAccounts/{eventId}`. */
  datatype Wallet = Wallet(eventId: string, remaining: int, totalAllocated: int, totalInvested: int)

  /** `events/{eventId}/investors/{uid}`. */
  datatype Investor = Investor(
    userId: string,
    email: Option<string>,
    startingBalance: int,
    currentBalance: int,
    totalInvested: int)

  /** `users/{uid}`. */
  datatype UserProfile = UserProfile(
    joinedEvents: seq<string>,
    premoney: int,
    totalEvents: int,
    completedEvents: seq<string>)

  /** `users/{uid}/hostedEvents/{eventId}`. */
  datatype HostedEvent = HostedEvent(role: string, eventId: string)

  /** `events/{eventId}/investments/{uid}_{startupId}`: the client writes
      `userId`, `eventId`, `startupId` and `investedPM`; the result
      aggregation reads `startupId`, `amount` and `role`. */
  datatype InvestmentDoc = InvestmentDoc(
    userId: string,
    eventId: string,
    startupId: string,
    investedPM: int,
    amount: int,
    role: string)

  /** `events/{eventId}/ratings/{ratingId}`, the fields the aggregation reads. */
  datatype RatingDoc = RatingDoc(startupId: string, rating: int, role: string)

  /** One row of a leaderboard. */
  datatype LeaderboardEntry = LeaderboardEntry(
    rank: nat,
    startupId: string,
    name: string,
    total: int,
    metric: string,
    role: string)

  /** `events/{eventId}/results/{resultId}`. */
  datatype ResultDoc = ResultDoc(
    title: string,
    metric: string,
    role: string,
    leaderboard: seq<LeaderboardEntry>)

  /** The documents of one sub-collection, by id. */
  function Children<T>(m: map<DocPath, T>, parent: string): (c: map<string, T>)
    ensures forall id :: id in c <==> (parent, id) in m
    ensures forall id :: id in c ==> c[id] == m[(parent, id)]
  {
    map id | id in (set p | p in m && p.0 == parent :: p.1) :: m[(parent, id)]
  }

  /** The Firestore database, one map per collection (or collection group). */
  class Database {
    var events: map<string, Event>
    var startups: map<DocPath, Startup>
    var judges: map<DocPath, Judge>
    var results: map<DocPath, ResultDoc>
    var investments: map<DocPath, InvestmentDoc>
    var investors: map<DocPath, Investor>
    var users: map<string, UserProfile>
    var wallets: map<DocPath, Wallet>
    var hostedEvents: map<DocPath, HostedEvent>
    var emailIndex: map<string, EmailIndexEntry>
    var people: map<string, Person>

    constructor ()
      ensures events == map[] && startups == map[] && judges == map[] && results == map[]
      ensures investments == map[] && investors == map[] && users == map[] && wallets == map[]
      ensures hostedEvents == map[] && emailIndex == map[] && people == map[]
    {
      events, startups, judges, results := map[], map[], map[], map[];
      investments, investors, users, wallets := map[], map[], map[], map[];
      hostedEvents, emailIndex, people := map[], map[], map[];
    }
  }
}
