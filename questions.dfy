/** Loading an event's rating questions (src/composables/useEventQuestions.js):
    the audience and judge lists, each filtered to rating questions and
    sorted by `order`. */
module EventQuestions {
  import opened Common
  import opened Documents
  import opened StableSort

  const NotFoundMessage := "Event not found"

  /** `q.order ?? 0`. */
  function OrderKey(q: Question): int
  {
    if q.order.Some? then q.order.value else 0
  }

  /** `.filter((q) => q.type === 'rating')`: every rating question, each as
      many times as it occurs, in input order. */
  function RatingsOnly(qs: seq<Question>): (r: seq<Question>)
    ensures forall q :: multiset(r)[q] == (if q.qtype == "rating" then multiset(qs)[q] else 0)
    ensures forall i :: 0 <= i < |r| ==> r[i].qtype == "rating"
  {
    if qs == [] then []
    else
      assert qs == [qs[0]] + qs[1..];
      (if qs[0].qtype == "rating" then [qs[0]] else []) + RatingsOnly(qs[1..])
  }

  /** Filtering by type and selecting one `order` commute. */
  lemma {:induction false} RatingsOnlyWithKey(qs: seq<Question>, v: int)
    ensures WithKey(RatingsOnly(qs), OrderKey, v) == RatingsOnly(WithKey(qs, OrderKey, v))
  {
    if qs != [] {
      RatingsOnlyWithKey(qs[1..], v);
      var head := if qs[0].qtype == "rating" then [qs[0]] else [];
      assert (head + RatingsOnly(qs[1..]))[|head|..] == RatingsOnly(qs[1..]);
      var sel := if OrderKey(qs[0]) == v then [qs[0]] else [];
      assert (sel + WithKey(qs[1..], OrderKey, v))[|sel|..] == WithKey(qs[1..], OrderKey, v);
    }
  }

  /** The list a question field yields: the rating questions sorted by
      `order` (missing counts as 0), or nothing when the field is not an
      array. */
  function RatingQuestions(field: Option<seq<Question>>): (r: seq<Question>)
    ensures field.None? ==> r == []
    ensures forall i :: 0 <= i < |r| ==> r[i].qtype == "rating"
    ensures SortedBy(r, OrderKey)
    ensures field.Some? ==> multiset(r) == multiset(RatingsOnly(field.value))
  {
    if field.None? then [] else Sort(RatingsOnly(field.value), OrderKey)
  }

  /** Exactly the rating questions of the field, each as often as it
      occurs there. */
  lemma RatingQuestionsExact(qs: seq<Question>, q: Question)
    ensures multiset(RatingQuestions(Some(qs)))[q] == (if q.qtype == "rating" then multiset(qs)[q] else 0)
  {
  }

  /** Questions with the same `order` keep their input order: those of
      order `v` in the result are the rating questions of order `v` in the
      field, as the field lists them. */
  lemma RatingQuestionsStable(qs: seq<Question>, v: int)
    ensures WithKey(RatingQuestions(Some(qs)), OrderKey, v) == RatingsOnly(WithKey(qs, OrderKey, v))
  {
    SortIsStable(RatingsOnly(qs), OrderKey, v);
    RatingsOnlyWithKey(qs, v);
  }

  /** The composable's state. */
  class QuestionsState {
    var audienceQuestions: seq<Question>
    var judgeQuestions: seq<Question>
    var isLoading: bool
    var error: Option<string>

    constructor ()
      ensures audienceQuestions == [] && judgeQuestions == [] && !isLoading && error.None?
    {
      audienceQuestions := [];
      judgeQuestions := [];
      isLoading := false;
      error := None;
    }

    /** `fetchQuestions(eventId)`: without an id nothing changes; a missing
      event sets the error and keeps the lists; otherwise both lists are
      replaced. Loading ends false either way. */
    method FetchQuestions(db: Database, eventId: string)
      modifies this
      ensures eventId == "" ==>
        audienceQuestions == old(audienceQuestions) && judgeQuestions == old(judgeQuestions)
        && isLoading == old(isLoading) && error == old(error)
      ensures eventId != "" ==> !isLoading
      ensures eventId != "" && eventId !in db.events ==>
        error == Some(NotFoundMessage)
        && audienceQuestions == old(audienceQuestions) && judgeQuestions == old(judgeQuestions)
      ensures eventId != "" && eventId in db.events ==>
        error.None?
        && audienceQuestions == RatingQuestions(db.events[eventId].audienceQuestions)
        && judgeQuestions == RatingQuestions(db.events[eventId].judgeQuestions)
    {
      if eventId == "" {
        return;
      }
      isLoading := true;
      error := None;
      if eventId !in db.events {
        error := Some(NotFoundMessage);
        isLoading := false;
        return;
      }
      var data := db.events[eventId];
      audienceQuestions := RatingQuestions(data.audienceQuestions);
      judgeQuestions := RatingQuestions(data.judgeQuestions);
      isLoading := false;
    }
  }
}
