/** Watching an event's results (src/composables/useEventResults.js): each
    snapshot of the event document is turned into a status, and once the
    results are ready the result documents are read, keyed by id. */
module EventResults {
  import opened Common
  import opened Documents

  const NotFoundMessage := "Event not found"

  /** What a snapshot shows. */
  datatype View =
    | Loading
    | Failed(message: string)
    | NotEnded
    | Processing
    | Ready(results: map<string, ResultDoc>)

  /** The `status` ref's text for a view. */
  function StatusText(v: View): string
  {
    match v
    case Loading => "loading"
    case Failed(_) => "error"
    case NotEnded => "not_ended"
    case Processing => "processing"
    case Ready(_) => "ready"
  }

  /** The view of event `id` (`""` when there is no id yet), in the order
      the callback checks: existence, status, `resultsReady`, then
      `resultsError`. */
  function Decide(id: string, events: map<string, Event>, results: map<DocPath, ResultDoc>): (v: View)
    ensures v.Loading? <==> id == ""
    ensures v == Failed(NotFoundMessage) <== id != "" && id !in events
    ensures v.NotEnded? <==> id != "" && id in events && events[id].status != "ended"
    ensures v.Processing? <==> id != "" && id in events && events[id].status == "ended" && !events[id].resultsReady
    ensures v.Failed? && id in events ==> v.message == events[id].resultsError && events[id].resultsReady
    ensures v.Ready? <==>
      id != "" && id in events && events[id].status == "ended" && events[id].resultsReady && events[id].resultsError == ""
    ensures v.Ready? ==> forall rid :: rid in v.results <==> (id, rid) in results
    ensures v.Ready? ==> forall rid :: rid in v.results ==> v.results[rid] == results[(id, rid)]
  {
    if id == "" then Loading
    else if id !in events then Failed(NotFoundMessage)
    else
      var event := events[id];
      if event.status != "ended" then NotEnded
      else if !event.resultsReady then Processing
      else if event.resultsError != "" then Failed(event.resultsError)
      else Ready(Children(results, id))
  }

  /** An ended event whose results are not flagged ready stays in
      processing whatever error it records and whatever result documents
      exist: writing result documents alone never makes the view ready. */
  lemma ProcessingUntilFlagged(id: string, events: map<string, Event>, results: map<DocPath, ResultDoc>,
                               results': map<DocPath, ResultDoc>)
    requires id != "" && id in events && events[id].status == "ended" && !events[id].resultsReady
    ensures Decide(id, events, results) == Processing == Decide(id, events, results')
  {
  }

  /** The composable's refs. */
  class ResultsState {
    var status: string
    var results: Option<map<string, ResultDoc>>
    var error: Option<string>

    constructor ()
      ensures status == "loading" && results.None? && error.None?
    {
      status := "loading";
      results := None;
      error := None;
    }

    /** `subscribeToResults` with one snapshot of the event: the status of
      the view; the error ref only on a failure and the results ref only
      when ready, each keeping its old value otherwise. */
    method Refresh(db: Database, id: string)
      modifies this
      ensures var v := Decide(id, db.events, db.results);
        && status == StatusText(v)
        && error == (if v.Failed? then Some(v.message) else old(error))
        && results == (if v.Ready? then Some(v.results) else old(results))
    {
      if id == "" {
        status := "loading";
        return;
      }
      if id !in db.events {
        status := "error";
        error := Some(NotFoundMessage);
        return;
      }
      var event := db.events[id];
      if event.status != "ended" {
        status := "not_ended";
        return;
      }
      if !event.resultsReady {
        status := "processing";
        return;
      }
      if event.resultsError != "" {
        status := "error";
        error := Some(event.resultsError);
        return;
      }
      results := Some(Children(db.results, id));
      status := "ready";
    }
  }
}
