/**
 * The history page of the negotiation client (negotiate/src/pages/HistoryPage.tsx): it reads
 * the saved negotiation ids from local storage, fetches each negotiation, drops the ones whose
 * fetch failed, and lists the rest with a short topic, a status badge and a link.
 * Local storage and the requests are replaced by their results.
 */
module HistoryPage {
  import opened Wrappers
  import opened Text

  /**
   * A fetched negotiation as the page reads it. `messages` is `None` when the record has no
   * messages field; each message is given by its `text` field, `None` when it has none.
   */
  datatype Record = Record(negotiationId: string, status: string, messages: Option<seq<Option<string>>>)

  const TopicLength: nat := 50
  const NoMessages := "No messages"

  /**
   * `getInitialTopic`: the first message's text, cut to 50 characters plus "..." when longer.
   * `None` when the first message has no `text` (reading its length throws).
   */
  function InitialTopic(messages: Option<seq<Option<string>>>): (r: Option<string>)
    ensures messages.None? || messages.value == [] ==> r == Some(NoMessages)
    ensures messages.Some? && messages.value != [] ==>
      var first := messages.value[0];
      && (first.None? <==> r.None?)
      && (first.Some? ==>
            && |r.value| <= TopicLength + 3
            && (|first.value| <= TopicLength ==> r.value == first.value)
            && (|first.value| > TopicLength ==>
                  |r.value| == TopicLength + 3 && r.value[..TopicLength] == first.value[..TopicLength]
                  && IsSuffix("...", r.value)))
  {
    if messages.None? || |messages.value| == 0 then Some(NoMessages)
    else match messages.value[0]
      case None => None
      case Some(text) =>
        if |text| > TopicLength then
          var topic := text[..TopicLength] + "...";
          assert topic[..TopicLength] == text[..TopicLength];
          Some(topic)
        else Some(text)
  }

  /** `negotiationsData.filter(Boolean)`: the fetches that succeeded, in their order. */
  function Survivors(results: seq<Option<Record>>): (r: seq<Record>)
    ensures |r| <= |results|
    ensures forall x :: x in r ==> Some(x) in results
  {
    if results == [] then []
    else
      var rest := Survivors(results[1..]);
      if results[0].Some? then [results[0].value] + rest else rest
  }

  lemma {:induction false} SurvivorsConcat(a: seq<Option<Record>>, b: seq<Option<Record>>)
    ensures Survivors(a + b) == Survivors(a) + Survivors(b)
    decreases |a|
  {
    if a == [] {
      assert a + b == b;
    } else {
      assert (a + b)[1..] == a[1..] + b;
      SurvivorsConcat(a[1..], b);
    }
  }

  /** When every fetch succeeds, every record is kept, in the order of the saved ids. */
  lemma {:induction false} SurvivorsAllSome(results: seq<Option<Record>>)
    requires forall i :: 0 <= i < |results| ==> results[i].Some?
    ensures |Survivors(results)| == |results|
    ensures forall i :: 0 <= i < |results| ==> Survivors(results)[i] == results[i].value
    decreases |results|
  {
    if results != [] {
      SurvivorsAllSome(results[1..]);
    }
  }

  /** A failed fetch drops exactly its own record. */
  lemma SurvivorsSkipFailure(before: seq<Option<Record>>, after: seq<Option<Record>>)
    ensures Survivors(before + [None] + after) == Survivors(before) + Survivors(after)
  {
    var none: seq<Option<Record>> := [None];
    assert none[1..] == [];
    SurvivorsConcat(before + none, after);
    SurvivorsConcat(before, none);
    assert Survivors(before) + Survivors(none) == Survivors(before);
  }

  const LoadError := "Failed to load negotiation history."

  /** The page's state: the listed negotiations, the loading flag and the error message. */
  class History {
    var negotiations: seq<Record>
    var isLoading: bool
    var error: Option<string>

    constructor ()
      ensures negotiations == [] && isLoading && error == None
    {
      negotiations := [];
      isLoading := true;
      error := None;
    }

    /**
     * The effect's `fetchNegotiations`. `savedIds` is the parsed local-storage entry, `None`
     * when it does not parse; `fetch` gives each id's record, `None` for a failed request.
     * `requested` is the ids for which a request goes out.
     */
    method FetchNegotiations(savedIds: Option<seq<string>>, fetch: string -> Option<Record>)
      returns (requested: seq<string>)
      modifies this
      ensures !isLoading
      ensures savedIds.None? ==> requested == [] && error == Some(LoadError) && negotiations == old(negotiations)
      ensures savedIds.Some? ==> requested == savedIds.value && error == old(error)
      ensures savedIds.Some? ==>
        negotiations == Survivors(seq(|savedIds.value|, i requires 0 <= i < |savedIds.value| => fetch(savedIds.value[i])))
    {
      isLoading := true;
      match savedIds {
        case None =>
          error := Some(LoadError);
          requested := [];
        case Some(ids) =>
          if |ids| == 0 {
            negotiations := [];
            requested := [];
          } else {
            var results := seq(|ids|, i requires 0 <= i < |ids| => fetch(ids[i]));
            negotiations := Survivors(results);
            requested := ids;
          }
      }
      isLoading := false;
    }
  }

  /** Clicking a row: the verdict of a completed negotiation, the negotiation itself otherwise. */
  function RowTarget(r: Record): (path: string)
    ensures r.status == "completed" ==> path == "/verdict/" + r.negotiationId
    ensures r.status != "completed" ==> path == "/negotiation/" + r.negotiationId
  {
    if r.status == "completed" then "/verdict/" + r.negotiationId else "/negotiation/" + r.negotiationId
  }

  function Badge(r: Record): (shown: string)
    ensures shown == "Completed" <==> r.status == "completed"
    ensures shown != "Completed" ==> shown == "In Progress"
  {
    if r.status == "completed" then "Completed" else "In Progress"
  }

  /** The badge and the link make the same test: "Completed" rows lead to the verdict. */
  lemma BadgeMatchesTarget(r: Record)
    ensures Badge(r) == "Completed" <==> IsPrefix("/verdict/", RowTarget(r))
  {
    if r.status != "completed" {
      assert RowTarget(r)[1] != "/verdict/"[1];
    }
  }
}
