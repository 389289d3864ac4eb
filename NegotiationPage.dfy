/**
 * The negotiation page of the negotiation client (negotiate/src/pages/NegotiationPage.tsx):
 * two parties take turns sending messages until the server marks the negotiation completed,
 * when the page moves to the verdict. Fetching and posting are replaced by their results.
 */
module NegotiationPage {
  import opened Wrappers
  import opened Text

  const User1 := "user1"
  const User2 := "user2"

  datatype Message = Message(speaker: string, message: string)

  /** `getNextSpeaker`; `messages` is `None` when the fetched negotiation has none (or is not loaded). */
  function NextSpeaker(messages: Option<seq<Message>>): (r: string)
    ensures r == User1 || r == User2
    ensures r == User2 <==> messages.Some? && |messages.value| > 0 && messages.value[|messages.value| - 1].speaker == User1
  {
    if messages.None? || |messages.value| == 0 then User1
    else if messages.value[|messages.value| - 1].speaker == User1 then User2
    else User1
  }

  /** A message sent as the next speaker hands the turn to the other party. */
  lemma SpeakersAlternate(messages: seq<Message>, text: string)
    ensures var next := NextSpeaker(Some(messages));
      NextSpeaker(Some(messages + [Message(next, text)])) != next
  {
    var next := NextSpeaker(Some(messages));
    var after := messages + [Message(next, text)];
    assert after[|after| - 1].speaker == next;
    KeysDistinct();
  }

  lemma KeysDistinct()
    ensures User1 != User2
  {
    assert User1[4] != User2[4];
  }

  /** `navigate(`/verdict/${negotiationId}`)` */
  function VerdictPath(id: string): string {
    "/verdict/" + id
  }

  /** The message typed in the input and the route the page is at (`None` before any navigation). */
  class NegotiationView {
    const negotiationId: string
    var message: string
    var navigatedTo: Option<string>

    constructor (negotiationId: string)
      ensures this.negotiationId == negotiationId && message == "" && navigatedTo == None
    {
      this.negotiationId := negotiationId;
      message := "";
      navigatedTo := None;
    }

    /** The input's `onChange`. */
    method Type(text: string)
      modifies this
      ensures message == text && navigatedTo == old(navigatedTo)
    {
      message := text;
    }

    /**
     * `handleSendMessage`: the message to post, or nothing when the input is blank after
     * trimming. The post goes out as the next speaker with the untrimmed text.
     */
    method HandleSend(messages: Option<seq<Message>>) returns (post: Option<Message>)
      ensures post.None? <==> JsTrim(message) == []
      ensures post.Some? ==> post.value == Message(NextSpeaker(messages), message)
    {
      if JsTrim(message) == [] {
        post := None;
      } else {
        post := Some(Message(NextSpeaker(messages), message));
      }
    }

    /** The mutation's `onSuccess`: the input is cleared and a completed reply leads to the verdict. */
    method SendSucceeded(replyStatus: string)
      modifies this
      ensures message == ""
      ensures navigatedTo == if replyStatus == "completed" then Some(VerdictPath(negotiationId)) else old(navigatedTo)
    {
      message := "";
      if replyStatus == "completed" {
        navigatedTo := Some(VerdictPath(negotiationId));
      }
    }

    /** The effect that runs whenever a fetched negotiation arrives. */
    method NegotiationFetched(status: Option<string>)
      modifies this
      ensures message == old(message)
      ensures navigatedTo == if status == Some("completed") then Some(VerdictPath(negotiationId)) else old(navigatedTo)
    {
      if status == Some("completed") {
        navigatedTo := Some(VerdictPath(negotiationId));
      }
    }
  }

  /** The status label: "In Progress" exactly for an active negotiation, "Completed" for any other status. */
  function StatusLabel(status: Option<string>): (r: string)
    ensures r == "In Progress" <==> status == Some("active")
    ensures r != "In Progress" ==> r == "Completed"
  {
    if status == Some("active") then "In Progress" else "Completed"
  }

  /** The message input is disabled once the negotiation is completed. */
  predicate InputDisabled(status: Option<string>) {
    status == Some("completed")
  }

  /** The send button is disabled while a post is in flight or once the negotiation is completed. */
  predicate SendDisabled(isSending: bool, status: Option<string>) {
    isSending || status == Some("completed")
  }

  /** A status other than 'active' and 'completed' reads "Completed" yet leaves the input enabled. */
  lemma LabelAndInputDisagree(status: string)
    requires status != "active" && status != "completed"
    ensures StatusLabel(Some(status)) == "Completed" && !InputDisabled(Some(status))
  {
  }

  /** Whenever the input is disabled, so is the send button. */
  lemma DisabledInputDisablesSend(isSending: bool, status: Option<string>)
    ensures InputDisabled(status) ==> SendDisabled(isSending, status)
  {
  }

  /** Each message's heading: "You" for user1, "Opponent" for anyone else. */
  function SpeakerLabel(m: Message): (r: string)
    ensures r == "You" <==> m.speaker == User1
    ensures r != "You" ==> r == "Opponent"
  {
    if m.speaker == User1 then "You" else "Opponent"
  }
}
