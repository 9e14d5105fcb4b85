/**
 * The loop of `main` that copies every chat response into the conversation
 * record and keeps Blizzard's verdict as the decision (main.py:465-482).
 */
module Recorder {
  import opened Common
  import opened Text
  import Agents

  /** A response the group chat yields: `str(response.role)`, its name and content. */
  datatype Response = Response(role: string, name: Option<string>, content: string)

  /** One `{"role", "name", "content"}` record of `conversation_data["conversation"]`. */
  datatype Entry = Entry(role: string, name: Option<string>, content: string)

  /** `conversation_data`: the run's timestamp, the transcript and the decision. */
  datatype ConversationData = ConversationData(timestamp: string, conversation: seq<Entry>, decision: Option<string>)

  const VerdictMarker := "SNOW DAY VERDICT"

  /** A response that sets the decision: Blizzard speaking, with the verdict marker. */
  predicate IsVerdict(r: Response) {
    r.name == Some(Agents.Blizzard) && Contains(r.content, VerdictMarker)
  }

  function EntryOf(r: Response): Entry {
    Entry(r.role, r.name, r.content)
  }

  /**
   * Records the responses in order, one entry each, and leaves as the
   * decision the content of the last verdict among them, or None when no
   * response is a verdict.
   */
  method RecordConversation(timestamp: string, responses: seq<Response>) returns (data: ConversationData)
    ensures data.timestamp == timestamp
    ensures |data.conversation| == |responses|
    ensures forall i :: 0 <= i < |responses| ==> data.conversation[i] == EntryOf(responses[i])
    ensures data.decision.None? <==> forall i :: 0 <= i < |responses| ==> !IsVerdict(responses[i])
    ensures data.decision.Some? ==>
      exists i :: 0 <= i < |responses| && IsVerdict(responses[i]) && data.decision.value == responses[i].content
        && forall j :: i < j < |responses| ==> !IsVerdict(responses[j])
  {
    data := ConversationData(timestamp, [], None);
    ghost var last := -1;
    var n := 0;
    while n < |responses|
      invariant 0 <= n <= |responses|
      invariant data.timestamp == timestamp
      invariant |data.conversation| == n
      invariant forall i :: 0 <= i < n ==> data.conversation[i] == EntryOf(responses[i])
      invariant -1 <= last < n
      invariant last == -1 <==> data.decision.None?
      invariant last == -1 ==> forall i :: 0 <= i < n ==> !IsVerdict(responses[i])
      invariant last >= 0 ==> IsVerdict(responses[last]) && data.decision == Some(responses[last].content)
      invariant forall j :: last < j < n ==> !IsVerdict(responses[j])
    {
      var response := responses[n];
      data := data.(conversation := data.conversation + [EntryOf(response)]);
      if response.name == Some(Agents.Blizzard) && Contains(response.content, VerdictMarker) {
        data := data.(decision := Some(response.content));
        last := n;
      }
      n := n + 1;
    }
  }
}
