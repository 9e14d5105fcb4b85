/**
 * The agent roster and the two result parsers that turn the selection and
 * termination prompts' replies into decisions (main.py:52-55, 409-419, 441).
 */
module Agents {
  import opened Common
  import opened Text

  const WeatherAgent := "WeatherAgent"
  const SnowResearchLead := "SnowResearchLead"
  const ResearchAssistant := "ResearchAssistant"
  const Blizzard := "Blizzard"

  /** The agents of the group chat, in the order the chat is built with. */
  const Roster: seq<string> := [WeatherAgent, SnowResearchLead, ResearchAssistant, Blizzard]

  /** A message of the chat history; the opening user prompt carries no name. */
  datatype ChatMessage = ChatMessage(name: Option<string>, content: string)

  /** `roster[i]` is the last agent whose upper-cased name is `key`. */
  predicate LastWithUpper(roster: seq<string>, key: string, i: int) {
    0 <= i < |roster| && Upper(roster[i]) == key
    && forall j :: i < j < |roster| ==> Upper(roster[j]) != key
  }

  /** An agent that was the last with its upper-cased name stays so after one more with another name. */
  lemma LastWithUpperExtend(roster: seq<string>, key: string, i: int)
    requires roster != [] && Upper(roster[|roster| - 1]) != key
    requires LastWithUpper(roster[..|roster| - 1], key, i)
    ensures LastWithUpper(roster, key, i) && roster[i] == roster[..|roster| - 1][i]
  {
    var front := roster[..|roster| - 1];
    assert forall j :: i < j < |front| ==> roster[j] == front[j];
  }

  /** `{agent.name.upper(): agent.name for agent in agents}`. */
  function AgentMap(roster: seq<string>): (r: map<string, string>)
    ensures forall k :: k in r ==> r[k] in roster && Upper(r[k]) == k
  {
    if roster == [] then map[]
    else AgentMap(roster[..|roster| - 1])[Upper(roster[|roster| - 1]) := roster[|roster| - 1]]
  }

  /** Every agent's upper-cased name is a key of the agent map. */
  lemma {:induction false} AgentMapKeys(roster: seq<string>)
    ensures forall i :: 0 <= i < |roster| ==> Upper(roster[i]) in AgentMap(roster)
  {
    if roster != [] {
      var front := roster[..|roster| - 1];
      AgentMapKeys(front);
      forall i | 0 <= i < |roster| - 1 ensures Upper(roster[i]) in AgentMap(roster) {
        assert roster[i] == front[i];
      }
    }
  }

  /**
   * Every key of the agent map comes from an agent, and when two names
   * differ only in case the later agent overwrites the earlier one.
   */
  lemma {:induction false} AgentMapValues(roster: seq<string>)
    ensures forall k :: k in AgentMap(roster) ==>
      exists i :: LastWithUpper(roster, k, i) && AgentMap(roster)[k] == roster[i]
  {
    if roster != [] {
      var front := roster[..|roster| - 1];
      var name := roster[|roster| - 1];
      var m := AgentMap(roster);
      AgentMapValues(front);
      assert m == AgentMap(front)[Upper(name) := name];
      forall k | k in m ensures exists i :: LastWithUpper(roster, k, i) && m[k] == roster[i] {
        if k == Upper(name) {
          assert LastWithUpper(roster, k, |roster| - 1);
        } else {
          var i :| LastWithUpper(front, k, i) && AgentMap(front)[k] == front[i];
          LastWithUpperExtend(roster, k, i);
        }
      }
    }
  }

  /**
   * The agent map has the upper-cased name of every agent as a key, and
   * each key maps to the last agent with that upper-cased name.
   */
  lemma AgentMapSpec(roster: seq<string>)
    ensures forall i :: 0 <= i < |roster| ==> Upper(roster[i]) in AgentMap(roster)
    ensures forall k :: k in AgentMap(roster) ==>
      exists i :: LastWithUpper(roster, k, i) && AgentMap(roster)[k] == roster[i]
  {
    AgentMapKeys(roster);
    AgentMapValues(roster);
  }

  /** A reply the selection parser reads as "no new speaker". */
  predicate IsFallbackReply(reply: string) {
    var u := Upper(Strip(reply));
    u == "TERMINATE" || u == "NONE" || u == ""
  }

  /**
   * `selection_parser`: a TERMINATE, NONE or blank reply hands the turn back
   * to the last speaker (None before anyone spoke); otherwise the reply
   * names an agent, compared without case and surrounding whitespace, and
   * an unknown name gives None.
   */
  function SelectionParser(reply: string, roster: seq<string>, history: seq<ChatMessage>): (r: Option<string>)
    ensures IsFallbackReply(reply) ==> r == (if history == [] then None else history[|history| - 1].name)
    ensures !IsFallbackReply(reply) ==>
      (r.Some? <==> exists i :: 0 <= i < |roster| && Upper(roster[i]) == Upper(Strip(reply)))
    ensures !IsFallbackReply(reply) && r.Some? ==>
      exists i :: LastWithUpper(roster, Upper(Strip(reply)), i) && r.value == roster[i]
  {
    var key := Upper(Strip(reply));
    if key == "TERMINATE" || key == "NONE" || key == "" then
      if history == [] then None else history[|history| - 1].name
    else
      var agents := AgentMap(roster);
      AgentMapSpec(roster);
      if key in agents then Some(agents[key]) else None
  }

  /**
   * When every named message of the history comes from the roster, the
   * selection parser only ever names a registered agent, or nobody.
   */
  lemma SelectionIsRegistered(reply: string, roster: seq<string>, history: seq<ChatMessage>)
    requires forall k :: 0 <= k < |history| && history[k].name.Some? ==> history[k].name.value in roster
    ensures SelectionParser(reply, roster, history).None? || SelectionParser(reply, roster, history).value in roster
  {
    var r := SelectionParser(reply, roster, history);
    if r.Some? && !IsFallbackReply(reply) {
      var i :| LastWithUpper(roster, Upper(Strip(reply)), i) && r.value == roster[i];
    }
  }

  lemma RosterLengths()
    ensures |Roster| == 4
    ensures |Roster[0]| == 12 && |Roster[1]| == 16 && |Roster[2]| == 17 && |Roster[3]| == 8
  {
  }

  /** The four names have four different lengths, none of them 9 and all at least 8. */
  lemma RosterLengthsDistinct()
    ensures forall i, j :: 0 <= i < j < |Roster| ==> |Roster[i]| != |Roster[j]|
    ensures forall i :: 0 <= i < |Roster| ==> |Roster[i]| >= 8 && |Roster[i]| != 9
  {
    RosterLengths();
  }

  /**
   * With the real roster, a reply that spells an agent's name in any case,
   * with any surrounding whitespace, selects exactly that agent.
   */
  lemma SelectByName(reply: string, k: nat, history: seq<ChatMessage>)
    requires k < |Roster| && Upper(Strip(reply)) == Upper(Roster[k])
    ensures SelectionParser(reply, Roster, history) == Some(Roster[k])
  {
    RosterLengthsDistinct();
    assert |Upper(Strip(reply))| == |Roster[k]|;
    assert !IsFallbackReply(reply);
    var r := SelectionParser(reply, Roster, history);
    var i :| LastWithUpper(Roster, Upper(Strip(reply)), i) && r.value == Roster[i];
    assert |Upper(Roster[i])| == |Roster[i]|;
    assert |Roster[i]| == |Roster[k]|;
  }

  /**
   * The termination `result_parser`: the reply, upper-cased but not
   * stripped, must be exactly TERMINATE.
   */
  function TerminationParser(reply: string): (done: bool)
    ensures done <==> |reply| == 9 && forall k :: 0 <= k < 9 ==> UpperChar(reply[k]) == "TERMINATE"[k]
  {
    Upper(reply) == "TERMINATE"
  }

  /** Whitespace around TERMINATE defeats the termination parser. */
  lemma TerminationNeedsExactReply(reply: string)
    requires |reply| > 0 && (IsSpace(reply[0]) || IsSpace(reply[|reply| - 1]))
    ensures !TerminationParser(reply)
  {
  }

  /**
   * TERMINATE followed by whitespace (a trailing newline, say) does not end
   * the chat, yet the selection parser, which strips, reads the same reply
   * as "no new speaker".
   */
  lemma PaddedTerminateDisagrees(pad: string)
    requires pad != [] && AllSpace(pad)
    ensures !TerminationParser("TERMINATE" + pad)
    ensures IsFallbackReply("TERMINATE" + pad)
  {
    var t := "TERMINATE";
    assert !IsSpace(t[0]) && !IsSpace(t[|t| - 1]);
    StripPadded(t, pad);
    UpperTerminate();
  }

  lemma UpperTerminate()
    ensures Upper("TERMINATE") == "TERMINATE"
  {
    UpperOfUpperCase("TERMINATE");
  }
}
