/**
 * The in-memory part of `update_history` (main.py:266-302): normalise what
 * the history file held, build the day's prediction record and put it in
 * front of the earlier ones. Reading and writing the file are left out; the
 * file's decoded content is a parameter and the value to write is the result.
 */
module History {
  import opened Common
  import opened Json
  import Recorder

  const Predictions := "predictions"

  /** `{"predictions": [...]}` with the given records. */
  function HistoryOf(records: seq<Json>): Json {
    JDict([(Predictions, JList(records))])
  }

  /** The `"predictions"` value of a history object, if it has one. */
  function PredictionsOf(h: Json): Option<Json> {
    if h.JDict? then Lookup(h.entries, Predictions) else None
  }

  /** The records a well-formed history already holds; anything else holds none. */
  function PriorRecords(stored: Option<Json>): seq<Json> {
    match stored
    case Some(JDict(entries)) =>
      (match Lookup(entries, Predictions)
       case Some(JList(items)) => items
       case _ => [])
    case _ => []
  }

  /** The JSON form of the decision: the verdict text, or `null`. */
  function DecisionJson(decision: Option<string>): Json {
    match decision
    case Some(text) => JStr(text)
    case None => JNull
  }

  /** Reads a field of a record. */
  function Field(record: Json, key: string): Option<Json> {
    if record.JDict? then Lookup(record.entries, key) else None
  }

  /**
   * Adds the run described by `data` to the history.
   *
   * `stored` is what `json.load` gave for the history file, or None when the
   * file was absent, empty or not valid JSON; `today` stands for
   * `datetime.now().strftime("%Y-%m-%d")`. The result is what gets written,
   * or None when building the record raised (an empty conversation has no
   * last entry), in which case nothing is written.
   */
  method UpdateHistory(stored: Option<Json>, today: string, data: Recorder.ConversationData)
    returns (written: Option<Json>)
    ensures written.None? <==> data.conversation == []
    ensures written.Some? ==> PredictionsOf(written.value).Some?
    ensures written.Some? ==>
      var records := PredictionsOf(written.value).value;
      && records.JList?
      && |records.items| == |PriorRecords(stored)| + 1
      && records.items[1..] == PriorRecords(stored)
      && records.items[0] == JDict([
        ("id", JStr(today)),
        ("timestamp", JStr(data.timestamp)),
        ("prediction", DecisionJson(data.decision)),
        ("actual", JNull),
        ("details", JStr(data.conversation[|data.conversation| - 1].content))
      ])
      && Field(records.items[0], "id") == Some(JStr(today))
      && Field(records.items[0], "timestamp") == Some(JStr(data.timestamp))
      && Field(records.items[0], "prediction") == Some(DecisionJson(data.decision))
      && Field(records.items[0], "actual") == Some(JNull)
      && Field(records.items[0], "details") == Some(JStr(data.conversation[|data.conversation| - 1].content))
    // a stored history that was not a dict with a "predictions" key is replaced whole
    ensures written.Some? && !(stored.Some? && HasKey(stored.value, Predictions)) ==>
      written.value.JDict? && |written.value.entries| == 1
    // otherwise every other key keeps its value and its place
    ensures written.Some? && stored.Some? && HasKey(stored.value, Predictions) ==>
      written.value.JDict? && |written.value.entries| == |stored.value.entries|
      && (forall k :: k != Predictions ==> Lookup(written.value.entries, k) == Lookup(stored.value.entries, k))
      && Keys(written.value.entries) == Keys(stored.value.entries)
  {
    var history := HistoryOf([]);
    if stored.Some? {
      history := stored.value;
      if !(history.JDict? && HasKey(history, Predictions)) {
        history := HistoryOf([]);
      }
    }
    if data.conversation == [] {
      // `data["conversation"][-1]` raises IndexError; the handler only logs
      return None;
    }
    var record := JDict([
      ("id", JStr(today)),
      ("timestamp", JStr(data.timestamp)),
      ("prediction", DecisionJson(data.decision)),
      ("actual", JNull),
      ("details", JStr(data.conversation[|data.conversation| - 1].content))
    ]);
    var entries := history.entries;
    var records: seq<Json> := [];
    match Lookup(entries, Predictions) {
      case Some(JList(items)) => records := items;
      case _ =>
        if Lookup(entries, Predictions).Some? {
          StoreKeepsKeys(entries, Predictions, JList([]));
        }
        entries := Store(entries, Predictions, JList([]));
    }
    assert records == PriorRecords(stored);
    if Lookup(entries, Predictions).Some? {
      StoreKeepsKeys(entries, Predictions, JList([record] + records));
    }
    entries := Store(entries, Predictions, JList([record] + records));
    assert PredictionsOf(JDict(entries)) == Some(JList([record] + records));
    assert ([record] + records)[1..] == records;
    written := Some(JDict(entries));
    RecordFields(record.entries);
    assert PredictionsOf(written.value).value.items[0] == record;
  }

  /** Each field of a freshly built record is found under its own key. */
  lemma RecordFields(es: seq<(string, Json)>)
    requires |es| == 5
    requires es[0].0 == "id" && es[1].0 == "timestamp" && es[2].0 == "prediction"
    requires es[3].0 == "actual" && es[4].0 == "details"
    ensures Lookup(es, "id") == Some(es[0].1)
    ensures Lookup(es, "timestamp") == Some(es[1].1)
    ensures Lookup(es, "prediction") == Some(es[2].1)
    ensures Lookup(es, "actual") == Some(es[3].1)
    ensures Lookup(es, "details") == Some(es[4].1)
  {
    var keys := ["id", "timestamp", "prediction", "actual", "details"];
    forall k | 0 <= k < 5 ensures Lookup(es, keys[k]) == Some(es[k].1) {
      LookupFirst(es, keys[k], k);
    }
  }

  lemma {:induction false} LookupFirst(es: seq<(string, Json)>, key: string, k: nat)
    requires k < |es| && es[k].0 == key
    requires forall j :: 0 <= j < k ==> es[j].0 != key
    ensures Lookup(es, key) == Some(es[k].1)
  {
    if k > 0 {
      LookupFirst(es[1..], key, k - 1);
    }
  }

  /**
   * Two runs on the same day are not merged: the history then starts with
   * two records carrying the same id, the later run's first.
   */
  method RerunSameDay(stored: Option<Json>, today: string, first: Recorder.ConversationData, second: Recorder.ConversationData)
    returns (afterFirst: Option<Json>, afterSecond: Option<Json>)
    requires first.conversation != [] && second.conversation != []
    ensures afterFirst.Some? && afterSecond.Some?
    ensures PredictionsOf(afterSecond.value).Some? && PredictionsOf(afterSecond.value).value.JList?
    ensures
      var records := PredictionsOf(afterSecond.value).value.items;
      && |records| == |PriorRecords(stored)| + 2
      && Field(records[0], "id") == Some(JStr(today))
      && Field(records[1], "id") == Some(JStr(today))
      && Field(records[0], "details") == Some(JStr(second.conversation[|second.conversation| - 1].content))
      && Field(records[1], "details") == Some(JStr(first.conversation[|first.conversation| - 1].content))
      && records[2..] == PriorRecords(stored)
  {
    afterFirst := UpdateHistory(stored, today, first);
    afterSecond := UpdateHistory(afterFirst, today, second);
    assert HasKey(afterFirst.value, Predictions);
  }
}
