/**
 * The UI's scenario player (`PlaybackStore`): it sends a scenario's messages
 * column by column, columns 1 to 20 in order, all messages of a column
 * together, halting at the first column in which any message fails; it can
 * be paused, resumed after the last completed column, and stopped.
 */
module Playback {
  import opened Common
  import opened Seqs
  import opened Model

  /** The last column playback reaches. */
  const LAST_COLUMN: int := 20

  datatype Status = Idle | Playing | Paused | Error

  /**
   * What posting one message to the publish endpoint settled with (api.ts's
   * `PublishResult`); a network failure arrives as a non-ok result with
   * status 0.
   */
  datatype PublishResult = PublishResult(
    ok: bool,
    status: int,
    statusText: string,
    errorBody: Option<string>,
    responseBody: Option<Json>)

  /** The outcome recorded for one message. */
  datatype MessageResult =
    | Succeeded(responseBody: Option<Json>)
    | Failed(statusCode: int, statusText: string, errorBody: Option<string>)

  /** The store's observable state (its `state` getter). */
  datatype PlaybackState = PlaybackState(
    status: Status,
    currentColumn: int,
    completedColumns: int,
    errors: seq<string>,
    messageResults: map<string, MessageResult>)

  /** The state before any run, and after `stop`. */
  const Initial: PlaybackState := PlaybackState(Idle, 0, 0, [], map[])

  /** Which control aborted a run. */
  datatype Signal = PauseSignal | StopSignal

  /** Where a run first sees the abort: after its column's sends settle, or after the pause between columns. */
  datatype Phase = AfterSending | AfterDelay

  /**
   * An abort a run observes: `pause` or `stop` called while column `column`
   * was being sent or while the run waited after it.
   */
  datatype Interrupt = Interrupt(column: int, phase: Phase, signal: Signal)

  /** The responses the network gives, in message order: `respond(col, k)` answers the k-th message of column `col`. */
  type Network = (int, nat) -> PublishResult

  /** The message result recorded for a response. */
  function ResultOf(response: PublishResult): (r: MessageResult)
    ensures r.Succeeded? <==> response.ok
    ensures r.Failed? ==> r.statusCode == response.status
  {
    if response.ok then Succeeded(response.responseBody)
    else Failed(response.status, response.statusText, response.errorBody)
  }

  /** The messages placed in column `col`, in scenario order. */
  function ColumnMessages(messages: seq<ScenarioMessage>, col: int): seq<ScenarioMessage>
  {
    Filter(messages, (m: ScenarioMessage) => m.column == col)
  }

  /** The responses of one column, in message order. */
  function Responses(respond: Network, col: int, count: nat): (r: seq<PublishResult>)
    ensures |r| == count && forall k :: 0 <= k < count ==> r[k] == respond(col, k)
  {
    seq(count, k requires 0 <= k < count => respond(col, k))
  }

  predicate AnyFailed(responses: seq<PublishResult>)
  {
    exists k :: 0 <= k < |responses| && !responses[k].ok
  }

  /** `results` after recording each message's response in turn; a later message with the same id wins. */
  function Record(results: map<string, MessageResult>, msgs: seq<ScenarioMessage>, responses: seq<PublishResult>)
    : (r: map<string, MessageResult>)
    requires |msgs| == |responses|
    decreases |msgs|
  {
    if msgs == [] then results
    else
      var n := |msgs| - 1;
      Record(results, msgs[..n], responses[..n])[msgs[n].id := ResultOf(responses[n])]
  }

  /** Recording a column adds exactly its message ids to the recorded ids. */
  lemma {:induction false} RecordKeys(results: map<string, MessageResult>, msgs: seq<ScenarioMessage>,
                                      responses: seq<PublishResult>)
    requires |msgs| == |responses|
    ensures Record(results, msgs, responses).Keys == results.Keys + set k | 0 <= k < |msgs| :: msgs[k].id
    decreases |msgs|
  {
    if msgs != [] {
      var n := |msgs| - 1;
      RecordKeys(results, msgs[..n], responses[..n]);
      assert (set k | 0 <= k < |msgs| :: msgs[k].id) == (set k | 0 <= k < n :: msgs[..n][k].id) + {msgs[n].id};
    }
  }

  /** Recording never forgets an id. */
  lemma {:induction false} RecordGrows(results: map<string, MessageResult>, msgs: seq<ScenarioMessage>,
                                       responses: seq<PublishResult>)
    requires |msgs| == |responses|
    ensures results.Keys <= Record(results, msgs, responses).Keys
    decreases |msgs|
  {
    if msgs != [] {
      var n := |msgs| - 1;
      RecordGrows(results, msgs[..n], responses[..n]);
    }
  }

  /** The error text of each failed message, in message order. */
  function FailureMessages(msgs: seq<ScenarioMessage>, responses: seq<PublishResult>): (r: seq<string>)
    requires |msgs| == |responses|
    ensures |r| <= |msgs|
    decreases |msgs|
  {
    if msgs == [] then []
    else
      var n := |msgs| - 1;
      var front := FailureMessages(msgs[..n], responses[..n]);
      if responses[n].ok then front else front + ["Failed to send " + msgs[n].payload.className]
  }

  /** The positions of the failed sends, in increasing order, each failed position exactly once. */
  function FailedPositions(responses: seq<PublishResult>): (idx: seq<int>)
    ensures forall i :: 0 <= i < |idx| ==> 0 <= idx[i] < |responses| && !responses[idx[i]].ok
    ensures forall i, j :: 0 <= i < j < |idx| ==> idx[i] < idx[j]
    ensures forall k :: 0 <= k < |responses| && !responses[k].ok ==> k in idx
    decreases |responses|
  {
    if responses == [] then []
    else
      var n := |responses| - 1;
      var front := FailedPositions(responses[..n]);
      if responses[n].ok then front else front + [n]
  }

  /** There is one error per failed send, in the order of the sends. */
  lemma {:induction false} FailureMessagesInOrder(msgs: seq<ScenarioMessage>, responses: seq<PublishResult>)
    requires |msgs| == |responses|
    ensures |FailureMessages(msgs, responses)| == |FailedPositions(responses)|
    ensures forall i :: 0 <= i < |FailedPositions(responses)| ==>
              FailureMessages(msgs, responses)[i] == "Failed to send " + msgs[FailedPositions(responses)[i]].payload.className
    decreases |msgs|
  {
    if msgs != [] {
      var n := |msgs| - 1;
      var front, frontResponses := msgs[..n], responses[..n];
      FailureMessagesInOrder(front, frontResponses);
      var before, idx := FailureMessages(front, frontResponses), FailedPositions(frontResponses);
      var r, all := FailureMessages(msgs, responses), FailedPositions(responses);
      assert r == if responses[n].ok then before else before + ["Failed to send " + msgs[n].payload.className];
      assert all == if responses[n].ok then idx else idx + [n];
      forall i | 0 <= i < |all|
        ensures r[i] == "Failed to send " + msgs[all[i]].payload.className
      {
        if i < |idx| {
          assert r[i] == before[i] && all[i] == idx[i] && front[idx[i]] == msgs[idx[i]];
        }
      }
    }
  }

  /** The positions below n whose send failed. */
  function FailedBelow(responses: seq<PublishResult>, n: int): set<int>
    requires 0 <= n <= |responses|
  {
    set k | 0 <= k < n && !responses[k].ok
  }

  /** The failed positions of a prefix are counted by the failures below its length. */
  lemma {:induction false} FailedPositionsCountBelow(responses: seq<PublishResult>, n: int)
    requires 0 <= n <= |responses|
    ensures |FailedPositions(responses[..n])| == |FailedBelow(responses, n)|
    decreases n
  {
    if n > 0 {
      var m := n - 1;
      FailedPositionsCountBelow(responses, m);
      assert responses[..n][..m] == responses[..m];
      assert FailedPositions(responses[..n])
             == if responses[m].ok then FailedPositions(responses[..m]) else FailedPositions(responses[..m]) + [m];
      if responses[m].ok {
        assert FailedBelow(responses, n) == FailedBelow(responses, m);
      } else {
        assert FailedBelow(responses, n) == FailedBelow(responses, m) + {m};
      }
    }
  }

  /** The failed positions are exactly the positions of the failed sends, so their count is the number of failures. */
  lemma FailedPositionsCount(responses: seq<PublishResult>)
    ensures |FailedPositions(responses)| == |set k | 0 <= k < |responses| && !responses[k].ok|
  {
    FailedPositionsCountBelow(responses, |responses|);
    assert responses[..|responses|] == responses;
  }

  /** The errors number exactly the failed sends. */
  lemma FailureMessagesCount(msgs: seq<ScenarioMessage>, responses: seq<PublishResult>)
    requires |msgs| == |responses|
    ensures |FailureMessages(msgs, responses)| == |set k | 0 <= k < |msgs| && !responses[k].ok|
  {
    FailureMessagesInOrder(msgs, responses);
    FailedPositionsCount(responses);
  }

  /** Recording one more message extends the record of the messages before it. */
  lemma RecordStep(results: map<string, MessageResult>, msgs: seq<ScenarioMessage>, responses: seq<PublishResult>, k: int)
    requires |msgs| == |responses| && 0 <= k < |msgs|
    ensures Record(results, msgs[..k + 1], responses[..k + 1])
            == Record(results, msgs[..k], responses[..k])[msgs[k].id := ResultOf(responses[k])]
  {
    assert msgs[..k + 1][..k] == msgs[..k];
    assert responses[..k + 1][..k] == responses[..k];
  }

  /** One more response has a failure exactly when it failed or an earlier one did. */
  lemma AnyFailedStep(responses: seq<PublishResult>, k: int)
    requires 0 <= k < |responses|
    ensures AnyFailed(responses[..k + 1]) <==> AnyFailed(responses[..k]) || !responses[k].ok
  {
    if AnyFailed(responses[..k + 1]) && responses[k].ok {
      var j :| 0 <= j < k + 1 && !responses[..k + 1][j].ok;
      assert responses[..k][j] == responses[j];
    }
    if !responses[k].ok {
      assert responses[..k + 1][k] == responses[k];
    }
  }

  /** `pause` (effective only while playing) or `stop` (always back to the initial state). */
  function Abort(s: PlaybackState, signal: Signal): PlaybackState
  {
    match signal
    case PauseSignal => if s.status == Playing then s.(status := Paused) else s
    case StopSignal => Initial
  }

  /** Whether `interrupt` fires in column `col` at `phase`. */
  predicate FiresAt(interrupt: Option<Interrupt>, col: int, phase: Phase)
  {
    interrupt.Some? && interrupt.value.column == col && interrupt.value.phase == phase
  }

  /**
   * The state a run reaches from `s` when it starts at column `col`:
   * `executeColumns` as a function of the network's responses and of the
   * abort it observes, if any.
   */
  function RunFrom(s: PlaybackState, messages: seq<ScenarioMessage>, col: int, respond: Network,
                   interrupt: Option<Interrupt>): PlaybackState
    decreases LAST_COLUMN + 1 - col
  {
    if col > LAST_COLUMN then
      if s.status == Playing then s.(status := Idle) else s
    else
      var cm := ColumnMessages(messages, col);
      if cm == [] then RunFrom(s, messages, col + 1, respond, interrupt)
      else if Continues(cm, col, respond, interrupt) then
        RunFrom(Completed(s, cm, col, respond), messages, col + 1, respond, interrupt)
      else Halted(s, cm, col, respond, interrupt)
  }

  /** Whether a run goes on past column `col`, holding `cm`: no abort observed there and every send succeeded. */
  predicate Continues(cm: seq<ScenarioMessage>, col: int, respond: Network, interrupt: Option<Interrupt>)
  {
    && !FiresAt(interrupt, col, AfterSending)
    && !AnyFailed(Responses(respond, col, |cm|))
    && !FiresAt(interrupt, col, AfterDelay)
  }

  /** The state after column `col`, holding `cm`, was sent and recorded and counted as completed. */
  function Completed(s: PlaybackState, cm: seq<ScenarioMessage>, col: int, respond: Network): PlaybackState
  {
    s.(currentColumn := col, messageResults := Record(s.messageResults, cm, Responses(respond, col, |cm|)),
       completedColumns := col)
  }

  /** The state a run ends in when it does not go on past column `col`: aborted after sending, failed, or aborted after the delay. */
  function Halted(s: PlaybackState, cm: seq<ScenarioMessage>, col: int, respond: Network, interrupt: Option<Interrupt>)
    : PlaybackState
    requires !Continues(cm, col, respond, interrupt)
  {
    var sent := s.(currentColumn := col);
    if FiresAt(interrupt, col, AfterSending) then Abort(sent, interrupt.value.signal)
    else
      var responses := Responses(respond, col, |cm|);
      var recorded := sent.(messageResults := Record(s.messageResults, cm, responses));
      if AnyFailed(responses) then recorded.(status := Error, errors := FailureMessages(cm, responses))
      else Abort(recorded.(completedColumns := col), interrupt.value.signal)
  }

  /** Column `col` has messages and every one of them was sent successfully. */
  predicate ColumnSucceeded(messages: seq<ScenarioMessage>, col: int, respond: Network)
  {
    var cm := ColumnMessages(messages, col);
    cm != [] && !AnyFailed(Responses(respond, col, |cm|))
  }

  /** The interrupt, if any, is a pause. */
  predicate NoStop(interrupt: Option<Interrupt>)
  {
    interrupt.None? || interrupt.value.signal == PauseSignal
  }

  /** Each message's entry holds the response of the last message with its id. */
  lemma {:induction false} RecordLatest(results: map<string, MessageResult>, msgs: seq<ScenarioMessage>,
                                        responses: seq<PublishResult>, k: int)
    requires |msgs| == |responses| && 0 <= k < |msgs|
    requires forall j :: k < j < |msgs| ==> msgs[j].id != msgs[k].id
    ensures msgs[k].id in Record(results, msgs, responses)
            && Record(results, msgs, responses)[msgs[k].id] == ResultOf(responses[k])
    decreases |msgs|
  {
    var n := |msgs| - 1;
    if k < n {
      var front, frontResponses := msgs[..n], responses[..n];
      assert msgs[n].id != msgs[k].id;
      assert front[k] == msgs[k] && frontResponses[k] == responses[k];
      forall j | k < j < n
        ensures front[j].id != front[k].id
      {
        assert front[j] == msgs[j];
      }
      RecordLatest(results, front, frontResponses, k);
    }
  }

  /** Entries of ids the column does not hold are left as they were. */
  lemma {:induction false} RecordUntouched(results: map<string, MessageResult>, msgs: seq<ScenarioMessage>,
                                           responses: seq<PublishResult>, id: string)
    requires |msgs| == |responses| && id in results
    requires forall j :: 0 <= j < |msgs| ==> msgs[j].id != id
    ensures id in Record(results, msgs, responses) && Record(results, msgs, responses)[id] == results[id]
    decreases |msgs|
  {
    if msgs != [] {
      var n := |msgs| - 1;
      var front := msgs[..n];
      forall j | 0 <= j < n
        ensures front[j].id != id
      {
        assert front[j] == msgs[j];
      }
      RecordUntouched(results, front, responses[..n], id);
    }
  }

  /** The errors name exactly the failed messages' classes, and there is one whenever any message failed. */
  lemma FailureMessagesMembers(msgs: seq<ScenarioMessage>, responses: seq<PublishResult>)
    requires |msgs| == |responses|
    ensures forall i :: 0 <= i < |FailureMessages(msgs, responses)| ==>
              exists k :: 0 <= k < |msgs| && !responses[k].ok &&
                          FailureMessages(msgs, responses)[i] == "Failed to send " + msgs[k].payload.className
    ensures forall k :: 0 <= k < |msgs| && !responses[k].ok ==>
              "Failed to send " + msgs[k].payload.className in FailureMessages(msgs, responses)
    ensures FailureMessages(msgs, responses) != [] <==> AnyFailed(responses)
  {
    FailureMessagesSound(msgs, responses);
    FailureMessagesComplete(msgs, responses);
    if AnyFailed(responses) {
      var k :| 0 <= k < |responses| && !responses[k].ok;
      assert "Failed to send " + msgs[k].payload.className in FailureMessages(msgs, responses);
    }
  }

  /** Every error names a message that failed. */
  lemma {:induction false} FailureMessagesSound(msgs: seq<ScenarioMessage>, responses: seq<PublishResult>)
    requires |msgs| == |responses|
    ensures forall i :: 0 <= i < |FailureMessages(msgs, responses)| ==>
              exists k :: 0 <= k < |msgs| && !responses[k].ok &&
                          FailureMessages(msgs, responses)[i] == "Failed to send " + msgs[k].payload.className
    decreases |msgs|
  {
    if msgs == [] {
      assert FailureMessages(msgs, responses) == [];
    } else {
      var n := |msgs| - 1;
      var front, frontResponses := msgs[..n], responses[..n];
      FailureMessagesSound(front, frontResponses);
      var r := FailureMessages(msgs, responses);
      var before := FailureMessages(front, frontResponses);
      forall i | 0 <= i < |r|
        ensures exists k :: 0 <= k < |msgs| && !responses[k].ok && r[i] == "Failed to send " + msgs[k].payload.className
      {
        if i < |before| {
          assert r[i] == before[i];
          var k :| 0 <= k < n && !frontResponses[k].ok && before[i] == "Failed to send " + front[k].payload.className;
          assert front[k] == msgs[k] && frontResponses[k] == responses[k];
        } else {
          assert !responses[n].ok && r[i] == "Failed to send " + msgs[n].payload.className;
        }
      }
    }
  }

  /** Every failed message is named, so there are errors exactly when some message failed. */
  lemma {:induction false} FailureMessagesComplete(msgs: seq<ScenarioMessage>, responses: seq<PublishResult>)
    requires |msgs| == |responses|
    ensures forall k :: 0 <= k < |msgs| && !responses[k].ok ==>
              "Failed to send " + msgs[k].payload.className in FailureMessages(msgs, responses)
    ensures FailureMessages(msgs, responses) != [] ==> AnyFailed(responses)
    decreases |msgs|
  {
    if msgs == [] {
      assert FailureMessages(msgs, responses) == [];
    } else {
      var n := |msgs| - 1;
      var front, frontResponses := msgs[..n], responses[..n];
      FailureMessagesComplete(front, frontResponses);
      assert forall j :: 0 <= j < n ==> front[j] == msgs[j] && frontResponses[j] == responses[j];
      if FailureMessages(msgs, responses) != [] && responses[n].ok {
        var j :| 0 <= j < n && !frontResponses[j].ok;
        assert !responses[j].ok;
      }
    }
  }

  /**
   * How a playing run halts in a column: never still playing, paused only
   * by a pause, and in error only through failed sends, whose errors it
   * reports, with a result for every message of the column, and without
   * counting the column as completed.
   */
  lemma HaltedStatus(s: PlaybackState, cm: seq<ScenarioMessage>, col: int, respond: Network, interrupt: Option<Interrupt>)
    requires s.status == Playing && !Continues(cm, col, respond, interrupt)
    ensures var h := Halted(s, cm, col, respond, interrupt);
            var responses := Responses(respond, col, |cm|);
            && h.status != Playing
            && (h.status == Paused ==> interrupt.Some? && interrupt.value.signal == PauseSignal)
            && (h.status == Error ==>
                  && h.currentColumn == col && AnyFailed(responses)
                  && h.errors == FailureMessages(cm, responses) && h.completedColumns == s.completedColumns
                  && forall k :: 0 <= k < |cm| ==> cm[k].id in h.messageResults)
  {
    RecordKeys(s.messageResults, cm, Responses(respond, col, |cm|));
  }

  /**
   * Without a stop, a halted column is the current one, keeps the earlier
   * results, and is counted as completed only when all of it succeeded.
   */
  lemma HaltedProgress(s: PlaybackState, cm: seq<ScenarioMessage>, col: int, respond: Network, interrupt: Option<Interrupt>)
    requires NoStop(interrupt) && !Continues(cm, col, respond, interrupt)
    ensures var h := Halted(s, cm, col, respond, interrupt);
            && h.currentColumn == col
            && s.messageResults.Keys <= h.messageResults.Keys
            && (h.completedColumns == s.completedColumns ||
                (h.completedColumns == col && !AnyFailed(Responses(respond, col, |cm|))))
  {
    RecordGrows(s.messageResults, cm, Responses(respond, col, |cm|));
  }

  /**
   * A run that ends in error stopped at a column with messages, some of
   * which failed; its errors are that column's failures; every earlier
   * column with messages succeeded; and the failing column was not counted
   * as completed.
   */
  lemma {:induction false} RunErrorHalts(s: PlaybackState, messages: seq<ScenarioMessage>, col: int, respond: Network,
                                         interrupt: Option<Interrupt>)
    requires s.status == Playing && s.completedColumns < col
    ensures var r := RunFrom(s, messages, col, respond, interrupt);
            r.status == Error ==>
              && col <= r.currentColumn <= LAST_COLUMN
              && var cm := ColumnMessages(messages, r.currentColumn);
              && cm != [] && AnyFailed(Responses(respond, r.currentColumn, |cm|))
              && r.errors == FailureMessages(cm, Responses(respond, r.currentColumn, |cm|))
              && r.completedColumns < r.currentColumn
              && forall c :: col <= c < r.currentColumn && ColumnMessages(messages, c) != [] ==>
                   ColumnSucceeded(messages, c, respond)
    decreases LAST_COLUMN + 1 - col
  {
    if col <= LAST_COLUMN {
      var cm := ColumnMessages(messages, col);
      var r := RunFrom(s, messages, col, respond, interrupt);
      if cm == [] {
        RunErrorHalts(s, messages, col + 1, respond, interrupt);
      } else if Continues(cm, col, respond, interrupt) {
        var completed := Completed(s, cm, col, respond);
        assert r == RunFrom(completed, messages, col + 1, respond, interrupt);
        assert ColumnSucceeded(messages, col, respond);
        RunErrorHalts(completed, messages, col + 1, respond, interrupt);
      } else {
        assert r == Halted(s, cm, col, respond, interrupt);
        HaltedStatus(s, cm, col, respond, interrupt);
      }
    }
  }


  /** Every message of the state's current column has a recorded result. */
  predicate ColumnFullyRecorded(r: PlaybackState, messages: seq<ScenarioMessage>)
  {
    var cm := ColumnMessages(messages, r.currentColumn);
    forall k :: 0 <= k < |cm| ==> cm[k].id in r.messageResults
  }

  /** A run that ends in error has recorded a result for every message of the failing column. */
  lemma {:induction false} RunErrorRecordsColumn(s: PlaybackState, messages: seq<ScenarioMessage>, col: int,
                                                 respond: Network, interrupt: Option<Interrupt>)
    requires s.status == Playing
    ensures var r := RunFrom(s, messages, col, respond, interrupt);
            r.status == Error ==> ColumnFullyRecorded(r, messages)
    decreases LAST_COLUMN + 1 - col
  {
    if col <= LAST_COLUMN {
      var cm := ColumnMessages(messages, col);
      var r := RunFrom(s, messages, col, respond, interrupt);
      if cm == [] {
        assert r == RunFrom(s, messages, col + 1, respond, interrupt);
        RunErrorRecordsColumn(s, messages, col + 1, respond, interrupt);
      } else if Continues(cm, col, respond, interrupt) {
        var completed := Completed(s, cm, col, respond);
        assert r == RunFrom(completed, messages, col + 1, respond, interrupt);
        RunErrorRecordsColumn(completed, messages, col + 1, respond, interrupt);
      } else {
        assert r == Halted(s, cm, col, respond, interrupt);
        HaltedStatus(s, cm, col, respond, interrupt);
        assert r.status == Error ==> r.currentColumn == col && ColumnFullyRecorded(r, messages);
      }
    }
  }

  /**
   * Without a stop, progress never goes back, and it only ever advances to
   * a column whose messages all succeeded.
   */
  lemma {:induction false} RunCompletedColumns(s: PlaybackState, messages: seq<ScenarioMessage>, col: int, respond: Network,
                                               interrupt: Option<Interrupt>)
    requires NoStop(interrupt) && s.completedColumns < col
    ensures var r := RunFrom(s, messages, col, respond, interrupt);
            && r.completedColumns >= s.completedColumns
            && (r.completedColumns == s.completedColumns ||
                (col <= r.completedColumns <= LAST_COLUMN && ColumnSucceeded(messages, r.completedColumns, respond)))
    decreases LAST_COLUMN + 1 - col
  {
    if col <= LAST_COLUMN {
      var cm := ColumnMessages(messages, col);
      var r := RunFrom(s, messages, col, respond, interrupt);
      if cm == [] {
        RunCompletedColumns(s, messages, col + 1, respond, interrupt);
      } else if Continues(cm, col, respond, interrupt) {
        var completed := Completed(s, cm, col, respond);
        assert r == RunFrom(completed, messages, col + 1, respond, interrupt);
        RunCompletedColumns(completed, messages, col + 1, respond, interrupt);
      } else {
        assert r == Halted(s, cm, col, respond, interrupt);
        HaltedProgress(s, cm, col, respond, interrupt);
      }
    }
  }


  /** Without a stop, the results recorded before the run are kept (possibly overwritten). */
  lemma {:induction false} RunKeepsResults(s: PlaybackState, messages: seq<ScenarioMessage>, col: int, respond: Network,
                                           interrupt: Option<Interrupt>)
    requires NoStop(interrupt)
    ensures s.messageResults.Keys <= RunFrom(s, messages, col, respond, interrupt).messageResults.Keys
    decreases LAST_COLUMN + 1 - col
  {
    if col <= LAST_COLUMN {
      var cm := ColumnMessages(messages, col);
      var r := RunFrom(s, messages, col, respond, interrupt);
      if cm == [] {
        RunKeepsResults(s, messages, col + 1, respond, interrupt);
      } else if Continues(cm, col, respond, interrupt) {
        var completed := Completed(s, cm, col, respond);
        assert r == RunFrom(completed, messages, col + 1, respond, interrupt);
        RecordGrows(s.messageResults, cm, Responses(respond, col, |cm|));
        RunKeepsResults(completed, messages, col + 1, respond, interrupt);
      } else {
        assert r == Halted(s, cm, col, respond, interrupt);
        HaltedProgress(s, cm, col, respond, interrupt);
      }
    }
  }

  /**
   * Without a stop, the current column is either unchanged or a column with
   * messages that the run reached: empty columns never become current.
   */
  lemma {:induction false} RunCurrentColumn(s: PlaybackState, messages: seq<ScenarioMessage>, col: int, respond: Network,
                                            interrupt: Option<Interrupt>)
    requires NoStop(interrupt)
    ensures var r := RunFrom(s, messages, col, respond, interrupt);
            || r.currentColumn == s.currentColumn
            || (col <= r.currentColumn <= LAST_COLUMN && ColumnMessages(messages, r.currentColumn) != [])
    decreases LAST_COLUMN + 1 - col
  {
    if col <= LAST_COLUMN {
      var cm := ColumnMessages(messages, col);
      var r := RunFrom(s, messages, col, respond, interrupt);
      if cm == [] {
        RunCurrentColumn(s, messages, col + 1, respond, interrupt);
      } else if Continues(cm, col, respond, interrupt) {
        var completed := Completed(s, cm, col, respond);
        assert r == RunFrom(completed, messages, col + 1, respond, interrupt);
        RunCurrentColumn(completed, messages, col + 1, respond, interrupt);
      } else {
        assert r == Halted(s, cm, col, respond, interrupt);
        HaltedProgress(s, cm, col, respond, interrupt);
      }
    }
  }

  /** A run always ends: never still playing, and paused only when a pause was observed. */
  lemma {:induction false} RunEnds(s: PlaybackState, messages: seq<ScenarioMessage>, col: int, respond: Network,
                                   interrupt: Option<Interrupt>)
    requires s.status == Playing
    ensures var r := RunFrom(s, messages, col, respond, interrupt);
            && r.status != Playing
            && (r.status == Paused ==> interrupt.Some? && interrupt.value.signal == PauseSignal)
    decreases LAST_COLUMN + 1 - col
  {
    if col <= LAST_COLUMN {
      var cm := ColumnMessages(messages, col);
      var r := RunFrom(s, messages, col, respond, interrupt);
      if cm == [] {
        RunEnds(s, messages, col + 1, respond, interrupt);
      } else if Continues(cm, col, respond, interrupt) {
        var completed := Completed(s, cm, col, respond);
        assert r == RunFrom(completed, messages, col + 1, respond, interrupt);
        RunEnds(completed, messages, col + 1, respond, interrupt);
      } else {
        assert r == Halted(s, cm, col, respond, interrupt);
        HaltedStatus(s, cm, col, respond, interrupt);
      }
    }
  }


  /**
   * An uninterrupted run in which every message succeeds ends idle with a
   * result for every message placed in a column it covers.
   */
  lemma {:induction false} RunAllSucceed(s: PlaybackState, messages: seq<ScenarioMessage>, col: int, respond: Network)
    requires s.status == Playing
    requires forall c :: col <= c <= LAST_COLUMN ==> !AnyFailed(Responses(respond, c, |ColumnMessages(messages, c)|))
    ensures var r := RunFrom(s, messages, col, respond, None);
            && r.status == Idle
            && forall i :: 0 <= i < |messages| && col <= messages[i].column <= LAST_COLUMN ==> messages[i].id in r.messageResults
    decreases LAST_COLUMN + 1 - col
  {
    if col <= LAST_COLUMN {
      var cm := ColumnMessages(messages, col);
      var r := RunFrom(s, messages, col, respond, None);
      if cm == [] {
        RunAllSucceed(s, messages, col + 1, respond);
        FilterMembers(messages, (m: ScenarioMessage) => m.column == col);
      } else {
        var next := Completed(s, cm, col, respond);
        assert r == RunFrom(next, messages, col + 1, respond, None);
        RunAllSucceed(next, messages, col + 1, respond);
        RunKeepsResults(next, messages, col + 1, respond, None);
        ColumnRecorded(s, messages, col, respond);
      }
    }
  }

  /** Completing a column records a result for every message placed in it. */
  lemma ColumnRecorded(s: PlaybackState, messages: seq<ScenarioMessage>, col: int, respond: Network)
    ensures forall i :: 0 <= i < |messages| && messages[i].column == col ==>
              messages[i].id in Completed(s, ColumnMessages(messages, col), col, respond).messageResults
  {
    var cm := ColumnMessages(messages, col);
    FilterMembers(messages, (m: ScenarioMessage) => m.column == col);
    RecordKeys(s.messageResults, cm, Responses(respond, col, |cm|));
    forall i | 0 <= i < |messages| && messages[i].column == col
      ensures messages[i].id in Completed(s, cm, col, respond).messageResults
    {
      var k :| 0 <= k < |cm| && cm[k] == messages[i];
    }
  }

  class PlaybackStore {
    var status: Status
    var currentColumn: int
    var completedColumns: int
    var errors: seq<string>
    var messageResults: map<string, MessageResult>

    /** The `state` getter. */
    function State(): PlaybackState
      reads this
    {
      PlaybackState(status, currentColumn, completedColumns, errors, messageResults)
    }

    constructor()
      ensures State() == Initial
    {
      status := Idle;
      currentColumn := 0;
      completedColumns := 0;
      errors := [];
      messageResults := map[];
    }

    /**
     * `play`: ignored while playing; resumes when paused; otherwise clears
     * the counters, errors and results and runs from column 1.
     */
    method Play(messages: seq<ScenarioMessage>, respond: Network, interrupt: Option<Interrupt>)
      modifies this
      ensures old(status) == Playing ==> State() == old(State())
      ensures old(status) == Paused ==>
                State() == RunFrom(old(State()).(status := Playing), messages, old(completedColumns) + 1, respond, interrupt)
      ensures old(status) == Idle || old(status) == Error ==>
                State() == RunFrom(Initial.(status := Playing), messages, 1, respond, interrupt)
    {
      if status == Playing {
        return;
      }
      if status == Paused {
        Resume(messages, respond, interrupt);
        return;
      }
      status := Playing;
      currentColumn := 0;
      completedColumns := 0;
      errors := [];
      messageResults := map[];
      ExecuteColumns(messages, 1, respond, interrupt);
    }

    /** `resume`: playing again from the column after the last completed one, keeping the results so far. */
    method Resume(messages: seq<ScenarioMessage>, respond: Network, interrupt: Option<Interrupt>)
      modifies this
      ensures State() == RunFrom(old(State()).(status := Playing), messages, old(completedColumns) + 1, respond, interrupt)
    {
      status := Playing;
      ExecuteColumns(messages, completedColumns + 1, respond, interrupt);
    }

    /** `pause`: only a playing store pauses; nothing else changes. */
    method Pause()
      modifies this
      ensures old(status) == Playing ==> State() == old(State()).(status := Paused)
      ensures old(status) != Playing ==> State() == old(State())
    {
      if status != Playing {
        return;
      }
      status := Paused;
    }

    /** `stop`: back to idle with no progress, errors or results, from any state. */
    method Stop()
      modifies this
      ensures State() == Initial
    {
      status := Idle;
      currentColumn := 0;
      completedColumns := 0;
      errors := [];
      messageResults := map[];
    }

    /** The control behind an observed abort. */
    method Signalled(signal: Signal)
      modifies this
      ensures State() == Abort(old(State()), signal)
    {
      if signal == PauseSignal {
        Pause();
      } else {
        Stop();
      }
    }

    /** The recording loop of one column: every message's response, in order, and whether any failed. */
    method RecordResults(columnMessages: seq<ScenarioMessage>, results: seq<PublishResult>) returns (hasError: bool)
      requires |columnMessages| == |results|
      modifies this
      ensures State() == old(State()).(messageResults := Record(old(messageResults), columnMessages, results))
      ensures hasError <==> AnyFailed(results)
    {
      hasError := false;
      var k := 0;
      while k < |results|
        invariant 0 <= k <= |results|
        invariant status == old(status) && currentColumn == old(currentColumn)
        invariant completedColumns == old(completedColumns) && errors == old(errors)
        invariant messageResults == Record(old(messageResults), columnMessages[..k], results[..k])
        invariant hasError <==> AnyFailed(results[..k])
      {
        RecordStep(old(messageResults), columnMessages, results, k);
        AnyFailedStep(results, k);
        messageResults := messageResults[columnMessages[k].id := ResultOf(results[k])];
        if !results[k].ok {
          hasError := true;
        }
        k := k + 1;
      }
      assert columnMessages[..k] == columnMessages && results[..k] == results;
    }

    /**
     * One pass of `executeColumns`' loop over column `col`: the run either
     * ends there (`finished`) or completes the column and goes on.
     */
    method SendColumn(messages: seq<ScenarioMessage>, col: int, respond: Network, interrupt: Option<Interrupt>)
      returns (finished: bool)
      modifies this
      ensures var cm := ColumnMessages(messages, col);
              finished <==> !Continues(cm, col, respond, interrupt)
      ensures var cm := ColumnMessages(messages, col);
              && (finished ==> State() == Halted(old(State()), cm, col, respond, interrupt))
              && (!finished ==> State() == Completed(old(State()), cm, col, respond))
    {
      var columnMessages := ColumnMessages(messages, col);
      currentColumn := col;
      if FiresAt(interrupt, col, AfterSending) {
        Signalled(interrupt.value.signal);
        return true;
      }
      var results := Responses(respond, col, |columnMessages|);
      var hasError := RecordResults(columnMessages, results);
      if hasError {
        status := Error;
        errors := FailureMessages(columnMessages, results);
        return true;
      }
      completedColumns := col;
      if FiresAt(interrupt, col, AfterDelay) {
        Signalled(interrupt.value.signal);
        return true;
      }
      return false;
    }

    /** `executeColumns`: the run from `startColumn`, as `RunFrom` describes it. */
    method ExecuteColumns(messages: seq<ScenarioMessage>, startColumn: int, respond: Network, interrupt: Option<Interrupt>)
      modifies this
      ensures State() == RunFrom(old(State()), messages, startColumn, respond, interrupt)
    {
      var col := startColumn;
      while col <= LAST_COLUMN
        invariant RunFrom(State(), messages, col, respond, interrupt) == RunFrom(old(State()), messages, startColumn, respond, interrupt)
        decreases LAST_COLUMN + 1 - col
      {
        if ColumnMessages(messages, col) == [] {
          col := col + 1;
          continue;
        }
        var finished := SendColumn(messages, col, respond, interrupt);
        if finished {
          return;
        }
        col := col + 1;
      }
      if status == Playing {
        status := Idle;
      }
    }
  }
}
