/**
 * The UI's scenario editor (`ScenarioStore`): the signed-in user's scenarios,
 * which one is current, which message is selected, and every edit, each of
 * which is saved to the server after the local state has changed.
 */
module Scenarios {
  import opened Common
  import opened Js
  import opened Seqs
  import opened Model

  /** The playback columns a message may be placed in. */
  const MIN_COLUMN: int := 1
  const MAX_COLUMN: int := 20

  /** The rejection of an operation that needs a signed-in user. */
  const NO_USER: Thrown := ErrorObject("No user selected")

  /** `Math.min(20, Math.max(1, column))`: the column actually stored. */
  function Clamp(column: int): (c: int)
    ensures MIN_COLUMN <= c <= MAX_COLUMN
    ensures MIN_COLUMN <= column <= MAX_COLUMN ==> c == column
    ensures column < MIN_COLUMN ==> c == MIN_COLUMN
    ensures column > MAX_COLUMN ==> c == MAX_COLUMN
  {
    if column < MIN_COLUMN then MIN_COLUMN else if column > MAX_COLUMN then MAX_COLUMN else column
  }

  /** A scenario as the server or an import file supplies it: the description may be missing. */
  datatype RawScenario = RawScenario(id: string, name: string, description: Option<string>, messages: seq<ScenarioMessage>)

  /** `description ?? ''` */
  function DescriptionOrEmpty(description: Option<string>): string
  {
    if description.Some? then description.value else ""
  }

  /** The loaded scenarios, each given an empty description when it had none. */
  function Normalized(raw: seq<RawScenario>): (r: seq<Scenario>)
    ensures |r| == |raw|
    ensures forall i :: 0 <= i < |r| ==>
              && r[i].id == raw[i].id && r[i].name == raw[i].name && r[i].messages == raw[i].messages
              && r[i].description == DescriptionOrEmpty(raw[i].description)
  {
    seq(|raw|, i requires 0 <= i < |raw| =>
      Scenario(raw[i].id, raw[i].name, DescriptionOrEmpty(raw[i].description), raw[i].messages))
  }

  /** `scenarios[0]?.id ?? null` */
  function FirstId(scenarios: seq<Scenario>): Option<string>
  {
    if scenarios == [] then None else Some(scenarios[0].id)
  }

  /** An imported scenario's messages: same order, columns and payloads, new ids. */
  function ImportedMessages(messages: seq<ScenarioMessage>, ids: seq<string>): (r: seq<ScenarioMessage>)
    requires |ids| == |messages|
    ensures |r| == |messages|
    ensures forall i :: 0 <= i < |r| ==>
              r[i].id == ids[i] && r[i].column == messages[i].column && r[i].payload == messages[i].payload
  {
    seq(|messages|, i requires 0 <= i < |messages| => ScenarioMessage(ids[i], messages[i].column, messages[i].payload))
  }

  /** `find(s => s.id === id)` */
  function Lookup(scenarios: seq<Scenario>, id: Option<string>): (r: Option<Scenario>)
    ensures r.Some? ==> r.value in scenarios && id == Some(r.value.id)
    ensures r.None? ==> forall i :: 0 <= i < |scenarios| ==> id != Some(scenarios[i].id)
    ensures r.Some? ==> exists i :: 0 <= i < |scenarios| && scenarios[i] == r.value &&
                                    forall j :: 0 <= j < i ==> id != Some(scenarios[j].id)
  {
    Find(scenarios, (s: Scenario) => id == Some(s.id))
  }

  /** The list without any scenario with that id, order kept. */
  function WithoutScenario(scenarios: seq<Scenario>, id: string): (r: seq<Scenario>)
    ensures forall i :: 0 <= i < |r| ==> r[i].id != id && r[i] in scenarios
    ensures forall i :: 0 <= i < |scenarios| && scenarios[i].id != id ==> scenarios[i] in r
  {
    FilterMembers(scenarios, (s: Scenario) => s.id != id);
    Filter(scenarios, (s: Scenario) => s.id != id)
  }

  /** Every scenario with that id replaced by `updated`; the others, the order and the length kept. */
  function ReplaceScenario(scenarios: seq<Scenario>, id: string, updated: Scenario): (r: seq<Scenario>)
    ensures |r| == |scenarios|
    ensures forall i :: 0 <= i < |r| && scenarios[i].id != id ==> r[i] == scenarios[i]
    ensures forall i :: 0 <= i < |r| && scenarios[i].id == id ==> r[i] == updated
  {
    ReplaceWhere(scenarios, (s: Scenario) => s.id == id, updated)
  }

  /** The messages without any message with that id, order kept. */
  function WithoutMessage(messages: seq<ScenarioMessage>, messageId: string): (r: seq<ScenarioMessage>)
    ensures forall i :: 0 <= i < |r| ==> r[i].id != messageId && r[i] in messages
    ensures forall i :: 0 <= i < |messages| && messages[i].id != messageId ==> messages[i] in r
  {
    FilterMembers(messages, (m: ScenarioMessage) => m.id != messageId);
    Filter(messages, (m: ScenarioMessage) => m.id != messageId)
  }

  /** Every message with that id given the new payload, in place. */
  function WithPayload(messages: seq<ScenarioMessage>, messageId: string, payload: PubSubPayload): (r: seq<ScenarioMessage>)
    ensures |r| == |messages|
    ensures forall i :: 0 <= i < |r| ==> r[i].id == messages[i].id && r[i].column == messages[i].column
    ensures forall i :: 0 <= i < |r| ==> r[i].payload == if messages[i].id == messageId then payload else messages[i].payload
  {
    seq(|messages|, i requires 0 <= i < |messages| =>
      if messages[i].id == messageId then messages[i].(payload := payload) else messages[i])
  }

  /** Every message with that id moved to the clamped column, in place. */
  function WithColumn(messages: seq<ScenarioMessage>, messageId: string, column: int): (r: seq<ScenarioMessage>)
    ensures |r| == |messages|
    ensures forall i :: 0 <= i < |r| ==> r[i].id == messages[i].id && r[i].payload == messages[i].payload
    ensures forall i :: 0 <= i < |r| ==> r[i].column == if messages[i].id == messageId then Clamp(column) else messages[i].column
  {
    seq(|messages|, i requires 0 <= i < |messages| =>
      if messages[i].id == messageId then messages[i].(column := Clamp(column)) else messages[i])
  }

  /** Every message of the scenario sits in a playable column. */
  ghost predicate InRange(scenario: Scenario)
  {
    forall j :: 0 <= j < |scenario.messages| ==> MIN_COLUMN <= scenario.messages[j].column <= MAX_COLUMN
  }

  /** Every message of every scenario sits in a playable column. */
  ghost predicate ColumnsInRange(scenarios: seq<Scenario>)
  {
    forall i :: 0 <= i < |scenarios| ==> InRange(scenarios[i])
  }

  /** No two scenarios share an id. */
  ghost predicate UniqueIds(scenarios: seq<Scenario>)
  {
    forall i, j :: 0 <= i < j < |scenarios| ==> scenarios[i].id != scenarios[j].id
  }

  /**
   * With unique ids, renaming (and likewise re-describing) changes exactly
   * that field of exactly that scenario.
   */
  lemma RenameChangesOnlyName(scenarios: seq<Scenario>, id: string, name: string)
    requires UniqueIds(scenarios)
    requires Lookup(scenarios, Some(id)).Some?
    ensures var r := ReplaceScenario(scenarios, id, Lookup(scenarios, Some(id)).value.(name := name));
            forall i :: 0 <= i < |r| ==> r[i] == if scenarios[i].id == id then scenarios[i].(name := name) else scenarios[i]
  {
    var found := Lookup(scenarios, Some(id)).value;
    var k :| 0 <= k < |scenarios| && scenarios[k] == found;
    forall i | 0 <= i < |scenarios| && scenarios[i].id == id
      ensures scenarios[i] == found
    {
      if i != k {
        assert false;
      }
    }
  }

  /** What saving a scenario settles with: it needs a truthy user id, then the server's outcome. */
  function Persisted(userId: Option<string>, server: Outcome<Thrown>): Outcome<Thrown>
  {
    if !Truthy(userId) then Fail(NO_USER) else server
  }

  /** A settled `Promise<string>` built from a save outcome. */
  function Returning(saved: Outcome<Thrown>, value: string): Result<string, Thrown>
  {
    if saved.Fail? then Failure(saved.error) else Success(value)
  }

  class ScenarioStore {
    var scenarios: seq<Scenario>
    var currentScenarioId: Option<string>
    var selectedMessageId: Option<string>
    var isLoading: bool
    var error: Option<string>
    var userId: Option<string>

    constructor()
      ensures scenarios == [] && currentScenarioId == None && selectedMessageId == None
      ensures !isLoading && error == None && userId == None
    {
      scenarios := [];
      currentScenarioId := None;
      selectedMessageId := None;
      isLoading := false;
      error := None;
      userId := None;
    }

    /** The derived `currentScenario`: the first scenario with the current id. */
    function CurrentScenario(): (r: Option<Scenario>)
      reads this
      ensures r.Some? ==> r.value in scenarios && currentScenarioId == Some(r.value.id)
    {
      Lookup(scenarios, currentScenarioId)
    }

    /** The derived `selectedMessage`: the first message of the current scenario with the selected id. */
    function SelectedMessage(): (r: Option<ScenarioMessage>)
      reads this
      ensures r.Some? ==> CurrentScenario().Some? && r.value in CurrentScenario().value.messages
      ensures r.Some? ==> selectedMessageId == Some(r.value.id)
    {
      match CurrentScenario()
      case None => None
      case Some(scenario) =>
        var selected := selectedMessageId;
        Find(scenario.messages, (m: ScenarioMessage) => selected == Some(m.id))
    }

    /**
     * `loadForUser`: switches to the user and replaces the list with theirs,
     * making the first one current; a failed load keeps the list and records
     * why.
     */
    method LoadForUser(user: string, loaded: Result<seq<RawScenario>, Thrown>)
      modifies this
      ensures userId == Some(user) && !isLoading
      ensures loaded.Success? ==>
                && scenarios == Normalized(loaded.value)
                && currentScenarioId == FirstId(scenarios)
                && selectedMessageId == None
                && error == None
      ensures loaded.Failure? ==>
                && scenarios == old(scenarios)
                && currentScenarioId == old(currentScenarioId)
                && selectedMessageId == old(selectedMessageId)
                && error == Some(CaughtMessage(loaded.error, "Failed to load scenarios"))
    {
      userId := Some(user);
      isLoading := true;
      error := None;
      if loaded.Failure? {
        error := Some(CaughtMessage(loaded.error, "Failed to load scenarios"));
      } else {
        scenarios := Normalized(loaded.value);
        currentScenarioId := FirstId(scenarios);
        selectedMessageId := None;
      }
      isLoading := false;
    }

    /** `clearForNoUser`: back to the signed-out state. */
    method ClearForNoUser()
      modifies this
      ensures userId == None && scenarios == [] && currentScenarioId == None && selectedMessageId == None
      ensures !isLoading && error == None
    {
      userId := None;
      scenarios := [];
      currentScenarioId := None;
      selectedMessageId := None;
      isLoading := false;
      error := None;
    }

    /**
     * `importScenario`: appends a copy of `source` under fresh ids (`newId`
     * for the scenario, `messageIds` for its messages), makes it current and
     * saves it; without a user it rejects before changing anything.
     */
    method ImportScenario(source: RawScenario, newId: string, messageIds: seq<string>, server: Outcome<Thrown>)
      returns (r: Result<string, Thrown>)
      requires |messageIds| == |source.messages|
      modifies this
      ensures !Truthy(old(userId)) ==>
                && r == Failure(NO_USER) && scenarios == old(scenarios)
                && currentScenarioId == old(currentScenarioId) && selectedMessageId == old(selectedMessageId)
      ensures Truthy(old(userId)) ==>
                && scenarios == old(scenarios) + [Scenario(newId, source.name, DescriptionOrEmpty(source.description),
                                                           ImportedMessages(source.messages, messageIds))]
                && currentScenarioId == Some(newId) && selectedMessageId == None
                && r == Returning(server, newId)
      ensures userId == old(userId) && isLoading == old(isLoading) && error == old(error)
    {
      if !Truthy(userId) {
        return Failure(NO_USER);
      }
      var scenario := Scenario(newId, source.name, DescriptionOrEmpty(source.description),
                               ImportedMessages(source.messages, messageIds));
      scenarios := scenarios + [scenario];
      currentScenarioId := Some(scenario.id);
      selectedMessageId := None;
      var saved := Persisted(userId, server);
      return Returning(saved, scenario.id);
    }

    /**
     * `createScenario`: appends an empty scenario named `name` under the
     * fresh id `newId`, makes it current and saves it; without a user it
     * rejects before changing anything.
     */
    method CreateScenario(name: string, newId: string, server: Outcome<Thrown>) returns (r: Result<string, Thrown>)
      modifies this
      ensures !Truthy(old(userId)) ==>
                && r == Failure(NO_USER) && scenarios == old(scenarios)
                && currentScenarioId == old(currentScenarioId) && selectedMessageId == old(selectedMessageId)
      ensures Truthy(old(userId)) ==>
                && scenarios == old(scenarios) + [Scenario(newId, name, "", [])]
                && currentScenarioId == Some(newId) && selectedMessageId == None
                && r == Returning(server, newId)
      ensures Truthy(old(userId)) && (forall i :: 0 <= i < |old(scenarios)| ==> old(scenarios)[i].id != newId) ==>
                CurrentScenario() == Some(Scenario(newId, name, "", []))
      ensures userId == old(userId) && isLoading == old(isLoading) && error == old(error)
    {
      if !Truthy(userId) {
        return Failure(NO_USER);
      }
      var scenario := Scenario(newId, name, "", []);
      scenarios := scenarios + [scenario];
      currentScenarioId := Some(scenario.id);
      selectedMessageId := None;
      assert scenarios[|scenarios| - 1] == scenario;
      var saved := Persisted(userId, server);
      return Returning(saved, scenario.id);
    }

    /**
     * `deleteScenario`: without a user, nothing happens; otherwise every
     * scenario with the id goes, and if it was current the first remaining
     * one becomes current and the selection is cleared. The result is the
     * server's.
     */
    method DeleteScenario(id: string, server: Outcome<Thrown>) returns (r: Outcome<Thrown>)
      modifies this
      ensures !Truthy(old(userId)) ==>
                && r == Pass && scenarios == old(scenarios)
                && currentScenarioId == old(currentScenarioId) && selectedMessageId == old(selectedMessageId)
      ensures Truthy(old(userId)) ==> r == server && scenarios == WithoutScenario(old(scenarios), id)
      ensures Truthy(old(userId)) && old(currentScenarioId) == Some(id) ==>
                currentScenarioId == FirstId(scenarios) && currentScenarioId != Some(id) && selectedMessageId == None
      ensures Truthy(old(userId)) && old(currentScenarioId) != Some(id) ==>
                currentScenarioId == old(currentScenarioId) && selectedMessageId == old(selectedMessageId)
      ensures userId == old(userId) && isLoading == old(isLoading) && error == old(error)
    {
      if !Truthy(userId) {
        return Pass;
      }
      scenarios := WithoutScenario(scenarios, id);
      if currentScenarioId == Some(id) {
        currentScenarioId := FirstId(scenarios);
        selectedMessageId := None;
      }
      return server;
    }

    /** `renameScenario`: the first scenario with the id, renamed, replaces every scenario with that id, then is saved. */
    method RenameScenario(id: string, name: string, server: Outcome<Thrown>) returns (r: Outcome<Thrown>)
      modifies this
      ensures Lookup(old(scenarios), Some(id)).None? ==> r == Pass && scenarios == old(scenarios)
      ensures Lookup(old(scenarios), Some(id)).Some? ==>
                && scenarios == ReplaceScenario(old(scenarios), id, Lookup(old(scenarios), Some(id)).value.(name := name))
                && r == Persisted(userId, server)
      ensures ColumnsInRange(old(scenarios)) ==> ColumnsInRange(scenarios)
      ensures currentScenarioId == old(currentScenarioId) && selectedMessageId == old(selectedMessageId)
      ensures userId == old(userId) && isLoading == old(isLoading) && error == old(error)
    {
      var scenario := Lookup(scenarios, Some(id));
      if scenario.None? {
        return Pass;
      }
      var updated := scenario.value.(name := name);
      scenarios := ReplaceScenario(scenarios, id, updated);
      return Persisted(userId, server);
    }

    /** `updateDescription`: as `renameScenario`, for the description. */
    method UpdateDescription(id: string, description: string, server: Outcome<Thrown>) returns (r: Outcome<Thrown>)
      modifies this
      ensures Lookup(old(scenarios), Some(id)).None? ==> r == Pass && scenarios == old(scenarios)
      ensures Lookup(old(scenarios), Some(id)).Some? ==>
                && scenarios == ReplaceScenario(old(scenarios), id, Lookup(old(scenarios), Some(id)).value.(description := description))
                && r == Persisted(userId, server)
      ensures ColumnsInRange(old(scenarios)) ==> ColumnsInRange(scenarios)
      ensures currentScenarioId == old(currentScenarioId) && selectedMessageId == old(selectedMessageId)
      ensures userId == old(userId) && isLoading == old(isLoading) && error == old(error)
    {
      var scenario := Lookup(scenarios, Some(id));
      if scenario.None? {
        return Pass;
      }
      var updated := scenario.value.(description := description);
      scenarios := ReplaceScenario(scenarios, id, updated);
      return Persisted(userId, server);
    }

    /** `selectScenario`: makes the id current, whether or not it exists, and clears the selection. */
    method SelectScenario(id: string)
      modifies this
      ensures currentScenarioId == Some(id) && selectedMessageId == None
      ensures scenarios == old(scenarios) && userId == old(userId) && isLoading == old(isLoading) && error == old(error)
    {
      currentScenarioId := Some(id);
      selectedMessageId := None;
    }

    /** `selectMessage` */
    method SelectMessage(messageId: Option<string>)
      modifies this
      ensures selectedMessageId == messageId
      ensures scenarios == old(scenarios) && currentScenarioId == old(currentScenarioId)
      ensures userId == old(userId) && isLoading == old(isLoading) && error == old(error)
    {
      selectedMessageId := messageId;
    }

    /**
     * `addMessage`: appends a message with the fresh id `newId`, in the
     * clamped column, to the current scenario, selects it and saves; with no
     * current scenario it resolves to '' and changes nothing.
     */
    method AddMessage(payload: PubSubPayload, column: int, newId: string, server: Outcome<Thrown>)
      returns (r: Result<string, Thrown>)
      modifies this
      ensures !Truthy(old(currentScenarioId)) || old(CurrentScenario()).None? ==>
                r == Success("") && scenarios == old(scenarios) && selectedMessageId == old(selectedMessageId)
      ensures Truthy(old(currentScenarioId)) && old(CurrentScenario()).Some? ==>
                var current := old(CurrentScenario()).value;
                && scenarios == ReplaceScenario(old(scenarios), current.id,
                                                current.(messages := current.messages + [ScenarioMessage(newId, Clamp(column), payload)]))
                && selectedMessageId == Some(newId)
                && r == Returning(Persisted(userId, server), newId)
      ensures ColumnsInRange(old(scenarios)) ==> ColumnsInRange(scenarios)
      ensures currentScenarioId == old(currentScenarioId)
      ensures userId == old(userId) && isLoading == old(isLoading) && error == old(error)
    {
      if !Truthy(currentScenarioId) {
        return Success("");
      }
      var message := ScenarioMessage(newId, Clamp(column), payload);
      var scenario := Lookup(scenarios, currentScenarioId);
      if scenario.None? {
        return Success("");
      }
      var updated := scenario.value.(messages := scenario.value.messages + [message]);
      scenarios := ReplaceScenario(scenarios, scenario.value.id, updated);
      selectedMessageId := Some(message.id);
      var saved := Persisted(userId, server);
      return Returning(saved, message.id);
    }

    /**
     * `removeMessage`: drops every message with the id from the current
     * scenario, clears the selection only if it was that message, and saves.
     */
    method RemoveMessage(messageId: string, server: Outcome<Thrown>) returns (r: Outcome<Thrown>)
      modifies this
      ensures !Truthy(old(currentScenarioId)) || old(CurrentScenario()).None? ==>
                r == Pass && scenarios == old(scenarios) && selectedMessageId == old(selectedMessageId)
      ensures Truthy(old(currentScenarioId)) && old(CurrentScenario()).Some? ==>
                var current := old(CurrentScenario()).value;
                && scenarios == ReplaceScenario(old(scenarios), current.id,
                                                current.(messages := WithoutMessage(current.messages, messageId)))
                && selectedMessageId == (if old(selectedMessageId) == Some(messageId) then None else old(selectedMessageId))
                && r == Persisted(userId, server)
      ensures ColumnsInRange(old(scenarios)) ==> ColumnsInRange(scenarios)
      ensures currentScenarioId == old(currentScenarioId)
      ensures userId == old(userId) && isLoading == old(isLoading) && error == old(error)
    {
      if !Truthy(currentScenarioId) {
        return Pass;
      }
      var scenario := Lookup(scenarios, currentScenarioId);
      if scenario.None? {
        return Pass;
      }
      var updated := scenario.value.(messages := WithoutMessage(scenario.value.messages, messageId));
      scenarios := ReplaceScenario(scenarios, scenario.value.id, updated);
      if selectedMessageId == Some(messageId) {
        selectedMessageId := None;
      }
      return Persisted(userId, server);
    }

    /** `updateMessage`: gives every message with the id in the current scenario the new payload, and saves. */
    method UpdateMessage(messageId: string, payload: PubSubPayload, server: Outcome<Thrown>) returns (r: Outcome<Thrown>)
      modifies this
      ensures !Truthy(old(currentScenarioId)) || old(CurrentScenario()).None? ==>
                r == Pass && scenarios == old(scenarios)
      ensures Truthy(old(currentScenarioId)) && old(CurrentScenario()).Some? ==>
                var current := old(CurrentScenario()).value;
                && scenarios == ReplaceScenario(old(scenarios), current.id,
                                                current.(messages := WithPayload(current.messages, messageId, payload)))
                && r == Persisted(userId, server)
      ensures ColumnsInRange(old(scenarios)) ==> ColumnsInRange(scenarios)
      ensures currentScenarioId == old(currentScenarioId) && selectedMessageId == old(selectedMessageId)
      ensures userId == old(userId) && isLoading == old(isLoading) && error == old(error)
    {
      if !Truthy(currentScenarioId) {
        return Pass;
      }
      var scenario := Lookup(scenarios, currentScenarioId);
      if scenario.None? {
        return Pass;
      }
      var updated := scenario.value.(messages := WithPayload(scenario.value.messages, messageId, payload));
      scenarios := ReplaceScenario(scenarios, scenario.value.id, updated);
      return Persisted(userId, server);
    }

    /** `updateColumn`: moves every message with the id in the current scenario to the clamped column, and saves. */
    method UpdateColumn(messageId: string, column: int, server: Outcome<Thrown>) returns (r: Outcome<Thrown>)
      modifies this
      ensures !Truthy(old(currentScenarioId)) || old(CurrentScenario()).None? ==>
                r == Pass && scenarios == old(scenarios)
      ensures Truthy(old(currentScenarioId)) && old(CurrentScenario()).Some? ==>
                var current := old(CurrentScenario()).value;
                && scenarios == ReplaceScenario(old(scenarios), current.id,
                                                current.(messages := WithColumn(current.messages, messageId, column)))
                && r == Persisted(userId, server)
      ensures ColumnsInRange(old(scenarios)) ==> ColumnsInRange(scenarios)
      ensures currentScenarioId == old(currentScenarioId) && selectedMessageId == old(selectedMessageId)
      ensures userId == old(userId) && isLoading == old(isLoading) && error == old(error)
    {
      if !Truthy(currentScenarioId) {
        return Pass;
      }
      var scenario := Lookup(scenarios, currentScenarioId);
      if scenario.None? {
        return Pass;
      }
      var updated := scenario.value.(messages := WithColumn(scenario.value.messages, messageId, column));
      scenarios := ReplaceScenario(scenarios, scenario.value.id, updated);
      return Persisted(userId, server);
    }

    /** `clearScenario`: empties the current scenario's messages, clears the selection, and saves. */
    method ClearScenario(server: Outcome<Thrown>) returns (r: Outcome<Thrown>)
      modifies this
      ensures !Truthy(old(currentScenarioId)) || old(CurrentScenario()).None? ==>
                r == Pass && scenarios == old(scenarios) && selectedMessageId == old(selectedMessageId)
      ensures Truthy(old(currentScenarioId)) && old(CurrentScenario()).Some? ==>
                var current := old(CurrentScenario()).value;
                && scenarios == ReplaceScenario(old(scenarios), current.id, current.(messages := []))
                && selectedMessageId == None
                && r == Persisted(userId, server)
      ensures ColumnsInRange(old(scenarios)) ==> ColumnsInRange(scenarios)
      ensures currentScenarioId == old(currentScenarioId)
      ensures userId == old(userId) && isLoading == old(isLoading) && error == old(error)
    {
      if !Truthy(currentScenarioId) {
        return Pass;
      }
      var scenario := Lookup(scenarios, currentScenarioId);
      if scenario.None? {
        return Pass;
      }
      var updated := scenario.value.(messages := []);
      scenarios := ReplaceScenario(scenarios, scenario.value.id, updated);
      selectedMessageId := None;
      return Persisted(userId, server);
    }
  }
}
