/**
 * The data shapes shared by the Java service and the UI: the request and
 * payload records, scenarios and message samples, and the JSON mapper.
 */
module Model {
  import opened Common
  import opened Utf8

  /** A JSON tree (`JsonNode`). No operation of the model inspects it. */
  datatype Json =
    | JNull
    | JBool(b: bool)
    | JNumber(n: int)
    | JString(s: string)
    | JArray(items: seq<Json>)
    | JObject(fields: map<string, Json>)

  /** A registered message class (`Class<?>`), known by its simple name. */
  datatype MessageClass = MessageClass(simpleName: string)

  /** An instance of a registered message class, as Jackson builds it. */
  datatype MessageObject = MessageObject(messageClass: MessageClass, fields: map<string, Json>)

  /** `PublishRequest`: attributes are optional (a JSON null). */
  datatype PublishRequest = PublishRequest(
    className: string,
    topic: string,
    attributes: Option<map<string, string>>,
    message: Json)

  /** `PubSubPayload`: what a scenario message or a sample will publish. */
  datatype PubSubPayload = PubSubPayload(
    className: string,
    topic: string,
    attributes: map<string, string>,
    message: Json)

  /** `ScenarioMessage`: a payload placed in a playback column. */
  datatype ScenarioMessage = ScenarioMessage(id: string, column: int, payload: PubSubPayload)

  /** `Scenario`: an ordered list of scenario messages under a name. */
  datatype Scenario = Scenario(id: string, name: string, description: string, messages: seq<ScenarioMessage>)

  /** `MessageSample`: a payload saved under a message id. */
  datatype MessageSample = MessageSample(messageId: string, payload: PubSubPayload)

  /**
   * The Jackson `ObjectMapper`, left opaque: `treeToValue` (None when the tree
   * does not fit the class), `writeValueAsString`, `readTree`, and the
   * `readValue` of stored documents (None when the bytes do not parse).
   */
  datatype ObjectMapper = ObjectMapper(
    treeToValue: (Json, MessageClass) -> Option<MessageObject>,
    writeValueAsString: MessageObject -> string,
    readTree: string -> Json,
    writeScenario: Scenario -> string,
    writeSample: MessageSample -> string,
    readScenario: Bytes -> Option<Scenario>,
    readSample: Bytes -> Option<MessageSample>)
}
