/** `PublishController.publish`: deserialize, re-serialize, publish, respond. */
module PublishApi {
  import opened Common
  import opened Utf8
  import opened Model
  import opened Exceptions
  import opened Registry
  import opened PubSub

  /** The response body's `messageId` and `payload` entries. */
  datatype PublishResponse = PublishResponse(messageId: string, payload: Json)

  /**
   * Nothing reaches the transport unless the request deserializes: an unknown
   * type or a payload that does not fit its class ends as a 400 with the
   * publisher untouched. Otherwise the text published is the serialization of
   * the deserialized object (not the request's raw JSON), sent to the request's
   * topic with its attributes, and the response carries the send's id and the
   * parse of exactly the text published.
   */
  method Publish(registry: MessageRegistry, publisher: PubSubPublisher, objectMapper: ObjectMapper,
                 request: PublishRequest, createOk: bool, sendResult: Option<string>)
    returns (r: Result<PublishResponse, AppError>)
    requires publisher.Valid()
    modifies publisher
    ensures publisher.Valid()
    ensures request.className !in registry.registry ==>
              && r == Failure(UnknownMessageTypeError(request.className))
              && Handle(r.error).status == BAD_REQUEST
              && unchanged(publisher)
    ensures request.className in registry.registry &&
            registry.objectMapper.treeToValue(request.message, registry.registry[request.className]).None? ==>
              && r == Failure(DeserializationError(request.className))
              && Handle(r.error).status == BAD_REQUEST
              && unchanged(publisher)
    ensures request.className in registry.registry &&
            registry.objectMapper.treeToValue(request.message, registry.registry[request.className]).Some? ==>
              var json := objectMapper.writeValueAsString(
                            registry.objectMapper.treeToValue(request.message, registry.registry[request.className]).value);
              var sent := old(publisher.ObtainsHandle(request.topic, createOk));
              && publisher.transport == old(publisher.transport) +
                   (if sent then [Delivery(publisher.HandleFor(request.topic), BuildMessage(json, request.attributes))] else [])
              && (sent ==> Decode(publisher.transport[|publisher.transport| - 1].message.data) == Some(json))
              && r == if sent && sendResult.Some? then Success(PublishResponse(sendResult.value, objectMapper.readTree(json)))
                      else Failure(PublishError(request.topic))
    ensures r.Failure? && !IsClientError(r.error) ==> Handle(r.error).status == INTERNAL_SERVER_ERROR
  {
    var message := registry.Deserialize(request.className, request.message);
    if message.Failure? {
      return Failure(message.error);
    }
    var jsonMessage := objectMapper.writeValueAsString(message.value);
    var payload := objectMapper.readTree(jsonMessage);
    var messageId := publisher.Publish(request.topic, jsonMessage, request.attributes, createOk, sendResult);
    if messageId.Failure? {
      return Failure(messageId.error);
    }
    return Success(PublishResponse(messageId.value, payload));
  }
}
