/**
 * `PubSubPublisher`: a topic → publisher-handle cache filled on first use, and
 * the publish call that builds a message and hands it to the topic's handle.
 */
module PubSub {
  import opened Common
  import opened Utf8
  import opened Exceptions

  datatype TopicName = TopicName(project: string, topic: string)

  /** A Pub/Sub `Publisher`, bound to one fully qualified topic. */
  datatype PublisherHandle = PublisherHandle(topicName: TopicName)

  datatype PubsubMessage = PubsubMessage(data: Bytes, attributes: map<string, string>)

  /** One call of a handle's `publish`, as the transport receives it. */
  datatype Delivery = Delivery(publisher: PublisherHandle, message: PubsubMessage)

  /** The one error `publish` lets out, whatever went wrong inside it. */
  function PublishError(topic: string): AppError
  {
    Publish("Failed to publish message to topic: " + topic)
  }

  /** The error `getOrCreatePublisher` throws when the handle cannot be built. */
  function CreateError(topic: string): AppError
  {
    Publish("Failed to create publisher for topic: " + topic)
  }

  /**
   * The message builder: the data is the UTF-8 encoding of the JSON text, so
   * it decodes back to exactly that text; null attributes give none, others
   * are all copied.
   */
  function BuildMessage(jsonMessage: string, attributes: Option<map<string, string>>): (m: PubsubMessage)
    ensures Decode(m.data) == Some(jsonMessage)
    ensures attributes.None? ==> m.attributes == map[]
    ensures attributes.Some? ==> m.attributes == attributes.value
  {
    DecodeEncode(jsonMessage);
    var builder := PubsubMessage(Encode(jsonMessage), map[]);
    if attributes.Some? then builder.(attributes := builder.attributes + attributes.value) else builder
  }

  class PubSubPublisher {
    const projectId: string
    /** The `publishers` map. */
    var publishers: map<string, PublisherHandle>
    /** Topics for which a handle was built, in order of creation. */
    ghost var created: seq<string>
    /** Every message handed to a handle's `publish`, in order. */
    ghost var transport: seq<Delivery>

    /** Each cached topic had its handle built exactly once, bound to that topic. */
    ghost predicate Valid()
      reads this
    {
      && NoDuplicates(created)
      && (forall t :: t in publishers <==> t in created)
      && (forall t :: t in publishers ==> publishers[t] == HandleFor(t))
    }

    function HandleFor(topic: string): PublisherHandle
    {
      PublisherHandle(TopicName(projectId, topic))
    }

    /** Whether publishing to `topic` gets a handle: a cached one, or a new one that builds. */
    function ObtainsHandle(topic: string, createOk: bool): bool
      reads this
    {
      topic in publishers || createOk
    }

    constructor (projectId: string)
      ensures Valid() && this.projectId == projectId
      ensures publishers == map[] && created == [] && transport == []
    {
      this.projectId := projectId;
      publishers := map[];
      created := [];
      transport := [];
    }

    /**
     * `getOrCreatePublisher` (`computeIfAbsent`): a cached handle is returned
     * and nothing is built; otherwise a handle is built (`createOk`) and cached,
     * or the build fails and nothing is cached.
     */
    method GetOrCreatePublisher(topic: string, createOk: bool) returns (r: Result<PublisherHandle, AppError>)
      requires Valid()
      modifies this
      ensures Valid() && transport == old(transport)
      ensures topic in old(publishers) ==>
                r == Success(old(publishers)[topic]) && publishers == old(publishers) && created == old(created)
      ensures topic !in old(publishers) && createOk ==>
                && r == Success(HandleFor(topic))
                && publishers == old(publishers)[topic := HandleFor(topic)]
                && created == old(created) + [topic]
      ensures topic !in old(publishers) && !createOk ==>
                r == Failure(CreateError(topic)) && publishers == old(publishers) && created == old(created)
    {
      if topic in publishers {
        return Success(publishers[topic]);
      }
      if !createOk {
        return Failure(CreateError(topic));
      }
      var handle := HandleFor(topic);
      publishers := publishers[topic := handle];
      created := created + [topic];
      return Success(handle);
    }

    /**
     * `publish`: gets the topic's handle, hands it the built message and
     * returns the id the send produced (`sendResult`); any failure, the
     * handle's creation included, becomes a Publish error naming the topic.
     */
    method Publish(topic: string, jsonMessage: string, attributes: Option<map<string, string>>,
                   createOk: bool, sendResult: Option<string>)
      returns (r: Result<string, AppError>)
      requires Valid()
      modifies this
      ensures Valid()
      ensures old(publishers).Keys <= publishers.Keys
      ensures topic in old(publishers) ==> publishers == old(publishers) && created == old(created)
      ensures topic !in old(publishers) ==>
                if createOk then publishers == old(publishers)[topic := HandleFor(topic)] && created == old(created) + [topic]
                else publishers == old(publishers) && created == old(created)
      ensures transport == old(transport) +
                (if old(ObtainsHandle(topic, createOk)) then [Delivery(HandleFor(topic), BuildMessage(jsonMessage, attributes))] else [])
      ensures r == if old(ObtainsHandle(topic, createOk)) && sendResult.Some? then Success(sendResult.value)
                   else Failure(PublishError(topic))
    {
      var handle := GetOrCreatePublisher(topic, createOk);
      if handle.Failure? {
        return Failure(PublishError(topic));
      }
      var message := BuildMessage(jsonMessage, attributes);
      transport := transport + [Delivery(handle.value, message)];
      if sendResult.None? {
        return Failure(PublishError(topic));
      }
      return Success(sendResult.value);
    }
  }
}
