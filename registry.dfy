/** `MessageRegistry`: the name → message class table and the guarded deserializer. */
module Registry {
  import opened Common
  import opened Model
  import opened Exceptions

  class MessageRegistry {
    /** The `ConcurrentHashMap` from type name to class. */
    var registry: map<string, MessageClass>
    const objectMapper: ObjectMapper

    constructor (objectMapper: ObjectMapper)
      ensures registry == map[] && this.objectMapper == objectMapper
    {
      registry := map[];
      this.objectMapper := objectMapper;
    }

    /** `register`: binds or rebinds `name`; every other name keeps its class. */
    method Register(name: string, clazz: MessageClass)
      modifies this
      ensures registry == old(registry)[name := clazz]
      ensures GetClass(name) == Some(clazz)
      ensures forall n :: n != name ==> GetClass(n) == old(GetClass(n))
    {
      registry := registry[name := clazz];
    }

    /** `getClass`: the bound class, empty for a name never registered. */
    function GetClass(name: string): (r: Option<MessageClass>)
      reads this
      ensures r.None? <==> name !in registry
      ensures r.Some? ==> r.value == registry[name]
    {
      if name in registry then Some(registry[name]) else None
    }

    /**
     * `deserialize`: an unknown name fails before the mapper is consulted (its
     * result does not mention the mapper at all); a known name fails only when
     * the mapper cannot build the class from the tree.
     */
    method Deserialize(name: string, node: Json) returns (r: Result<MessageObject, AppError>)
      ensures name !in registry ==> r == Failure(UnknownMessageTypeError(name))
      ensures name in registry && objectMapper.treeToValue(node, registry[name]).None? ==>
                r == Failure(DeserializationError(name))
      ensures r.Success? <==> name in registry && objectMapper.treeToValue(node, registry[name]).Some?
      ensures r.Success? ==> r.value == objectMapper.treeToValue(node, registry[name]).value
    {
      var clazz := GetClass(name);
      if clazz.None? {
        return Failure(UnknownMessageTypeError(name));
      }
      var decoded := objectMapper.treeToValue(node, clazz.value);
      if decoded.None? {
        return Failure(DeserializationError(name));
      }
      return Success(decoded.value);
    }
  }

  /** `MessageRegistryConfig`: the registry the application starts with. */
  method NewConfiguredRegistry(objectMapper: ObjectMapper) returns (reg: MessageRegistry)
    ensures fresh(reg) && reg.objectMapper == objectMapper
    ensures reg.registry == map["OrderCreated" := MessageClass("OrderCreated")]
  {
    reg := new MessageRegistry(objectMapper);
    reg.Register("OrderCreated", MessageClass("OrderCreated"));
  }
}
