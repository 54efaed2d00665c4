/**
 * `CloudStorageService`: scenario and message-sample documents stored as JSON
 * objects in one bucket, under names derived from the user and entity ids.
 */
module CloudStorage {
  import opened Common
  import opened Strings
  import opened Utf8
  import opened Seqs
  import opened Model
  import opened Exceptions
  import opened Bucket

  const SCENARIOS_SUFFIX: string := "/scenarios/"
  const MESSAGE_SAMPLES_PREFIX: string := "message-samples/"
  const JSON_EXTENSION: string := ".json"

  /** Where a user's scenarios live. */
  function ScenariosPrefix(userId: string): (prefix: string)
    ensures EndsWith(prefix, "/")
  {
    EndsWithConcat(userId + "/scenarios", "/");
    userId + SCENARIOS_SUFFIX
  }

  /** The object name of a user's scenario, built alike by upsert and delete. */
  function ScenarioBlobName(userId: string, id: string): (name: string)
    ensures StartsWith(name, ScenariosPrefix(userId)) && EndsWith(name, JSON_EXTENSION)
  {
    StartsWithConcat(ScenariosPrefix(userId), id + JSON_EXTENSION);
    assert ScenariosPrefix(userId) + (id + JSON_EXTENSION) == userId + SCENARIOS_SUFFIX + id + JSON_EXTENSION;
    EndsWithConcat(userId + SCENARIOS_SUFFIX + id, JSON_EXTENSION);
    userId + SCENARIOS_SUFFIX + id + JSON_EXTENSION
  }

  /** The object name of a message sample, built alike by upsert and delete. */
  function SampleBlobName(messageId: string): (name: string)
    ensures StartsWith(name, MESSAGE_SAMPLES_PREFIX) && EndsWith(name, JSON_EXTENSION)
  {
    StartsWithConcat(MESSAGE_SAMPLES_PREFIX, messageId + JSON_EXTENSION);
    assert MESSAGE_SAMPLES_PREFIX + (messageId + JSON_EXTENSION) == MESSAGE_SAMPLES_PREFIX + messageId + JSON_EXTENSION;
    EndsWithConcat(MESSAGE_SAMPLES_PREFIX + messageId, JSON_EXTENSION);
    MESSAGE_SAMPLES_PREFIX + messageId + JSON_EXTENSION
  }

  /** Within one user, distinct scenario ids never share an object. */
  lemma ScenarioBlobNameInjective(userId: string, a: string, b: string)
    requires ScenarioBlobName(userId, a) == ScenarioBlobName(userId, b)
    ensures a == b
  {
    var k := |userId + SCENARIOS_SUFFIX|;
    var na := ScenarioBlobName(userId, a);
    var nb := ScenarioBlobName(userId, b);
    assert na[k..|na| - 5] == a;
    assert nb[k..|nb| - 5] == b;
  }

  /** For user ids without '/', the object name determines both the user and the scenario. */
  lemma ScenarioBlobNameDeterminesUser(u1: string, a: string, u2: string, b: string)
    requires '/' !in u1 && '/' !in u2
    requires ScenarioBlobName(u1, a) == ScenarioBlobName(u2, b)
    ensures u1 == u2 && a == b
  {
    var n := ScenarioBlobName(u1, a);
    assert n == u1 + ("/scenarios/" + a + JSON_EXTENSION);
    assert n == u2 + ("/scenarios/" + b + JSON_EXTENSION);
    assert n[|u1|] == '/' && n[|u2|] == '/';
    if |u1| < |u2| {
      assert false;
    } else if |u2| < |u1| {
      assert false;
    }
    assert u1 == n[..|u1|] == u2;
    ScenarioBlobNameInjective(u1, a, b);
  }

  /** Scenario documents never land on a sample's name, except for a user literally named "message-samples". */
  lemma ScenarioAndSampleNamesDisjoint(userId: string, id: string, messageId: string)
    requires '/' !in userId && userId != "message-samples"
    ensures ScenarioBlobName(userId, id) != SampleBlobName(messageId)
  {
    var n := ScenarioBlobName(userId, id);
    var m := SampleBlobName(messageId);
    assert n[|userId|] == '/';
    assert m[..16] == MESSAGE_SAMPLES_PREFIX;
    if |userId| < 15 {
      assert n[|userId|] != m[|userId|];
    } else if |userId| == 15 {
      assert n[..15] == userId;
      assert m[..15] == "message-samples";
    } else {
      assert n[15] == userId[15] != '/';
      assert m[15] == '/';
    }
  }

  function WriteError(blobName: string): AppError
  {
    Storage("Failed to write to Cloud Storage: " + blobName)
  }

  function ReadError(prefix: string): AppError
  {
    Storage("Failed to read from Cloud Storage with prefix: " + prefix)
  }

  function NotFoundError(blobName: string): AppError
  {
    Storage("Blob not found: " + blobName)
  }

  function DeleteError(blobName: string): AppError
  {
    Storage("Failed to delete from Cloud Storage: " + blobName)
  }

  const LIST_USERS_ERROR: AppError := Storage("Failed to list user IDs from Cloud Storage")

  predicate IsJson(b: Blob)
  {
    EndsWith(b.name, JSON_EXTENSION)
  }

  /** `storage.list` with a prefix option: the objects whose name starts with it, in listing order. */
  function ListPrefix(bucket: seq<Blob>, prefix: string): seq<Blob>
  {
    Filter(bucket, (b: Blob) => StartsWith(b.name, prefix))
  }

  /** The JSON documents under a prefix, as `readAllFromPrefix` visits them. */
  function JsonUnder(bucket: seq<Blob>, prefix: string): seq<Blob>
  {
    Filter(ListPrefix(bucket, prefix), IsJson)
  }

  /** Reads every document, or nothing at all if any one fails to parse. */
  function DecodeAll<T>(blobs: seq<Blob>, readValue: Bytes -> Option<T>): (r: Option<seq<T>>)
    decreases |blobs|
  {
    if blobs == [] then Some([])
    else match DecodeAll(blobs[..|blobs| - 1], readValue)
      case None => None
      case Some(prev) =>
        var last := readValue(blobs[|blobs| - 1].content);
        if last.None? then None else Some(prev + [last.value])
  }

  /** All or nothing: a result exists exactly when every document parses, one value per document, in order. */
  lemma {:induction false} DecodeAllSpec<T>(blobs: seq<Blob>, readValue: Bytes -> Option<T>)
    ensures DecodeAll(blobs, readValue).Some? <==> forall i :: 0 <= i < |blobs| ==> readValue(blobs[i].content).Some?
    ensures DecodeAll(blobs, readValue).Some? ==>
              |DecodeAll(blobs, readValue).value| == |blobs| &&
              forall i :: 0 <= i < |blobs| ==> DecodeAll(blobs, readValue).value[i] == readValue(blobs[i].content).value
    decreases |blobs|
  {
    if blobs != [] {
      var front := blobs[..|blobs| - 1];
      DecodeAllSpec(front, readValue);
      assert forall i :: 0 <= i < |front| ==> front[i] == blobs[i];
    }
  }

  /** The documents `readAllFromPrefix` reads are exactly the `.json` objects under the prefix, in listing order. */
  lemma JsonUnderMembers(bucket: seq<Blob>, prefix: string)
    ensures forall i :: 0 <= i < |JsonUnder(bucket, prefix)| ==>
              var b := JsonUnder(bucket, prefix)[i];
              b in bucket && StartsWith(b.name, prefix) && EndsWith(b.name, JSON_EXTENSION)
    ensures forall i :: 0 <= i < |bucket| && StartsWith(bucket[i].name, prefix) && EndsWith(bucket[i].name, JSON_EXTENSION) ==>
              bucket[i] in JsonUnder(bucket, prefix)
    ensures Sorted(bucket) ==> Sorted(JsonUnder(bucket, prefix))
  {
    var listed := ListPrefix(bucket, prefix);
    FilterMembers(bucket, (b: Blob) => StartsWith(b.name, prefix));
    FilterMembers(listed, IsJson);
    forall i | 0 <= i < |bucket| && StartsWith(bucket[i].name, prefix) && EndsWith(bucket[i].name, JSON_EXTENSION)
      ensures bucket[i] in JsonUnder(bucket, prefix)
    {
      assert bucket[i] in listed;
      var k :| 0 <= k < |listed| && listed[k] == bucket[i];
      assert IsJson(listed[k]);
    }
    if Sorted(bucket) {
      FilterPairwise(bucket, (b: Blob) => StartsWith(b.name, prefix), NameBefore);
      FilterPairwise(listed, IsJson, NameBefore);
    }
  }

  /**
   * Upsert then list: after a write, the user's scenario listing holds the
   * written document exactly once.
   */
  lemma UpsertThenListOnce(bucket: seq<Blob>, userId: string, id: string, content: Bytes)
    requires Sorted(bucket)
    ensures var name := ScenarioBlobName(userId, id);
            var listed := JsonUnder(Put(bucket, name, content), ScenariosPrefix(userId));
            exists i :: 0 <= i < |listed| && listed[i] == Blob(name, content) &&
                        forall j :: 0 <= j < |listed| && j != i ==> listed[j].name != name
  {
    var name := ScenarioBlobName(userId, id);
    var after := Put(bucket, name, content);
    var listed := JsonUnder(after, ScenariosPrefix(userId));
    PutSorted(bucket, name, content);
    PutHolds(bucket, name, content);
    JsonUnderMembers(after, ScenariosPrefix(userId));
    var k :| 0 <= k < |after| && after[k] == Blob(name, content);
    assert Blob(name, content) in listed;
    var i :| 0 <= i < |listed| && listed[i] == Blob(name, content);
    forall j | 0 <= j < |listed| && j != i ensures listed[j].name != name {
      LessIrreflexive(name);
      if j < i {
        assert NameBefore(listed[j], listed[i]);
      } else {
        assert NameBefore(listed[i], listed[j]);
      }
    }
  }

  // ----- the delimiter listing behind getAllUserIds -----

  /** The part of a name before its first "/" (all of it when there is none). */
  function Segment(name: string): (seg: string)
    ensures '/' !in seg && |seg| <= |name| && name[..|seg|] == seg
  {
    if name == [] || name[0] == '/' then [] else [name[0]] + Segment(name[1..])
  }

  lemma {:induction false} SegmentThenSlash(name: string)
    requires '/' in name
    ensures |Segment(name)| < |name| && name[|Segment(name)|] == '/'
  {
    if name[0] != '/' {
      assert '/' in name[1..];
      SegmentThenSlash(name[1..]);
    }
  }

  lemma {:induction false} SegmentOfPrefixed(u: string, name: string)
    requires '/' !in u && StartsWith(name, u + "/")
    ensures Segment(name) == u
  {
    if u == [] {
      assert name[0] == '/';
    } else {
      assert name[0] == u[0];
      assert name[1..][..|u[1..] + "/"|] == name[..|u + "/"|][1..];
      SegmentOfPrefixed(u[1..], name[1..]);
      assert u == [u[0]] + u[1..];
    }
  }

  /** The entry a "/"-delimited listing shows for an object: its name up to and including the first "/". */
  function Entry(name: string): string
  {
    if '/' in name then Segment(name) + "/" else name
  }

  /** A directory entry is a segment without "/" followed by "/", and the object's name starts with it. */
  lemma EntryShape(name: string)
    ensures EndsWith(Entry(name), "/") ==>
              var u := Entry(name)[..|Entry(name)| - 1];
              '/' !in u && StartsWith(name, u + "/") && Entry(name) == u + "/"
  {
    if '/' in name {
      SegmentThenSlash(name);
      var u := Segment(name);
      assert Entry(name)[..|Entry(name)| - 1] == u;
      assert name[..|u + "/"|] == u + "/";
    }
  }

  lemma EntryOfPrefixed(u: string, name: string)
    requires '/' !in u && StartsWith(name, u + "/")
    ensures Entry(name) == u + "/"
  {
    SegmentOfPrefixed(u, name);
    assert name[|u|] == '/';
  }

  /** `storage.list` with delimiter "/": one entry per top-level object or directory, first occurrence kept. */
  function DelimitedListing(names: seq<string>): seq<string>
    decreases |names|
  {
    if names == [] then []
    else
      var rest := DelimitedListing(names[..|names| - 1]);
      var e := Entry(names[|names| - 1]);
      if e in rest then rest else rest + [e]
  }

  lemma {:induction false} DelimitedListingMembers(names: seq<string>, e: string)
    ensures e in DelimitedListing(names) <==> exists i :: 0 <= i < |names| && Entry(names[i]) == e
    decreases |names|
  {
    if names != [] {
      var front := names[..|names| - 1];
      DelimitedListingMembers(front, e);
      assert forall i :: 0 <= i < |front| ==> front[i] == names[i];
      if e in DelimitedListing(names) && e !in DelimitedListing(front) {
        assert Entry(names[|names| - 1]) == e;
      }
    }
  }

  /**
   * The user ids `getAllUserIds` reports from a delimited listing: the
   * directory entries not skipped as the samples directory, without their "/".
   */
  function UserIds(listing: seq<string>, isSamplesDirectory: string -> bool): seq<string>
    decreases |listing|
  {
    if listing == [] then []
    else
      var rest := UserIds(listing[..|listing| - 1], isSamplesDirectory);
      var name := listing[|listing| - 1];
      if EndsWith(name, "/") && !isSamplesDirectory(name) then rest + [name[..|name| - 1]] else rest
  }

  lemma {:induction false} UserIdsMembers(listing: seq<string>, isSamplesDirectory: string -> bool, u: string)
    ensures u in UserIds(listing, isSamplesDirectory) <==>
              exists i :: 0 <= i < |listing| && EndsWith(listing[i], "/") && !isSamplesDirectory(listing[i]) &&
                          listing[i][..|listing[i]| - 1] == u
    decreases |listing|
  {
    if listing != [] {
      var front := listing[..|listing| - 1];
      UserIdsMembers(front, isSamplesDirectory, u);
      assert forall i :: 0 <= i < |front| ==> front[i] == listing[i];
    }
  }

  /** The check as written: any entry whose name starts with "message-samples" is skipped. */
  predicate IsSamplesDirectoryAsWritten(name: string)
  {
    StartsWith(name, "message-samples")
  }

  /** The check as intended: only the samples directory itself is skipped. */
  predicate IsSamplesDirectory(name: string)
  {
    name == MESSAGE_SAMPLES_PREFIX
  }

  /**
   * The check as written hides real users: any user whose id starts with
   * "message-samples" (other than the samples directory itself) and who has an
   * object is never reported.
   */
  lemma AsWrittenHidesUsers(bucket: seq<Blob>, u: string)
    requires '/' !in u && StartsWith(u, "message-samples") && u != "message-samples"
    requires exists i :: 0 <= i < |bucket| && StartsWith(bucket[i].name, u + "/")
    ensures u !in UserIds(DelimitedListing(Names(bucket)), IsSamplesDirectoryAsWritten)
    ensures u in UserIds(DelimitedListing(Names(bucket)), IsSamplesDirectory)
  {
    var listing := DelimitedListing(Names(bucket));
    UserIdsMembers(listing, IsSamplesDirectoryAsWritten, u);
    UserIdsOfBucket(bucket, u);
  }

  /** A concrete case: user "message-samples-archive" owns scenario "s1" yet is not listed as written. */
  lemma AsWrittenHidesArchiveUser()
    ensures var u := "message-samples-archive";
            var bucket := [Blob(ScenarioBlobName(u, "s1"), [])];
            && u !in UserIds(DelimitedListing(Names(bucket)), IsSamplesDirectoryAsWritten)
            && u in UserIds(DelimitedListing(Names(bucket)), IsSamplesDirectory)
  {
    var u := "message-samples-archive";
    var bucket := [Blob(ScenarioBlobName(u, "s1"), [])];
    assert ScenarioBlobName(u, "s1") == (u + "/") + ("scenarios/s1" + JSON_EXTENSION);
    StartsWithConcat(u + "/", "scenarios/s1" + JSON_EXTENSION);
    assert StartsWith(bucket[0].name, u + "/");
    assert u == "message-samples" + "-archive";
    StartsWithConcat("message-samples", "-archive");
    AsWrittenHidesUsers(bucket, u);
  }

  /**
   * With the intended check, the user ids reported are exactly the first path
   * segments of the bucket's objects, other than the samples directory.
   */
  lemma UserIdsOfBucket(bucket: seq<Blob>, u: string)
    ensures u in UserIds(DelimitedListing(Names(bucket)), IsSamplesDirectory) <==>
              && u != "message-samples" && '/' !in u
              && exists i :: 0 <= i < |bucket| && StartsWith(bucket[i].name, u + "/")
  {
    if u in UserIds(DelimitedListing(Names(bucket)), IsSamplesDirectory) {
      ReportedUserHasObject(bucket, u);
    }
    if u != "message-samples" && '/' !in u && exists i :: 0 <= i < |bucket| && StartsWith(bucket[i].name, u + "/") {
      var i :| 0 <= i < |bucket| && StartsWith(bucket[i].name, u + "/");
      UserWithObjectReported(bucket, u, i);
    }
  }

  lemma ReportedUserHasObject(bucket: seq<Blob>, u: string)
    requires u in UserIds(DelimitedListing(Names(bucket)), IsSamplesDirectory)
    ensures u != "message-samples" && '/' !in u
    ensures exists i :: 0 <= i < |bucket| && StartsWith(bucket[i].name, u + "/")
  {
    var names := Names(bucket);
    var listing := DelimitedListing(names);
    UserIdsMembers(listing, IsSamplesDirectory, u);
    var k :| 0 <= k < |listing| && EndsWith(listing[k], "/") && !IsSamplesDirectory(listing[k]) &&
             listing[k][..|listing[k]| - 1] == u;
    var e := listing[k];
    DelimitedListingMembers(names, e);
    var i :| 0 <= i < |names| && Entry(names[i]) == e;
    EntryIsUserDirectory(names[i], u);
    assert names[i] == bucket[i].name;
  }

  /** A listing entry `u/` comes from an object under `u/`, and `u` has no slash. */
  lemma EntryIsUserDirectory(name: string, u: string)
    requires EndsWith(Entry(name), "/") && Entry(name)[..|Entry(name)| - 1] == u
    requires Entry(name) != MESSAGE_SAMPLES_PREFIX
    ensures u != "message-samples" && '/' !in u && StartsWith(name, u + "/")
  {
    EntryShape(name);
  }

  lemma UserWithObjectReported(bucket: seq<Blob>, u: string, i: int)
    requires u != "message-samples" && '/' !in u
    requires 0 <= i < |bucket| && StartsWith(bucket[i].name, u + "/")
    ensures u in UserIds(DelimitedListing(Names(bucket)), IsSamplesDirectory)
  {
    var names := Names(bucket);
    var listing := DelimitedListing(names);
    EntryOfPrefixed(u, names[i]);
    DelimitedListingMembers(names, u + "/");
    var k :| 0 <= k < |listing| && listing[k] == u + "/";
    EndsWithConcat(u, "/");
    assert (u + "/")[..|u|] == u;
    assert !IsSamplesDirectory(listing[k]);
    UserIdsMembers(listing, IsSamplesDirectory, u);
  }

  class CloudStorageService {
    const bucketName: string
    const objectMapper: ObjectMapper
    /** The bucket's objects, in listing order. */
    var bucket: seq<Blob>

    ghost predicate Valid()
      reads this
    {
      Sorted(bucket)
    }

    constructor (bucketName: string, objectMapper: ObjectMapper)
      ensures Valid() && bucket == []
      ensures this.bucketName == bucketName && this.objectMapper == objectMapper
    {
      this.bucketName := bucketName;
      this.objectMapper := objectMapper;
      bucket := [];
    }

    /** `writeJson`: stores the UTF-8 bytes of the document; a failed write changes nothing. */
    method WriteJson(blobName: string, json: string, writeOk: bool) returns (r: Outcome<AppError>)
      requires Valid()
      modifies this
      ensures Valid()
      ensures writeOk ==> r == Pass && bucket == Put(old(bucket), blobName, Encode(json))
      ensures writeOk ==> Contents(bucket) == Contents(old(bucket))[blobName := Encode(json)]
      ensures !writeOk ==> r == Fail(WriteError(blobName)) && bucket == old(bucket)
    {
      if !writeOk {
        return Fail(WriteError(blobName));
      }
      PutSorted(bucket, blobName, Encode(json));
      PutContents(bucket, blobName, Encode(json));
      bucket := Put(bucket, blobName, Encode(json));
      return Pass;
    }

    /** `deleteBlob`: removes exactly that object; an absent one is "not found" and nothing changes. */
    method DeleteBlob(blobName: string, reachable: bool) returns (r: Outcome<AppError>)
      requires Valid()
      modifies this
      ensures Valid()
      ensures !reachable ==> r == Fail(DeleteError(blobName)) && bucket == old(bucket)
      ensures reachable && !Exists(old(bucket), blobName) ==> r == Fail(NotFoundError(blobName)) && bucket == old(bucket)
      ensures reachable && Exists(old(bucket), blobName) ==>
                && r == Pass
                && bucket == Remove(old(bucket), blobName)
                && Contents(bucket) == Contents(old(bucket)) - {blobName}
    {
      if !reachable {
        return Fail(DeleteError(blobName));
      }
      var deleted := Exists(bucket, blobName);
      if !deleted {
        return Fail(NotFoundError(blobName));
      }
      RemoveSorted(bucket, blobName);
      RemoveContents(bucket, blobName);
      bucket := Remove(bucket, blobName);
      return Pass;
    }

    /**
     * `readAllFromPrefix`: the `.json` objects under the prefix, parsed in
     * listing order; a list failure or any unparsable document fails the
     * whole read, never returning part of the list.
     */
    method ReadAllFromPrefix<T>(prefix: string, readValue: Bytes -> Option<T>, listOk: bool)
      returns (r: Result<seq<T>, AppError>)
      ensures !listOk ==> r == Failure(ReadError(prefix))
      ensures listOk && DecodeAll(JsonUnder(bucket, prefix), readValue).None? ==> r == Failure(ReadError(prefix))
      ensures listOk && DecodeAll(JsonUnder(bucket, prefix), readValue).Some? ==>
                r == Success(DecodeAll(JsonUnder(bucket, prefix), readValue).value)
    {
      if !listOk {
        return Failure(ReadError(prefix));
      }
      var blobs := ListPrefix(bucket, prefix);
      var documents := ReadDocuments(blobs, readValue);
      if documents.None? {
        return Failure(ReadError(prefix));
      }
      return Success(documents.value);
    }

    /** `upsertScenario`: writes the scenario under its name and returns it unchanged. */
    method UpsertScenario(userId: string, scenario: Scenario, writeOk: bool) returns (r: Result<Scenario, AppError>)
      requires Valid()
      modifies this
      ensures Valid()
      ensures writeOk ==>
                && r == Success(scenario)
                && bucket == Put(old(bucket), ScenarioBlobName(userId, scenario.id), Encode(objectMapper.writeScenario(scenario)))
      ensures !writeOk ==> r == Failure(WriteError(ScenarioBlobName(userId, scenario.id))) && bucket == old(bucket)
    {
      var blobName := userId + SCENARIOS_SUFFIX + scenario.id + JSON_EXTENSION;
      var written := WriteJson(blobName, objectMapper.writeScenario(scenario), writeOk);
      if written.Fail? {
        return Failure(written.error);
      }
      return Success(scenario);
    }

    /** `getAllScenarios`: the documents under the user's scenarios prefix. */
    method GetAllScenarios(userId: string, listOk: bool) returns (r: Result<seq<Scenario>, AppError>)
      ensures var docs := DecodeAll(JsonUnder(bucket, ScenariosPrefix(userId)), objectMapper.readScenario);
              r == if listOk && docs.Some? then Success(docs.value) else Failure(ReadError(ScenariosPrefix(userId)))
    {
      r := ReadAllFromPrefix(userId + SCENARIOS_SUFFIX, objectMapper.readScenario, listOk);
    }

    /** `upsertMessageSample`: writes the sample under its name and returns it unchanged. */
    method UpsertMessageSample(sample: MessageSample, writeOk: bool) returns (r: Result<MessageSample, AppError>)
      requires Valid()
      modifies this
      ensures Valid()
      ensures writeOk ==>
                && r == Success(sample)
                && bucket == Put(old(bucket), SampleBlobName(sample.messageId), Encode(objectMapper.writeSample(sample)))
      ensures !writeOk ==> r == Failure(WriteError(SampleBlobName(sample.messageId))) && bucket == old(bucket)
    {
      var blobName := MESSAGE_SAMPLES_PREFIX + sample.messageId + JSON_EXTENSION;
      var written := WriteJson(blobName, objectMapper.writeSample(sample), writeOk);
      if written.Fail? {
        return Failure(written.error);
      }
      return Success(sample);
    }

    /** `getAllMessageSamples`: the documents under the samples prefix. */
    method GetAllMessageSamples(listOk: bool) returns (r: Result<seq<MessageSample>, AppError>)
      ensures var docs := DecodeAll(JsonUnder(bucket, MESSAGE_SAMPLES_PREFIX), objectMapper.readSample);
              r == if listOk && docs.Some? then Success(docs.value) else Failure(ReadError(MESSAGE_SAMPLES_PREFIX))
    {
      r := ReadAllFromPrefix(MESSAGE_SAMPLES_PREFIX, objectMapper.readSample, listOk);
    }

    /** `deleteScenario`: deletes the object upsert wrote for that user and id. */
    method DeleteScenario(userId: string, id: string, reachable: bool) returns (r: Outcome<AppError>)
      requires Valid()
      modifies this
      ensures Valid()
      ensures var name := ScenarioBlobName(userId, id);
              && (!reachable ==> r == Fail(DeleteError(name)) && bucket == old(bucket))
              && (reachable && !Exists(old(bucket), name) ==> r == Fail(NotFoundError(name)) && bucket == old(bucket))
              && (reachable && Exists(old(bucket), name) ==> r == Pass && bucket == Remove(old(bucket), name))
    {
      var blobName := userId + SCENARIOS_SUFFIX + id + JSON_EXTENSION;
      r := DeleteBlob(blobName, reachable);
    }

    /** `deleteMessageSample`: deletes the object upsert wrote for that message id. */
    method DeleteMessageSample(messageId: string, reachable: bool) returns (r: Outcome<AppError>)
      requires Valid()
      modifies this
      ensures Valid()
      ensures var name := SampleBlobName(messageId);
              && (!reachable ==> r == Fail(DeleteError(name)) && bucket == old(bucket))
              && (reachable && !Exists(old(bucket), name) ==> r == Fail(NotFoundError(name)) && bucket == old(bucket))
              && (reachable && Exists(old(bucket), name) ==> r == Pass && bucket == Remove(old(bucket), name))
    {
      var blobName := MESSAGE_SAMPLES_PREFIX + messageId + JSON_EXTENSION;
      r := DeleteBlob(blobName, reachable);
    }

    /**
     * `getAllUserIds`: the directory entries of the delimited listing, except
     * the samples directory, without their trailing "/" (see UserIdsOfBucket).
     */
    method GetAllUserIds(listOk: bool) returns (r: Result<seq<string>, AppError>)
      ensures !listOk ==> r == Failure(LIST_USERS_ERROR)
      ensures listOk ==> r == Success(UserIds(DelimitedListing(Names(bucket)), IsSamplesDirectory))
    {
      if !listOk {
        return Failure(LIST_USERS_ERROR);
      }
      var page := DelimitedListing(Names(bucket));
      var userIds: seq<string> := [];
      var i := 0;
      while i < |page|
        invariant 0 <= i <= |page|
        invariant userIds == UserIds(page[..i], IsSamplesDirectory)
      {
        var name := page[i];
        assert page[..i + 1][..i] == page[..i];
        if EndsWith(name, "/") && !IsSamplesDirectory(name) {
          userIds := userIds + [name[..|name| - 1]];
        }
        i := i + 1;
      }
      assert page[..i] == page;
      return Success(userIds);
    }
  }

  /**
   * The loop of `readAllFromPrefix` over a listing: each `.json` object is
   * parsed in turn, and the first one that fails to parse ends the read.
   */
  method ReadDocuments<T>(blobs: seq<Blob>, readValue: Bytes -> Option<T>) returns (r: Option<seq<T>>)
    ensures r == DecodeAll(Filter(blobs, IsJson), readValue)
  {
    var results: seq<T> := [];
    var i := 0;
    while i < |blobs|
      invariant 0 <= i <= |blobs|
      invariant DecodeAll(Filter(blobs[..i], IsJson), readValue) == Some(results)
    {
      var blob := blobs[i];
      ReadStep(blobs, i, results, readValue);
      if IsJson(blob) {
        var obj := readValue(blob.content);
        if obj.None? {
          ReadFails(blobs, i, readValue);
          return None;
        }
        results := results + [obj.value];
      }
      i := i + 1;
    }
    TakeAll(blobs);
    return Some(results);
  }

  /** Parsing one more document extends the results, or fails the whole read. */
  lemma DecodeAllSnoc<T>(front: seq<Blob>, b: Blob, readValue: Bytes -> Option<T>)
    ensures DecodeAll(front + [b], readValue) ==
              if DecodeAll(front, readValue).None? || readValue(b.content).None? then None
              else Some(DecodeAll(front, readValue).value + [readValue(b.content).value])
  {
    assert (front + [b])[..|front + [b]| - 1] == front;
  }

  /** One step of the reading loop over a listing. */
  lemma ReadStep<T>(blobs: seq<Blob>, i: nat, results: seq<T>, readValue: Bytes -> Option<T>)
    requires i < |blobs| && DecodeAll(Filter(blobs[..i], IsJson), readValue) == Some(results)
    ensures !IsJson(blobs[i]) ==> DecodeAll(Filter(blobs[..i + 1], IsJson), readValue) == Some(results)
    ensures IsJson(blobs[i]) ==>
              DecodeAll(Filter(blobs[..i + 1], IsJson), readValue) ==
              if readValue(blobs[i].content).None? then None else Some(results + [readValue(blobs[i].content).value])
  {
    assert blobs[..i + 1] == blobs[..i] + [blobs[i]];
    FilterSnoc(blobs[..i], blobs[i], IsJson);
    if IsJson(blobs[i]) {
      DecodeAllSnoc(Filter(blobs[..i], IsJson), blobs[i], readValue);
    }
  }

  /** A document that fails to parse fails the read of the whole listing. */
  lemma ReadFails<T>(blobs: seq<Blob>, i: nat, readValue: Bytes -> Option<T>)
    requires i < |blobs| && DecodeAll(Filter(blobs[..i + 1], IsJson), readValue).None?
    ensures DecodeAll(Filter(blobs, IsJson), readValue).None?
  {
    SplitAfter(blobs, i);
    ListingPrefixFails(blobs[..i + 1], blobs[i + 1..], readValue);
  }

  /** A listing whose first part fails to read fails as a whole. */
  lemma ListingPrefixFails<T>(front: seq<Blob>, back: seq<Blob>, readValue: Bytes -> Option<T>)
    requires DecodeAll(Filter(front, IsJson), readValue).None?
    ensures DecodeAll(Filter(front + back, IsJson), readValue).None?
  {
    FilterConcat(front, back, IsJson);
    DecodeAllPrefixFails(Filter(front, IsJson), Filter(back, IsJson), readValue);
  }

  /** Once a prefix of the documents fails to parse, the whole read fails. */
  lemma {:induction false} DecodeAllPrefixFails<T>(front: seq<Blob>, back: seq<Blob>, readValue: Bytes -> Option<T>)
    requires DecodeAll(front, readValue).None?
    ensures DecodeAll(front + back, readValue).None?
    decreases |back|
  {
    if back == [] {
      assert front + back == front;
    } else {
      var back' := back[..|back| - 1];
      DecodeAllPrefixFails(front, back', readValue);
      assert (front + back)[..|front + back| - 1] == front + back';
    }
  }
}
