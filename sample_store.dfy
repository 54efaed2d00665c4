/**
 * The UI's message-sample list (`MessageSampleStore`): upserts and deletes
 * are applied to the list first and rolled back when the server call fails.
 */
module Samples {
  import opened Common
  import opened Js
  import opened Seqs
  import opened Model

  /** The list without any sample filed under `messageId`. */
  function WithoutSample(samples: seq<MessageSample>, messageId: string): (r: seq<MessageSample>)
    ensures forall i :: 0 <= i < |r| ==> r[i].messageId != messageId && r[i] in samples
    ensures forall i :: 0 <= i < |samples| && samples[i].messageId != messageId ==> samples[i] in r
  {
    FilterMembers(samples, (s: MessageSample) => s.messageId != messageId);
    Filter(samples, (s: MessageSample) => s.messageId != messageId)
  }

  /** The list with every sample filed under `sample`'s id replaced by `sample`, in place. */
  function ReplaceSample(samples: seq<MessageSample>, sample: MessageSample): (r: seq<MessageSample>)
    ensures |r| == |samples|
    ensures forall i :: 0 <= i < |r| ==> r[i].messageId == samples[i].messageId
    ensures forall i :: 0 <= i < |r| && samples[i].messageId != sample.messageId ==> r[i] == samples[i]
    ensures forall i :: 0 <= i < |r| && samples[i].messageId == sample.messageId ==> r[i] == sample
  {
    ReplaceWhere(samples, (s: MessageSample) => s.messageId == sample.messageId, sample)
  }

  /** Whether the list already holds a sample under `messageId` (`findIndex(...) !== -1`). */
  predicate Known(samples: seq<MessageSample>, messageId: string)
  {
    FindIndex(samples, (s: MessageSample) => s.messageId == messageId) != -1
  }

  /**
   * The optimistic update of `upsertSample`: a new id is appended at the
   * end, a known one is replaced wherever it occurs.
   */
  function Optimistic(samples: seq<MessageSample>, sample: MessageSample): (r: seq<MessageSample>)
    ensures sample in r
    ensures |r| == if Known(samples, sample.messageId) then |samples| else |samples| + 1
    ensures forall i :: 0 <= i < |samples| ==> r[i] == if samples[i].messageId == sample.messageId then sample else samples[i]
  {
    if !Known(samples, sample.messageId) then samples + [sample]
    else
      var r := ReplaceSample(samples, sample);
      var k := FindIndex(samples, (s: MessageSample) => s.messageId == sample.messageId);
      assert r[k] == sample;
      r
  }

  /** Rolling back a new sample's optimistic append restores the list exactly. */
  lemma RollbackRestores(samples: seq<MessageSample>, sample: MessageSample)
    requires !Known(samples, sample.messageId)
    ensures WithoutSample(Optimistic(samples, sample), sample.messageId) == samples
  {
    var keep := (s: MessageSample) => s.messageId != sample.messageId;
    FilterSnoc(samples, sample, keep);
    FilterAll(samples, keep);
  }

  /**
   * When exactly one sample has the id, a failed delete keeps the same
   * samples, only moved: the removed one comes back at the end.
   */
  lemma FailedDeleteIsPermutation(samples: seq<MessageSample>, messageId: string, k: int)
    requires 0 <= k < |samples| && samples[k].messageId == messageId
    requires forall i :: 0 <= i < |samples| && samples[i].messageId == messageId ==> i == k
    ensures Find(samples, (s: MessageSample) => s.messageId == messageId) == Some(samples[k])
    ensures multiset(WithoutSample(samples, messageId) + [samples[k]]) == multiset(samples)
  {
    var hit := (s: MessageSample) => s.messageId == messageId;
    var keep := (s: MessageSample) => s.messageId != messageId;
    FilterSingle(samples, hit, k);
    FilterSplit(samples, keep, hit);
  }

  class MessageSampleStore {
    var samples: seq<MessageSample>
    var isLoading: bool
    var error: Option<string>

    /** A store that has not loaded yet. */
    constructor()
      ensures samples == [] && isLoading && error == None
    {
      samples := [];
      isLoading := true;
      error := None;
    }

    /** `init` (and `reload`): replaces the list with the server's, or records why it could not. */
    method Init(loaded: Result<seq<MessageSample>, Thrown>)
      modifies this
      ensures !isLoading
      ensures loaded.Success? ==> samples == loaded.value && error == None
      ensures loaded.Failure? ==>
                samples == old(samples) && error == Some(CaughtMessage(loaded.error, "Failed to load message samples"))
    {
      isLoading := true;
      error := None;
      if loaded.Failure? {
        error := Some(CaughtMessage(loaded.error, "Failed to load message samples"));
      } else {
        samples := loaded.value;
      }
      isLoading := false;
    }

    /**
     * `upsertSample`: applied optimistically, then overwritten with the
     * server's copy; when the server fails, a new sample is withdrawn, a
     * replaced one is not, and the failure is passed on.
     */
    method UpsertSample(sample: MessageSample, saved: Result<MessageSample, Thrown>)
      returns (r: Result<MessageSample, Thrown>)
      modifies this
      ensures r == saved
      ensures saved.Success? ==> samples == ReplaceSample(Optimistic(old(samples), sample), saved.value)
      ensures saved.Failure? && !Known(old(samples), sample.messageId) ==> samples == old(samples)
      ensures saved.Failure? && Known(old(samples), sample.messageId) ==> samples == Optimistic(old(samples), sample)
      ensures isLoading == old(isLoading) && error == old(error)
    {
      var existingIndex := FindIndex(samples, (s: MessageSample) => s.messageId == sample.messageId);
      var isNew := existingIndex == -1;
      if isNew {
        samples := samples + [sample];
      } else {
        samples := ReplaceSample(samples, sample);
      }
      if saved.Failure? {
        if isNew {
          RollbackRestores(old(samples), sample);
          samples := WithoutSample(samples, sample.messageId);
        }
        return saved;
      }
      samples := ReplaceSample(samples, saved.value);
      return saved;
    }

    /**
     * `deleteSample`: removes every sample under the id; when the server
     * fails, the first removed sample is appended back at the end and the
     * failure is passed on.
     */
    method DeleteSample(messageId: string, deleted: Outcome<Thrown>) returns (r: Outcome<Thrown>)
      modifies this
      ensures r == deleted
      ensures deleted.Pass? ==> samples == WithoutSample(old(samples), messageId)
      ensures deleted.Fail? ==>
                samples == WithoutSample(old(samples), messageId) +
                           match Find(old(samples), (s: MessageSample) => s.messageId == messageId)
                           case None => []
                           case Some(first) => [first]
      ensures isLoading == old(isLoading) && error == old(error)
    {
      var removed := Find(samples, (s: MessageSample) => s.messageId == messageId);
      samples := WithoutSample(samples, messageId);
      if deleted.Fail? {
        if removed.Some? {
          samples := samples + [removed.value];
        }
      }
      return deleted;
    }
  }
}
