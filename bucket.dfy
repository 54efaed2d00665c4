/**
 * The Cloud Storage bucket the service writes to: objects named by strings,
 * listed in lexicographic name order, each name at most once.
 */
module Bucket {
  import opened Common
  import opened Strings
  import opened Utf8
  import opened Seqs

  datatype Blob = Blob(name: string, content: Bytes)

  predicate NameBefore(a: Blob, b: Blob)
  {
    Less(a.name, b.name)
  }

  /** Listing order: names strictly increasing (so no name twice). */
  ghost predicate Sorted(blobs: seq<Blob>)
  {
    Pairwise(blobs, NameBefore)
  }

  /** The object names in listing order. */
  function Names(blobs: seq<Blob>): (r: seq<string>)
    ensures |r| == |blobs| && forall i :: 0 <= i < |blobs| ==> r[i] == blobs[i].name
  {
    seq(|blobs|, i requires 0 <= i < |blobs| => blobs[i].name)
  }

  /** The bucket as a map from object name to content. */
  function Contents(blobs: seq<Blob>): map<string, Bytes>
  {
    if blobs == [] then map[] else Contents(blobs[1..])[blobs[0].name := blobs[0].content]
  }

  /** `storage.create`: stores `content` under `name`, replacing any object of that name. */
  function Put(blobs: seq<Blob>, name: string, content: Bytes): seq<Blob>
  {
    if blobs == [] then [Blob(name, content)]
    else if blobs[0].name == name then [Blob(name, content)] + blobs[1..]
    else if Less(name, blobs[0].name) then [Blob(name, content)] + blobs
    else [blobs[0]] + Put(blobs[1..], name, content)
  }

  /** `storage.delete`: removes the object of that name, if any. */
  function Remove(blobs: seq<Blob>, name: string): seq<Blob>
  {
    if blobs == [] then []
    else if blobs[0].name == name then Remove(blobs[1..], name)
    else [blobs[0]] + Remove(blobs[1..], name)
  }

  /** Whether an object of that name exists. */
  predicate Exists(blobs: seq<Blob>, name: string)
  {
    exists i :: 0 <= i < |blobs| && blobs[i].name == name
  }

  lemma {:induction false} ContentsDomain(blobs: seq<Blob>, name: string)
    ensures name in Contents(blobs) <==> Exists(blobs, name)
  {
    if blobs != [] {
      ContentsDomain(blobs[1..], name);
      if Exists(blobs, name) && blobs[0].name != name {
        var i :| 0 <= i < |blobs| && blobs[i].name == name;
        assert blobs[1..][i - 1].name == name;
      }
    }
  }

  /** Every name in `blobs` comes after `x`. */
  ghost predicate AllAfter(x: string, blobs: seq<Blob>)
  {
    forall i :: 0 <= i < |blobs| ==> Less(x, blobs[i].name)
  }

  lemma {:induction false} PutAllAfter(x: string, blobs: seq<Blob>, name: string, content: Bytes)
    requires AllAfter(x, blobs) && Less(x, name)
    ensures AllAfter(x, Put(blobs, name, content))
  {
    if blobs != [] && blobs[0].name != name && !Less(name, blobs[0].name) {
      PutAllAfter(x, blobs[1..], name, content);
    }
  }

  lemma SortedCons(b: Blob, blobs: seq<Blob>)
    ensures Sorted([b] + blobs) <==> AllAfter(b.name, blobs) && Sorted(blobs)
  {
    var s := [b] + blobs;
    if AllAfter(b.name, blobs) && Sorted(blobs) {
      forall i, j | 0 <= i < j < |s| ensures NameBefore(s[i], s[j]) {
        if i > 0 {
          assert s[i] == blobs[i - 1] && s[j] == blobs[j - 1];
        }
      }
    }
    if Sorted(s) {
      forall i, j | 0 <= i < j < |blobs| ensures NameBefore(blobs[i], blobs[j]) {
        assert s[i + 1] == blobs[i] && s[j + 1] == blobs[j];
      }
      forall i | 0 <= i < |blobs| ensures Less(b.name, blobs[i].name) {
        assert s[0] == b && s[i + 1] == blobs[i];
        assert NameBefore(s[0], s[i + 1]);
      }
    }
  }

  /** Writing keeps the bucket in listing order. */
  lemma {:induction false} PutSorted(blobs: seq<Blob>, name: string, content: Bytes)
    requires Sorted(blobs)
    ensures Sorted(Put(blobs, name, content))
  {
    if blobs == [] {
    } else if blobs[0].name == name {
      SortedCons(blobs[0], blobs[1..]);
      SortedCons(Blob(name, content), blobs[1..]);
    } else if Less(name, blobs[0].name) {
      SortedCons(blobs[0], blobs[1..]);
      forall i | 0 <= i < |blobs| ensures Less(name, blobs[i].name) {
        if i > 0 {
          LessTransitive(name, blobs[0].name, blobs[i].name);
        }
      }
      SortedCons(Blob(name, content), blobs);
    } else {
      assert blobs == [blobs[0]] + blobs[1..];
      SortedCons(blobs[0], blobs[1..]);
      PutSorted(blobs[1..], name, content);
      LessTotal(name, blobs[0].name);
      PutAllAfter(blobs[0].name, blobs[1..], name, content);
      SortedCons(blobs[0], Put(blobs[1..], name, content));
    }
  }

  /** Writing binds `name` to `content` and leaves every other name as it was. */
  lemma {:induction false} PutContents(blobs: seq<Blob>, name: string, content: Bytes)
    ensures Contents(Put(blobs, name, content)) == Contents(blobs)[name := content]
  {
    if blobs == [] {
    } else if blobs[0].name == name {
      assert ([Blob(name, content)] + blobs[1..])[1..] == blobs[1..];
    } else if Less(name, blobs[0].name) {
      assert ([Blob(name, content)] + blobs)[1..] == blobs;
    } else {
      PutContents(blobs[1..], name, content);
      assert ([blobs[0]] + Put(blobs[1..], name, content))[1..] == Put(blobs[1..], name, content);
    }
  }

  /** Last write wins: a second write of the same name overrides the first entirely. */
  lemma {:induction false} PutPut(blobs: seq<Blob>, name: string, first: Bytes, second: Bytes)
    ensures Put(Put(blobs, name, first), name, second) == Put(blobs, name, second)
  {
    if blobs == [] {
    } else if blobs[0].name == name {
      assert ([Blob(name, first)] + blobs[1..])[1..] == blobs[1..];
    } else if Less(name, blobs[0].name) {
      assert ([Blob(name, first)] + blobs)[1..] == blobs;
    } else {
      PutPut(blobs[1..], name, first, second);
      assert ([blobs[0]] + Put(blobs[1..], name, first))[1..] == Put(blobs[1..], name, first);
    }
  }

  /** After a write the new object is in the bucket. */
  lemma {:induction false} PutHolds(blobs: seq<Blob>, name: string, content: Bytes)
    ensures Blob(name, content) in Put(blobs, name, content)
  {
    if blobs != [] && blobs[0].name != name && !Less(name, blobs[0].name) {
      PutHolds(blobs[1..], name, content);
    }
  }

  lemma {:induction false} RemoveAllAfter(x: string, blobs: seq<Blob>, name: string)
    requires AllAfter(x, blobs)
    ensures AllAfter(x, Remove(blobs, name))
  {
    if blobs != [] {
      RemoveAllAfter(x, blobs[1..], name);
    }
  }

  /** Deleting keeps the bucket in listing order. */
  lemma {:induction false} RemoveSorted(blobs: seq<Blob>, name: string)
    requires Sorted(blobs)
    ensures Sorted(Remove(blobs, name))
  {
    if blobs != [] {
      assert blobs == [blobs[0]] + blobs[1..];
      SortedCons(blobs[0], blobs[1..]);
      RemoveSorted(blobs[1..], name);
      if blobs[0].name != name {
        RemoveAllAfter(blobs[0].name, blobs[1..], name);
        SortedCons(blobs[0], Remove(blobs[1..], name));
      }
    }
  }

  /** Deleting removes exactly that name. */
  lemma {:induction false} RemoveContents(blobs: seq<Blob>, name: string)
    ensures Contents(Remove(blobs, name)) == Contents(blobs) - {name}
  {
    if blobs != [] {
      RemoveContents(blobs[1..], name);
      if blobs[0].name != name {
        assert ([blobs[0]] + Remove(blobs[1..], name))[1..] == Remove(blobs[1..], name);
      }
    }
  }

  /** Deleting an absent name leaves the bucket as it was. */
  lemma {:induction false} RemoveAbsent(blobs: seq<Blob>, name: string)
    requires !Exists(blobs, name)
    ensures Remove(blobs, name) == blobs
  {
    if blobs != [] {
      assert !Exists(blobs[1..], name) by {
        forall i | 0 <= i < |blobs[1..]| ensures blobs[1..][i].name != name {
          assert blobs[1..][i] == blobs[i + 1];
        }
      }
      RemoveAbsent(blobs[1..], name);
      assert blobs == [blobs[0]] + blobs[1..];
    }
  }
}
