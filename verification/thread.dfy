/**
 * The pure operations on a message thread shared by the DM page
 * (src/app/dm/page.tsx) and the message debugger
 * (src/app/admin/message/page.tsx): merging a batch of incoming messages
 * into the list while skipping uids already present, and finding the last
 * message a given profile sent.
 */
module Thread {
  import opened Types

  /** `list.some((m) => m.uid === uid)`. */
  predicate Known(list: seq<Message>, uid: string): (r: bool)
    ensures r <==> uid in seq(|list|, i requires 0 <= i < |list| => list[i].uid)
  {
    var uids := seq(|list|, i requires 0 <= i < |list| => list[i].uid);
    assert forall i :: 0 <= i < |list| ==> uids[i] == list[i].uid;
    exists i :: 0 <= i < |list| && list[i].uid == uid
  }

  /** No two messages of `list` share a uid. */
  predicate DistinctUids(list: seq<Message>) {
    forall i, j :: 0 <= i < j < |list| ==> list[i].uid != list[j].uid
  }

  /**
   * `incoming.filter((m) => !prev.some((p) => p.uid === m.uid))`: the
   * incoming messages whose uid is not in `prev`, in incoming order. Only
   * `prev` is consulted, so a uid repeated within `incoming` is kept twice.
   */
  function Fresh(prev: seq<Message>, incoming: seq<Message>): (r: seq<Message>)
    ensures |r| <= |incoming|
    ensures forall i :: 0 <= i < |r| ==> r[i] in incoming && !Known(prev, r[i].uid)
    decreases |incoming|
  {
    if incoming == [] then []
    else
      (if Known(prev, incoming[0].uid) then [] else [incoming[0]]) + Fresh(prev, incoming[1..])
  }

  /** `[...prev, ...Fresh(prev, incoming)]`. */
  function Merge(prev: seq<Message>, incoming: seq<Message>): (r: seq<Message>)
    ensures prev <= r
  {
    prev + Fresh(prev, incoming)
  }

  /** A message is appended exactly when it is incoming and its uid is new. */
  lemma {:induction false} FreshMembers(prev: seq<Message>, incoming: seq<Message>, m: Message)
    ensures m in Fresh(prev, incoming) <==> m in incoming && !Known(prev, m.uid)
    decreases |incoming|
  {
    if incoming != [] {
      FreshMembers(prev, incoming[1..], m);
      assert incoming == [incoming[0]] + incoming[1..];
    }
  }

  /** The filter keeps incoming order: it distributes over concatenation. */
  lemma {:induction false} FreshAppend(prev: seq<Message>, a: seq<Message>, b: seq<Message>)
    ensures Fresh(prev, a + b) == Fresh(prev, a) + Fresh(prev, b)
    decreases |a|
  {
    if a == [] {
      assert a + b == b;
    } else {
      assert (a + b)[0] == a[0] && (a + b)[1..] == a[1..] + b;
      FreshAppend(prev, a[1..], b);
      var head := if Known(prev, a[0].uid) then [] else [a[0]];
      assert head + (Fresh(prev, a[1..]) + Fresh(prev, b)) == (head + Fresh(prev, a[1..])) + Fresh(prev, b);
    }
  }

  /** A single incoming message is appended exactly when its uid is new. */
  lemma FreshSingle(prev: seq<Message>, m: Message)
    ensures Fresh(prev, [m]) == if Known(prev, m.uid) then [] else [m]
  {
    assert [m][1..] == [];
  }

  /** When every incoming uid is already known, the list is unchanged. */
  lemma {:induction false} AllKnownChangesNothing(prev: seq<Message>, incoming: seq<Message>)
    requires forall i :: 0 <= i < |incoming| ==> Known(prev, incoming[i].uid)
    ensures Merge(prev, incoming) == prev
    decreases |incoming|
  {
    if incoming != [] {
      AllKnownChangesNothing(prev, incoming[1..]);
      assert Fresh(prev, incoming) == Fresh(prev, incoming[1..]);
      assert prev + [] == prev;
    }
  }

  /** Every uid of the batch is known after merging it. */
  lemma MergedUidsKnown(prev: seq<Message>, incoming: seq<Message>)
    ensures forall i :: 0 <= i < |incoming| ==> Known(Merge(prev, incoming), incoming[i].uid)
  {
    var r := Merge(prev, incoming);
    forall i | 0 <= i < |incoming|
      ensures Known(r, incoming[i].uid)
    {
      var m := incoming[i];
      if Known(prev, m.uid) {
        var k :| 0 <= k < |prev| && prev[k].uid == m.uid;
        assert r[k] == prev[k];
      } else {
        FreshMembers(prev, incoming, m);
        var k :| 0 <= k < |Fresh(prev, incoming)| && Fresh(prev, incoming)[k] == m;
        assert r[|prev| + k] == m;
      }
    }
  }

  /** Redelivering a batch that was already merged changes nothing. */
  lemma MergeIdempotent(prev: seq<Message>, incoming: seq<Message>)
    ensures Merge(Merge(prev, incoming), incoming) == Merge(prev, incoming)
  {
    MergedUidsKnown(prev, incoming);
    AllKnownChangesNothing(Merge(prev, incoming), incoming);
  }

  /** The uids the filter lets through are new and, with distinct input, distinct. */
  lemma {:induction false} FreshDistinct(prev: seq<Message>, incoming: seq<Message>)
    requires DistinctUids(incoming)
    ensures DistinctUids(Fresh(prev, incoming))
    ensures forall i :: 0 <= i < |Fresh(prev, incoming)| ==> !Known(prev, Fresh(prev, incoming)[i].uid)
    decreases |incoming|
  {
    if incoming != [] {
      var rest := Fresh(prev, incoming[1..]);
      FreshDistinct(prev, incoming[1..]);
      forall i | 0 <= i < |rest|
        ensures rest[i].uid != incoming[0].uid
      {
        FreshMembers(prev, incoming[1..], rest[i]);
        var k :| 0 <= k < |incoming[1..]| && incoming[1..][k] == rest[i];
        assert incoming[k + 1] == rest[i];
      }
      forall i | 0 <= i < |rest|
        ensures !Known(prev, rest[i].uid)
      {
        FreshMembers(prev, incoming[1..], rest[i]);
      }
    }
  }

  /**
   * If the list and the batch each have distinct uids, so does the merged
   * list.
   */
  lemma MergeDistinct(prev: seq<Message>, incoming: seq<Message>)
    requires DistinctUids(prev) && DistinctUids(incoming)
    ensures DistinctUids(Merge(prev, incoming))
  {
    var added := Fresh(prev, incoming);
    var r := Merge(prev, incoming);
    FreshDistinct(prev, incoming);
    forall i, j | 0 <= i < j < |r|
      ensures r[i].uid != r[j].uid
    {
      if j >= |prev| {
        assert r[j] == added[j - |prev|];
        if i < |prev| {
          assert r[i] == prev[i];
          assert !Known(prev, r[j].uid);
        } else {
          assert r[i] == added[i - |prev|];
        }
      } else {
        assert r[i] == prev[i] && r[j] == prev[j];
      }
    }
  }

  /**
   * Appending one message without a uid check, as the send path does,
   * duplicates its uid when the stream already delivered it.
   */
  lemma AppendCanDuplicate(list: seq<Message>, m: Message)
    requires Known(list, m.uid)
    ensures !DistinctUids(list + [m])
  {
    var k :| 0 <= k < |list| && list[k].uid == m.uid;
    assert (list + [m])[k].uid == (list + [m])[|list|].uid;
  }

  /**
   * The filter consults only the old list, so a batch that carries a new
   * uid twice appends it twice.
   */
  lemma BatchCanDuplicate(prev: seq<Message>, m: Message)
    requires !Known(prev, m.uid)
    ensures !DistinctUids(Merge(prev, [m, m]))
  {
    FreshAppend(prev, [m], [m]);
    FreshSingle(prev, m);
    assert [m] + [m] == [m, m];
    var r := Merge(prev, [m, m]);
    assert r == prev + [m, m];
    assert r[|prev|].uid == r[|prev| + 1].uid;
  }

  /** No message after position `i` was sent by `who`. */
  predicate NoneFromAfter(list: seq<Message>, who: string, i: int) {
    forall j :: 0 <= j < |list| && i < j ==> list[j].sourceUid != who
  }

  /**
   * `[...list].reverse().find((m) => m.source_uid === who)`: the last
   * message `who` sent, if any.
   */
  function LastFrom(list: seq<Message>, who: string): (r: Option<Message>)
    ensures r.None? <==> NoneFromAfter(list, who, -1)
    ensures r.Some? ==> exists i :: 0 <= i < |list| && list[i] == r.value && NoneFromAfter(list, who, i)
    ensures r.Some? ==> r.value.sourceUid == who
    decreases |list|
  {
    if list == [] then None
    else
      var n := |list| - 1;
      if list[n].sourceUid == who then
        assert NoneFromAfter(list, who, n);
        Some(list[n])
      else
        var r := LastFrom(list[..n], who);
        assert forall j :: 0 <= j < n ==> list[..n][j] == list[j];
        r
  }

  /**
   * A message from `who` with none from `who` after it is what `LastFrom`
   * finds: the last message of a sender is unique.
   */
  lemma LastFromIsLast(list: seq<Message>, who: string)
    ensures forall i :: 0 <= i < |list| && list[i].sourceUid == who && NoneFromAfter(list, who, i) ==>
      LastFrom(list, who) == Some(list[i])
  {
    forall i | 0 <= i < |list| && list[i].sourceUid == who && NoneFromAfter(list, who, i)
      ensures LastFrom(list, who) == Some(list[i])
    {
      var r := LastFrom(list, who);
      assert !NoneFromAfter(list, who, -1);
      var k :| 0 <= k < |list| && list[k] == r.value && NoneFromAfter(list, who, k);
      assert !(k < i);
      assert !(i < k);
    }
  }

  /** Messages from others added after the last one from `who` do not change it. */
  lemma {:induction false} LastFromIgnoresOthers(list: seq<Message>, tail: seq<Message>, who: string)
    requires forall i :: 0 <= i < |tail| ==> tail[i].sourceUid != who
    ensures LastFrom(list + tail, who) == LastFrom(list, who)
    decreases |tail|
  {
    if tail != [] {
      var shorter := tail[..|tail| - 1];
      assert (list + tail)[..|list + tail| - 1] == list + shorter;
      LastFromIgnoresOthers(list, shorter, who);
    } else {
      assert list + tail == list;
    }
  }
}
