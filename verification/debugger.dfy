/**
 * The admin message debugger (src/app/admin/message/page.tsx): connecting
 * loads the history of a pair of profiles and then follows their thread
 * through the event stream; disconnecting closes the stream and clears the
 * view.
 *
 * A stream is named by a handle, numbered in the order the page opens
 * streams; `closed` records the handles whose `close` the page has called.
 * The history call is split into `BeginConnect` and `FinishConnect` around
 * its `await`. The uids typed into the form are parameters.
 */
module Debugger {
  import opened Types
  import opened Thread
  import Api

  /** The page size of the history load. */
  const HistoryLimit: int := 50

  /** A stream the page opened, for the pair of profiles it follows. */
  datatype OpenedStream = OpenedStream(handle: nat, sourceUid: string, targetUid: string)

  /** The handles below `count` that were never closed. */
  ghost function Live(count: nat, closed: set<nat>): set<nat> {
    set h: nat | h < count && h !in closed
  }

  class MessageDebugger {
    var messages: seq<Message>
    var isConnected: bool
    var loading: bool
    /** `streamCleanupRef.current`: the handle whose `close` is kept, if any. */
    var stream: Option<nat>
    /** How many streams the page has opened. */
    var openCount: nat
    ghost var closed: set<nat>

    /**
     * Every stream the page opened is closed except the one whose `close`
     * is kept: at most one stream is open.
     */
    ghost predicate Valid()
      reads this
    {
      && (forall h :: h in closed ==> h < openCount)
      && Live(openCount, closed) == if stream.Some? then {stream.value} else {}
    }

    constructor ()
      ensures Valid()
      ensures messages == [] && !isConnected && !loading && stream.None?
      ensures openCount == 0 && closed == {}
    {
      messages := [];
      isConnected := false;
      loading := false;
      stream := None;
      openCount := 0;
      closed := {};
    }

    /**
     * `handleConnect` up to its `await`: with both uids given, loading
     * starts and the history query is returned; with either uid empty,
     * nothing happens.
     */
    method BeginConnect(sourceUid: string, targetUid: string) returns (query: Option<map<string, Api.Param>>)
      modifies this
      requires Valid()
      ensures Valid()
      ensures query.Some? <==> sourceUid != "" && targetUid != ""
      ensures query.Some? ==> query.value == Api.MessagesQuery(sourceUid, targetUid, None, HistoryLimit) && loading
      ensures query.None? ==> loading == old(loading)
      ensures messages == old(messages) && isConnected == old(isConnected)
      ensures stream == old(stream) && openCount == old(openCount) && closed == old(closed)
    {
      if sourceUid == "" || targetUid == "" {
        return None;
      }
      loading := true;
      query := Some(Api.MessagesQuery(sourceUid, targetUid, None, HistoryLimit));
    }

    /**
     * `handleConnect` after its `await`. A loaded history replaces the list,
     * marks the view connected, closes the stream kept so far and opens a
     * new one whose `close` is kept. A failed load marks the view
     * disconnected and leaves list and streams alone. Loading ends on both
     * paths.
     */
    method FinishConnect(sourceUid: string, targetUid: string, outcome: Outcome<seq<Message>>)
      returns (started: Option<OpenedStream>)
      modifies this
      requires Valid()
      ensures Valid()
      ensures !loading
      ensures started.Some? <==> outcome.Resolved?
      ensures outcome.Resolved? ==>
        && messages == outcome.value
        && isConnected
        && started.value == OpenedStream(old(openCount), sourceUid, targetUid)
        && stream == Some(old(openCount))
        && openCount == old(openCount) + 1
        && closed == old(closed) + (if old(stream).Some? then {old(stream).value} else {})
      ensures outcome.Rejected? ==>
        && messages == old(messages)
        && !isConnected
        && stream == old(stream) && openCount == old(openCount) && closed == old(closed)
    {
      if outcome.Rejected? {
        isConnected := false;
        loading := false;
        return None;
      }
      messages := outcome.value;
      isConnected := true;
      if stream.Some? {
        closed := closed + {stream.value};
      }
      var h := openCount;
      openCount := openCount + 1;
      stream := Some(h);
      assert Live(openCount, closed) == {h} by {
        forall x | x in Live(openCount, closed) ensures x == h {
          assert x < h ==> x in Live(old(openCount), old(closed));
        }
      }
      started := Some(OpenedStream(h, sourceUid, targetUid));
      loading := false;
    }

    /**
     * The stream's message callback: a non-empty batch appends the messages
     * whose uid is not yet listed, in batch order; nothing else changes.
     */
    method OnStreamPayload(event: StreamEvent)
      modifies this
      requires Valid()
      ensures Valid()
      ensures messages == Merge(old(messages), event.messages)
      ensures isConnected == old(isConnected) && loading == old(loading)
      ensures stream == old(stream) && openCount == old(openCount) && closed == old(closed)
    {
      if |event.messages| > 0 {
        messages := Merge(messages, event.messages);
      } else {
        assert Merge(messages, []) == messages + [];
      }
    }

    /** The stream's error callback: the view is disconnected, the list is kept. */
    method OnStreamError()
      modifies this
      requires Valid()
      ensures Valid()
      ensures !isConnected
      ensures messages == old(messages) && loading == old(loading)
      ensures stream == old(stream) && openCount == old(openCount) && closed == old(closed)
    {
      isConnected := false;
    }

    /**
     * `handleDisconnect`: closes the kept stream if there is one and forgets
     * it, marks the view disconnected and empties the list. No stream is
     * open afterwards.
     */
    method Disconnect()
      modifies this
      requires Valid()
      ensures Valid()
      ensures stream.None? && !isConnected && messages == []
      ensures closed == old(closed) + (if old(stream).Some? then {old(stream).value} else {})
      ensures Live(openCount, closed) == {}
      ensures loading == old(loading) && openCount == old(openCount)
    {
      if stream.Some? {
        closed := closed + {stream.value};
        stream := None;
      }
      isConnected := false;
      messages := [];
    }
  }
}
