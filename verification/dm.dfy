/**
 * The direct-message page (src/app/dm/page.tsx): the thread reducer fed by
 * the event stream, the send protocol, and the throttled typing indicator.
 *
 * The page's React state becomes the fields of `DmPage`. State updaters
 * queued while one payload is handled run in order, so each step below sees
 * the list the previous step produced. The signed-in profile and the
 * character's profile uid are fixed for the lifetime of the page; the clock
 * is a parameter. Each awaited call is split in two: a `Begin` method that
 * runs up to the `await` and returns the request, and a `Finish` method that
 * is given the call's outcome.
 */
module Dm {
  import opened Types
  import opened Strings
  import opened Thread
  import Api

  /** Minimum spacing, in milliseconds, of two typing-indicator calls. */
  const TypingThrottleMs: int := 1000

  /** The page size of the history load. */
  const HistoryLimit: int := 50

  /** The body of `dmAPI.sendMessage`. */
  datatype SendRequest = SendRequest(sourceUid: string, targetUid: string, content: string)

  /** The body of `dmAPI.updateTyping`; `messageUid` is missing for an empty thread. */
  datatype TypingRequest = TypingRequest(sourceUid: string, targetUid: string, messageUid: Option<string>)

  /** `profileUid` is truthy: present and non-empty. */
  predicate HasProfile(profileUid: Option<string>): (r: bool)
    ensures r <==> profileUid !in {None, Some("")}
  {
    profileUid.Some? && profileUid.value != ""
  }

  /**
   * The uid of the last message of the thread, if there is one: absent
   * exactly for an empty thread, otherwise a uid the thread lists.
   */
  function LastUid(list: seq<Message>): (r: Option<string>)
    ensures r.None? <==> list == []
    ensures r.Some? ==> Known(list, r.value)
    ensures list != [] ==> r == Some(list[|list| - 1].uid)
  {
    if list == [] then None else Some(list[|list| - 1].uid)
  }

  /**
   * The typing flag a string `typing_ref` produces: true exactly when some
   * message of the character carries that uid and the character sent nothing
   * after it. A reference to an older message, to a message of the user, or
   * to nothing at all gives false.
   */
  function CharacterTyping(list: seq<Message>, characterUid: string, typingRef: string): (r: bool)
    ensures r <==> exists i ::
      && 0 <= i < |list|
      && list[i].uid == typingRef
      && list[i].sourceUid == characterUid
      && NoneFromAfter(list, characterUid, i)
  {
    LastFromIsLast(list, characterUid);
    match LastFrom(list, characterUid)
    case Some(m) => m.uid == typingRef
    case None => false
  }

  /** Messages of the user that arrive after the character's last one do not change the flag. */
  lemma UserMessagesKeepTyping(list: seq<Message>, tail: seq<Message>, characterUid: string, typingRef: string)
    requires forall i :: 0 <= i < |tail| ==> tail[i].sourceUid != characterUid
    ensures CharacterTyping(list + tail, characterUid, typingRef) == CharacterTyping(list, characterUid, typingRef)
  {
    LastFromIgnoresOthers(list, tail, characterUid);
  }

  /** A new message of the character always ends a typing flag that named an older one. */
  lemma NewCharacterMessageEndsTyping(list: seq<Message>, m: Message, characterUid: string)
    requires m.sourceUid == characterUid
    requires !Known(list, m.uid)
    ensures forall i :: 0 <= i < |list| ==> !CharacterTyping(list + [m], characterUid, list[i].uid)
  {
    var l := list + [m];
    forall i | 0 <= i < |list|
      ensures !CharacterTyping(l, characterUid, list[i].uid)
    {
      assert l[|list|] == m;
      assert forall k :: 0 <= k < |list| ==> !NoneFromAfter(l, characterUid, k);
      assert list[i].uid != m.uid;
    }
  }

  /**
   * The content `handleSendMessage` sends, or nothing when it returns
   * early: the input must hold a non-whitespace character, a profile must
   * be signed in and no send may be in progress. What is sent is the input
   * without its outer whitespace: non-empty, neither starting nor ending
   * with whitespace.
   */
  function SendContent(input: string, profileUid: Option<string>, sending: bool): (r: Option<string>)
    ensures r.Some? <==> (exists k :: 0 <= k < |input| && !IsWhitespace(input[k])) && HasProfile(profileUid) && !sending
    ensures r.Some? ==> r.value == Trim(input)
    ensures r.Some? ==> r.value != [] && !IsWhitespace(r.value[0]) && !IsWhitespace(r.value[|r.value| - 1])
  {
    TrimEmptyIff(input);
    TrimHasNoOuterWhitespace(input);
    if Trim(input) == [] || !HasProfile(profileUid) || sending then None else Some(Trim(input))
  }

  /** Issue times at least `TypingThrottleMs` apart, pairwise. */
  ghost predicate Spaced(times: seq<int>) {
    forall i, j :: 0 <= i < j < |times| ==> times[j] - times[i] >= TypingThrottleMs
  }

  /** A time far enough after the last issue keeps the issue times spaced. */
  lemma {:induction false} SpacedSnoc(times: seq<int>, t: int)
    requires Spaced(times)
    requires times != [] ==> t - times[|times| - 1] >= TypingThrottleMs
    ensures Spaced(times + [t])
  {
    var s := times + [t];
    forall i, j | 0 <= i < j < |s|
      ensures s[j] - s[i] >= TypingThrottleMs
    {
      if j == |times| && i < |times| - 1 {
        assert times[|times| - 1] - times[i] >= TypingThrottleMs;
      }
    }
  }

  class DmPage {
    /** `CHARACTER_CONFIG.PROFILE_UID`. */
    const characterUid: string
    /** The signed-in user's profile uid from the auth store. */
    const profileUid: Option<string>

    var messages: seq<Message>
    var inputValue: string
    var isTyping: bool
    var loading: bool
    var sending: bool
    /** `lastTypingTimeRef.current`. */
    var lastTypingTime: int
    /** The clock values at which typing calls were issued, oldest first. */
    ghost var issuedAt: seq<int>

    /** Typing calls were issued at spaced times and the last one is remembered. */
    ghost predicate Valid()
      reads this
    {
      && Spaced(issuedAt)
      && lastTypingTime == if issuedAt == [] then 0 else issuedAt[|issuedAt| - 1]
    }

    constructor (characterUid: string, profileUid: Option<string>)
      ensures Valid()
      ensures this.characterUid == characterUid && this.profileUid == profileUid
      ensures messages == [] && inputValue == "" && !isTyping && loading && !sending
      ensures lastTypingTime == 0 && issuedAt == []
    {
      this.characterUid := characterUid;
      this.profileUid := profileUid;
      messages := [];
      inputValue := "";
      isTyping := false;
      loading := true;
      sending := false;
      lastTypingTime := 0;
      issuedAt := [];
    }

    /**
     * The history request of `loadMessages`, or nothing when the page must
     * send the visitor to `/login` because no user or no profile is signed in.
     */
    function HistoryQuery(signedIn: bool): (r: Option<map<string, Api.Param>>)
      reads this
      ensures r.Some? <==> signedIn && HasProfile(profileUid)
      ensures r.Some? ==> "before_uid" !in r.value
      ensures r.Some? ==> "limit" in r.value && r.value["limit"] == Api.Number(HistoryLimit)
      ensures r.Some? ==> "source_uid" in r.value && r.value["source_uid"] == Api.Text(profileUid.value)
      ensures r.Some? ==> "target_uid" in r.value && r.value["target_uid"] == Api.Text(characterUid)
    {
      if signedIn && HasProfile(profileUid)
      then Some(Api.MessagesQuery(profileUid.value, characterUid, None, HistoryLimit))
      else None
    }

    /**
     * The end of `loadMessages`: the loaded history replaces the list, a
     * failed load keeps it, and loading is over either way.
     */
    method FinishLoad(outcome: Outcome<seq<Message>>)
      modifies this
      requires Valid()
      ensures Valid()
      ensures messages == if outcome.Resolved? then outcome.value else old(messages)
      ensures !loading
      ensures inputValue == old(inputValue) && isTyping == old(isTyping) && sending == old(sending)
      ensures lastTypingTime == old(lastTypingTime) && issuedAt == old(issuedAt)
    {
      if outcome.Resolved? {
        messages := outcome.value;
      }
      loading := false;
    }

    /**
     * `handleMessage`: a non-empty batch is merged by uid and hides the
     * typing indicator; then a `null` reference hides it and a string
     * reference shows it exactly when it names the character's last message
     * in the merged list.
     */
    method HandleMessage(event: StreamEvent)
      modifies this
      requires Valid()
      ensures Valid()
      ensures messages == Merge(old(messages), event.messages)
      ensures event.typingRef.Absent? ==> isTyping == (old(isTyping) && event.messages == [])
      ensures event.typingRef.Null? ==> !isTyping
      ensures event.typingRef.Ref? ==> isTyping == CharacterTyping(messages, characterUid, event.typingRef.uid)
      ensures inputValue == old(inputValue) && loading == old(loading) && sending == old(sending)
      ensures lastTypingTime == old(lastTypingTime) && issuedAt == old(issuedAt)
    {
      if |event.messages| > 0 {
        messages := Merge(messages, event.messages);
        isTyping := false;
      } else {
        assert Merge(messages, []) == messages + [];
      }
      match event.typingRef
      case Absent =>
      case Null =>
        isTyping := false;
      case Ref(uid) =>
        isTyping := CharacterTyping(messages, characterUid, uid);
    }

    /**
     * `sendTypingIndicator`: with a profile and at least `TypingThrottleMs`
     * since the last call, records `now` and issues a call naming the last
     * message of the thread; otherwise does nothing.
     */
    method SendTypingIndicator(now: int) returns (request: Option<TypingRequest>)
      modifies this
      requires Valid()
      ensures Valid()
      ensures request.Some? <==> HasProfile(profileUid) && now - old(lastTypingTime) >= TypingThrottleMs
      ensures request.Some? ==> request.value == TypingRequest(profileUid.value, characterUid, LastUid(messages))
      ensures request.Some? ==> lastTypingTime == now && issuedAt == old(issuedAt) + [now]
      ensures request.None? ==> lastTypingTime == old(lastTypingTime) && issuedAt == old(issuedAt)
      ensures messages == old(messages) && inputValue == old(inputValue) && isTyping == old(isTyping)
      ensures loading == old(loading) && sending == old(sending)
    {
      if !HasProfile(profileUid) {
        return None;
      }
      if now - lastTypingTime < TypingThrottleMs {
        return None;
      }
      SpacedSnoc(issuedAt, now);
      lastTypingTime := now;
      issuedAt := issuedAt + [now];
      request := Some(TypingRequest(profileUid.value, characterUid, LastUid(messages)));
    }

    /**
     * `handleInputChange`: the input takes the new value, and a typing call
     * is attempted only for a non-empty value.
     */
    method HandleInputChange(value: string, now: int) returns (request: Option<TypingRequest>)
      modifies this
      requires Valid()
      ensures Valid()
      ensures inputValue == value
      ensures request.Some? <==> |value| > 0 && HasProfile(profileUid) && now - old(lastTypingTime) >= TypingThrottleMs
      ensures request.Some? ==> request.value == TypingRequest(profileUid.value, characterUid, LastUid(messages))
      ensures request.Some? ==> lastTypingTime == now && issuedAt == old(issuedAt) + [now]
      ensures request.None? ==> lastTypingTime == old(lastTypingTime) && issuedAt == old(issuedAt)
      ensures messages == old(messages) && isTyping == old(isTyping)
      ensures loading == old(loading) && sending == old(sending)
    {
      inputValue := value;
      if |value| > 0 {
        request := SendTypingIndicator(now);
      } else {
        request := None;
      }
    }

    /**
     * `handleSendMessage` up to its `await`: unless the guard returns early,
     * the trimmed input is sent, the input is cleared and a send is in
     * progress. An early return changes nothing.
     */
    method BeginSend() returns (request: Option<SendRequest>)
      modifies this
      requires Valid()
      ensures Valid()
      ensures request.Some? <==> SendContent(old(inputValue), profileUid, old(sending)).Some?
      ensures request.Some? ==> request.value == SendRequest(profileUid.value, characterUid, Trim(old(inputValue)))
      ensures request.Some? ==> inputValue == "" && sending
      ensures request.None? ==> inputValue == old(inputValue) && sending == old(sending)
      ensures messages == old(messages) && isTyping == old(isTyping) && loading == old(loading)
      ensures lastTypingTime == old(lastTypingTime) && issuedAt == old(issuedAt)
    {
      var content := SendContent(inputValue, profileUid, sending);
      if content.None? {
        return None;
      }
      inputValue := "";
      sending := true;
      request := Some(SendRequest(profileUid.value, characterUid, content.value));
    }

    /**
     * `handleSendMessage` after its `await`: the returned message is
     * appended to the current list without a uid check; a failure puts the
     * sent content back into the input. Either way the send is over.
     */
    method FinishSend(request: SendRequest, outcome: Outcome<Message>)
      modifies this
      requires Valid()
      ensures Valid()
      ensures messages == if outcome.Resolved? then old(messages) + [outcome.value] else old(messages)
      ensures inputValue == if outcome.Resolved? then old(inputValue) else request.content
      ensures !sending
      ensures isTyping == old(isTyping) && loading == old(loading)
      ensures lastTypingTime == old(lastTypingTime) && issuedAt == old(issuedAt)
    {
      if outcome.Resolved? {
        messages := messages + [outcome.value];
      } else {
        inputValue := request.content;
      }
      sending := false;
    }
  }
}
