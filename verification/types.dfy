/**
 * The records the client exchanges with the backend (src/types/api.ts), and
 * the two small wrappers used to abstract outcomes of calls the model does
 * not perform itself.
 */
module Types {

  /** A value that may be missing (`undefined` / `null` on the wire). */
  datatype Option<+T> = None | Some(value: T)

  /**
   * The outcome of an awaited backend call: it resolved with a value, or it
   * rejected. Network calls are not performed by the model; their outcome
   * is an input.
   */
  datatype Outcome<+T> = Resolved(value: T) | Rejected

  /** One direct message of a thread. */
  datatype Message = Message(
    uid: string,
    sourceUid: string,
    targetUid: string,
    content: string,
    created: string)

  /**
   * The `typing_ref` field of a stream payload: the field is missing, it is
   * `null`, or it is a string naming a message uid.
   */
  datatype TypingRef = Absent | Null | Ref(uid: string)

  /**
   * A decoded stream payload `{messages?, typing_ref?}`. A missing
   * `messages` array behaves like an empty one, so both are `[]`.
   */
  datatype StreamEvent = StreamEvent(messages: seq<Message>, typingRef: TypingRef)

  datatype User = User(uid: string, email: string, username: string, isAdmin: bool)

  datatype Universe = Universe(uid: string, name: string, description: string)

  datatype World = World(uid: string, universeUid: string)

  datatype Character = Character(uid: string, name: string, personality: string)

  datatype Life = Life(uid: string, characterUid: string, worldUid: string, profileUid: string)

  datatype Profile = Profile(uid: string, ownerUid: string, ownerType: string, name: string)
}
