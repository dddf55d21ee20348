/** Values shared by every component of the sync engine: the error wrappers, the chat and
    message records that the Telegram layer produces and the store consumes. */
module Common {

  datatype Option<+T> = None | Some(value: T) {
    /** `unwrap_or`: the wrapped value, or `default` when there is none. */
    function GetOr(default: T): T {
      match this
      case Some(v) => v
      case None => default
    }
  }

  /** A fallible result; the error carries the text the library would print. */
  datatype Result<+T> = Ok(value: T) | Err(error: string)

  /** The two dialog kinds the engine keeps (private chats are skipped). */
  datatype ChatKind = Group | Channel

  /** A chat as discovered by the dialog refresh; `peerId` is its identity everywhere. */
  datatype ChatInfo = ChatInfo(
    peerId: string,
    title: string,
    kind: ChatKind,
    tgId: int,
    accessHash: Option<int>)

  /** One converted history message. */
  datatype MessageInfo = MessageInfo(msgId: int, date: int, text: string)

  /** No two messages of `s` share an id. */
  predicate DistinctIds(s: seq<MessageInfo>) {
    forall i, j :: 0 <= i < j < |s| ==> s[i].msgId != s[j].msgId
  }

  /** Ids strictly increase along `s`. */
  predicate StrictlyIncreasing(s: seq<MessageInfo>) {
    forall i, j :: 0 <= i < j < |s| ==> s[i].msgId < s[j].msgId
  }
}
