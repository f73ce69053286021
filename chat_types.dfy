/** Values exchanged by the chat relay of chat/server.js: user records,
    chat messages, the three errors the HTTP handlers report, and the
    option/result wrappers used in place of `undefined` and error replies. */
module ChatTypes {

  /** A registered user, `{ username, id }`; the id is the decimal text of
      the clock reading taken at registration. */
  datatype User = User(username: string, id: string)

  /** A chat message `{ fromId, toId, text, timestamp }`; the timestamp is
      epoch milliseconds assigned by the server when the message arrives. */
  datatype Message = Message(fromId: string, toId: string, text: string, timestamp: int)

  /** The error replies of `/register` and `/login`. */
  datatype Error = UsernameRequired | UsernameExists | UserNotFound {
    /** The `error` text of the reply body. */
    function Text(): string {
      match this
      case UsernameRequired => "Username required"
      case UsernameExists => "Username exists"
      case UserNotFound => "User not found"
    }
  }

  datatype Option<+T> = None | Some(value: T)

  datatype Result<+T> = Ok(value: T) | Err(error: Error)
}
