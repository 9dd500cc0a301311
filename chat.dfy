/** The chat-completion message shared by the batch paraphrase requests and
    the local classifier requests. */
module Chat {
  /** One `{"role": ..., "content": ...}` entry of a `messages` list. */
  datatype Message = Message(role: string, content: string)

  /** The single user turn both request kinds send. */
  function UserTurn(content: string): (ms: seq<Message>)
    ensures |ms| == 1 && ms[0].role == "user" && ms[0].content == content
  {
    [Message("user", content)]
  }
}
