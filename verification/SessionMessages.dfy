/** The messages a caller reads out of a conversation chain. */
module SessionMessages {
  import opened Wrappers
  import opened Json
  import opened Transcript

  datatype SessionMessage = SessionMessage(kind: string, uuid: string, sessionId: string, message: Value)

  function ToMessage(e: Value, sessionId: string): Option<SessionMessage> {
    if Kind(e).Some? && Uuid(e).Some? then
      var message := Get(e, "message");
      Some(SessionMessage(Kind(e).value, Uuid(e).value, sessionId, if message.Some? then message.value else Null))
    else None
  }

  /** The visible entries of a chain, as messages. */
  function ReadMessages(chain: Entries, sessionId: string): seq<SessionMessage> {
    if chain == [] then []
    else
      var rest := ReadMessages(chain[1..], sessionId);
      if IsVisible(chain[0]) && ToMessage(chain[0], sessionId).Some?
      then [ToMessage(chain[0], sessionId).value] + rest else rest
  }
}
