// Actors, message ids and mailbox elements as the load balancer sees them.
module Mailbox {

  datatype Option<+T> = None | Some(value: T)

  datatype Actor = Actor(id: nat)

  // The three forms of a message id; every form carries the priority.
  datatype MessageId =
    | Async(urgent: bool)
    | Request(number: nat, urgent: bool)
    | Response(number: nat, urgent: bool)
  {
    // The id of the answer to a request; anything else gets an async id of the same priority.
    function ResponseId(): MessageId {
      if Request? then Response(number, urgent) else Async(urgent)
    }
  }

  datatype Content =
    | Body(text: string)
    | ExitMsg
    | DownMsg(source: Actor)
    | Put(worker: Actor)
    | Delete(worker: Actor)
    | DeleteAll
    | Get

  datatype Mail = Mail(sender: Option<Actor>, mid: MessageId, content: Content)

  function Listed<T>(x: Option<T>): seq<T> {
    if x.Some? then [x.value] else []
  }
}
