// The load-balancing router: filter, reply, policy, relay. `Step` is one atomic `enqueue`.
module Router {
  import opened Mailbox
  import Policy

  // Who is waiting for the answer to a relayed message, and under which id.
  datatype Ticket = Ticket(responseId: MessageId, responseTo: Option<Actor>)

  const NO_TICKET := Ticket(Async(false), None)

  datatype Proxy = Proxy(lastRequest: nat, tickets: map<MessageId, Ticket>)

  datatype State = State(workers: seq<Actor>, loads: map<Actor, nat>, policy: Policy.State, proxy: Proxy, alive: bool)

  datatype Send =
    | ToWorker(worker: Actor, mid: MessageId, content: Content)
    | ToClient(to: Actor, mid: MessageId, content: Content)
    | EmptyReply(to: Actor, mid: MessageId)
    | WorkerList(to: Actor, mid: MessageId, workers: seq<Actor>)
    | ExitTo(worker: Actor)

  datatype Outcome = Outcome(state: State, sends: seq<Send>)

  function Initial(threshold: nat): State {
    State([], map[], Policy.Initial(threshold), Proxy(0, map[]), true)
  }

  predicate Distinct(workers: seq<Actor>) {
    forall i, j | 0 <= i < j < |workers| :: workers[i] != workers[j]
  }

  // Registered workers are distinct and each has a load entry.
  predicate Valid(s: State) {
    Distinct(s.workers) && forall a | a in s.workers :: a in s.loads
  }

  function LoadList(s: State): (r: seq<nat>)
    requires Valid(s)
    ensures |r| == |s.workers| && forall i | 0 <= i < |r| :: r[i] == s.loads[s.workers[i]]
  {
    seq(|s.workers|, i requires 0 <= i < |s.workers| => s.loads[s.workers[i]])
  }

  // --- membership of the pool -------------------------------------------------------------

  function Without(workers: seq<Actor>, a: Actor): (r: seq<Actor>)
    ensures forall x :: x in r ==> x in workers
    ensures Distinct(workers) ==> Distinct(r) && forall x :: x in r <==> x in workers && x != a
  {
    if workers == [] then []
    else if workers[0] == a then
      assert Distinct(workers) ==> forall x | x in workers[1..] :: x != a;
      assert forall x | x in workers :: x == a || x in workers[1..];
      workers[1..]
    else
      var rest := Without(workers[1..], a);
      assert Distinct(workers) ==> Distinct(workers[1..]) && forall x | x in workers[1..] :: x != workers[0];
      assert forall i | 0 <= i < |rest| :: rest[i] in workers[1..];
      assert forall x :: x in workers <==> x == workers[0] || x in workers[1..];
      [workers[0]] + rest
  }

  lemma {:induction false} WithoutFirst(workers: seq<Actor>, i: nat)
    requires i < |workers| && forall j | 0 <= j < i :: workers[j] != workers[i]
    ensures Without(workers, workers[i]) == workers[..i] + workers[i + 1..]
    decreases |workers|
  {
    if i > 0 {
      assert workers[0] != workers[i];
      forall j | 0 <= j < i - 1
        ensures workers[1..][j] != workers[1..][i - 1]
      {
        assert workers[j + 1] != workers[i];
      }
      WithoutFirst(workers[1..], i - 1);
      assert workers[..i] == [workers[0]] + workers[1..][..i - 1];
      assert workers[1..][i..] == workers[i + 1..];
    }
  }

  function Add(s: State, a: Actor): State {
    if a in s.workers then s
    else s.(workers := s.workers + [a], loads := if a in s.loads then s.loads else s.loads[a := 0])
  }

  function Remove(s: State, a: Actor): State {
    if a in s.workers then s.(workers := Without(s.workers, a), loads := s.loads - {a}) else s
  }

  // --- answers and placements ---------------------------------------------------------------

  // Only requests need an answer.
  function TicketFor(mail: Mail): Ticket {
    if mail.mid != mail.mid.ResponseId() then Ticket(mail.mid.ResponseId(), mail.sender) else NO_TICKET
  }

  // `--load` on a 64-bit counter.
  function Decrement(load: nat): nat {
    (load + Policy.SIZE_MODULUS - 1) % Policy.SIZE_MODULUS
  }

  // A worker's answer: lower its load, use up the ticket, pass the answer on if the worker is registered.
  function Answer(s: State, from: Actor, mid: MessageId, content: Content): Outcome {
    var load := if from in s.loads then s.loads[from] else 0;
    var ticket := if mid in s.proxy.tickets && from in s.workers then s.proxy.tickets[mid] else NO_TICKET;
    Outcome(s.(loads := s.loads[from := Decrement(load)], proxy := s.proxy.(tickets := s.proxy.tickets - {mid})),
            if ticket.responseTo.Some? then [ToClient(ticket.responseTo.value, ticket.responseId, content)] else [])
  }

  // Run the policy on the new mail, if any, and relay what it hands out under a fresh request id.
  function Dispatch(s: State, mail: Option<Mail>): Outcome
    requires Valid(s)
    requires Policy.HasMail(s.policy, mail) ==> s.workers != []
  {
    var p := Policy.Place(s.policy, LoadList(s), mail);
    if p.choice.None? then Outcome(s.(policy := p.state), [])
    else
      var worker := s.workers[p.choice.value.worker];
      var out := p.choice.value.mail;
      var number := s.proxy.lastRequest + 1;
      var id := Request(number, out.mid.urgent);
      var key := id.ResponseId();
      var tickets := if key in s.proxy.tickets then s.proxy.tickets else s.proxy.tickets[key := TicketFor(out)];
      Outcome(s.(policy := p.state, loads := s.loads[worker := s.loads[worker] + 1], proxy := Proxy(number, tickets)),
              [ToWorker(worker, id, out.content)])
  }

  // A dispatch, read off the policy's choice.
  lemma DispatchFollowsPolicy(s: State, mail: Option<Mail>)
    requires Valid(s) && (Policy.HasMail(s.policy, mail) ==> s.workers != [])
    ensures var p := Policy.Place(s.policy, LoadList(s), mail);
            var d := Dispatch(s, mail);
            if p.choice.None? then d == Outcome(s.(policy := p.state), [])
            else
              var worker, out := s.workers[p.choice.value.worker], p.choice.value.mail;
              var key := Response(s.proxy.lastRequest + 1, out.mid.urgent);
              && d.state == s.(policy := p.state, loads := s.loads[worker := s.loads[worker] + 1],
                               proxy := Proxy(s.proxy.lastRequest + 1,
                                              if key in s.proxy.tickets then s.proxy.tickets else s.proxy.tickets[key := TicketFor(out)]))
              && d.sends == [ToWorker(worker, Request(s.proxy.lastRequest + 1, out.mid.urgent), out.content)]
  {
    Policy.PlaceLeast(s.policy, LoadList(s), mail);
  }

  // --- one call -------------------------------------------------------------------------------

  predicate IsAnswer(m: Mail) {
    m.content.Body? && m.mid.Response?
  }

  // A request nobody could serve is answered at once with an empty message.
  predicate Rejected(s: State, m: Mail) {
    m.content.Body? && m.mid.Request? && m.sender.Some? && s.workers == []
  }

  // What the code takes for granted: answers and worker-list queries have a sender, and there
  // is a worker whenever there is mail to place (a remainder by the worker count is taken).
  predicate Acceptable(s: State, m: Mail) {
    && (m.content.Get? ==> m.sender.Some?)
    && (IsAnswer(m) ==> m.sender.Some? && (s.policy.mails != [] ==> s.workers != []))
    && (m.content.Body? && !IsAnswer(m) && !Rejected(s, m) ==> s.workers != [])
  }

  function Step(s: State, m: Mail): Outcome
    requires Valid(s) && Acceptable(s, m)
  {
    match m.content
    case ExitMsg =>
      if s.alive then Outcome(s.(workers := [], loads := map[], alive := false), Exits(s.workers)) else Outcome(s, [])
    case DownMsg(source) =>
      var r := Remove(s, source);
      Outcome(r.(alive := r.alive && r.workers != []), [])
    case Put(worker) => Outcome(Add(s, worker), [])
    case Delete(worker) => Outcome(Remove(s, worker), [])
    case DeleteAll => Outcome(s.(workers := [], loads := map[]), [])
    case Get => Outcome(s, [WorkerList(m.sender.value, m.mid.ResponseId(), s.workers)])
    case Body(_) =>
      if Rejected(s, m) then Outcome(s, [EmptyReply(m.sender.value, m.mid.ResponseId())])
      else if IsAnswer(m) then
        var a := Answer(s, m.sender.value, m.mid, m.content);
        var d := Dispatch(a.state, None);
        Outcome(d.state, a.sends + d.sends)
      else Dispatch(s, Some(m))
  }

  function Exits(workers: seq<Actor>): seq<Send> {
    seq(|workers|, i requires 0 <= i < |workers| => ExitTo(workers[i]))
  }

  // --- the router object and its parts ----------------------------------------------------------

  class ProxyObject {
    var lastRequest: nat
    var tickets: map<MessageId, Ticket>

    ghost function Value(): Proxy
      reads this
    {
      Proxy(lastRequest, tickets)
    }

    constructor ()
      ensures Value() == Proxy(0, map[])
    {
      lastRequest := 0;
      tickets := map[];
    }

    method AllocateRequestId(mail: Mail) returns (id: MessageId)
      modifies this`lastRequest
      ensures lastRequest == old(lastRequest) + 1 && id == Request(lastRequest, mail.mid.urgent)
    {
      lastRequest := lastRequest + 1;
      id := if mail.mid.urgent then Request(lastRequest, true) else Request(lastRequest, false);
    }

    method PlaceTicket(mail: Mail) returns (id: MessageId)
      modifies this
      ensures lastRequest == old(lastRequest) + 1 && id == Request(lastRequest, mail.mid.urgent)
      ensures tickets == if id.ResponseId() in old(tickets) then old(tickets) else old(tickets)[id.ResponseId() := TicketFor(mail)]
    {
      id := AllocateRequestId(mail);
      var ticket := TicketFor(mail);
      if id.ResponseId() !in tickets {
        tickets := tickets[id.ResponseId() := ticket];
      }
    }

    // The ticket is gone whether or not its worker is still registered.
    method ExtractTicket(mid: MessageId, from: Actor, workers: seq<Actor>) returns (ticket: Ticket)
      modifies this`tickets
      ensures tickets == old(tickets) - {mid}
      ensures ticket == if mid in old(tickets) && from in workers then old(tickets)[mid] else NO_TICKET
    {
      if mid !in tickets {
        assert tickets - {mid} == tickets;
        return NO_TICKET;
      }
      if from !in workers {
        tickets := tickets - {mid};
        return NO_TICKET;
      }
      ticket := tickets[mid];
      tickets := tickets - {mid};
    }

    method Relay(mail: Mail, worker: Actor) returns (sends: seq<Send>)
      modifies this
      ensures lastRequest == old(lastRequest) + 1
      ensures var key := Response(lastRequest, mail.mid.urgent);
              tickets == if key in old(tickets) then old(tickets) else old(tickets)[key := TicketFor(mail)]
      ensures sends == [ToWorker(worker, Request(lastRequest, mail.mid.urgent), mail.content)]
    {
      var id := PlaceTicket(mail);
      sends := [ToWorker(worker, id, mail.content)];
    }

    method Reply(mid: MessageId, from: Actor, content: Content, workers: seq<Actor>) returns (sends: seq<Send>)
      modifies this`tickets
      ensures tickets == old(tickets) - {mid}
      ensures var ticket := if mid in old(tickets) && from in workers then old(tickets)[mid] else NO_TICKET;
              sends == if ticket.responseTo.Some? then [ToClient(ticket.responseTo.value, ticket.responseId, content)] else []
    {
      var ticket := ExtractTicket(mid, from, workers);
      sends := [];
      if ticket.responseTo.Some? {
        sends := [ToClient(ticket.responseTo.value, ticket.responseId, content)];
      }
    }
  }

  class RouterObject {
    var workers: seq<Actor>
    var metrics: map<Actor, nat>
    const proxy: ProxyObject
    const policy: Policy.MinLoad
    var alive: bool

    ghost function Value(): State
      reads this, proxy, policy
    {
      State(workers, metrics, policy.Value(), proxy.Value(), alive)
    }

    constructor (threshold: nat)
      ensures fresh(proxy) && fresh(policy) && Value() == Initial(threshold)
    {
      workers := [];
      metrics := map[];
      proxy := new ProxyObject();
      policy := new Policy.MinLoad(threshold);
      alive := true;
    }

    method AddWorker(worker: Actor)
      modifies this`workers, this`metrics
      ensures Value() == Add(old(Value()), worker)
    {
      if worker in workers {
        return;
      }
      workers := workers + [worker];
      if worker !in metrics {
        metrics := metrics[worker := 0];
      }
    }

    // Erases the first occurrence, like `erase(find(...))`.
    method Erase(worker: Actor)
      requires worker in workers
      modifies this`workers, this`metrics
      ensures workers == Without(old(workers), worker) && metrics == old(metrics) - {worker}
    {
      var i := 0;
      while workers[i] != worker
        invariant 0 <= i < |workers|
        invariant forall j | 0 <= j < i :: workers[j] != worker
        decreases |workers| - i
      {
        ghost var j :| 0 <= j < |workers| && workers[j] == worker;
        i := i + 1;
      }
      WithoutFirst(workers, i);
      workers := workers[..i] + workers[i + 1..];
      metrics := metrics - {worker};
    }

    method DeleteWorker(worker: Actor)
      modifies this`workers, this`metrics
      ensures Value() == Remove(old(Value()), worker)
    {
      if worker in workers {
        Erase(worker);
      }
    }

    method ClearWorker()
      modifies this`workers, this`metrics
      ensures Value() == old(Value()).(workers := [], loads := map[])
    {
      workers := [];
      metrics := map[];
    }

    method Down(source: Actor)
      modifies this`workers, this`metrics, this`alive
      ensures var r := Remove(old(Value()), source);
              Value() == r.(alive := r.alive && r.workers != [])
    {
      if source in workers {
        Erase(source);
      }
      if workers == [] {
        alive := false;
      }
    }

    method Exit() returns (sends: seq<Send>)
      modifies this`workers, this`metrics, this`alive
      ensures Value() == if old(alive) then old(Value()).(workers := [], loads := map[], alive := false) else old(Value())
      ensures sends == if old(alive) then Exits(old(workers)) else []
    {
      sends := [];
      if alive {
        alive := false;
        var i := 0;
        while i < |workers|
          invariant 0 <= i <= |workers|
          invariant sends == Exits(workers)[..i]
        {
          sends := sends + [ExitTo(workers[i])];
          i := i + 1;
        }
        workers := [];
        metrics := map[];
      }
    }

    method GetMetrics() returns (loads: seq<nat>)
      requires Valid(Value())
      ensures loads == LoadList(Value())
    {
      loads := [];
      var i := 0;
      while i < |workers|
        invariant 0 <= i <= |workers|
        invariant loads == LoadList(Value())[..i]
      {
        loads := loads + [metrics[workers[i]]];
        i := i + 1;
      }
    }

    // True when the mail was a control message or had to be turned away.
    method Filter(m: Mail) returns (handled: bool, sends: seq<Send>)
      requires Valid(Value()) && (m.content.Get? ==> m.sender.Some?)
      modifies this`workers, this`metrics, this`alive
      ensures handled <==> !m.content.Body? || Rejected(old(Value()), m)
      ensures handled ==> Value() == Step(old(Value()), m).state && sends == Step(old(Value()), m).sends
      ensures !handled ==> Value() == old(Value()) && sends == []
    {
      handled, sends := true, [];
      match m.content {
        case ExitMsg => sends := Exit();
        case DownMsg(source) => Down(source);
        case Put(worker) => AddWorker(worker);
        case Delete(worker) => DeleteWorker(worker);
        case DeleteAll => ClearWorker();
        case Get => sends := [WorkerList(m.sender.value, m.mid.ResponseId(), workers)];
        case Body(_) =>
          if m.mid.Request? && m.sender.Some? && workers == [] {
            sends := [EmptyReply(m.sender.value, m.mid.ResponseId())];
          } else {
            handled := false;
          }
      }
    }

    method Enqueue(m: Mail) returns (sends: seq<Send>)
      requires Valid(Value()) && Acceptable(Value(), m)
      modifies this, proxy, policy
      ensures Value() == Step(old(Value()), m).state
      ensures sends == Step(old(Value()), m).sends
    {
      ghost var before := Value();
      var handled;
      handled, sends := Filter(m);
      if handled {
        return;
      }
      if m.mid.Response? {
        sends := TakeAnswer(m);
        var relayed := RunPolicy(None);
        sends := sends + relayed;
      } else {
        sends := RunPolicy(Some(m));
      }
    }

    method TakeAnswer(m: Mail) returns (sends: seq<Send>)
      requires m.sender.Some?
      modifies this`metrics, proxy`tickets
      ensures var a := Answer(old(Value()), m.sender.value, m.mid, m.content);
              Value() == a.state && sends == a.sends
    {
      var from := m.sender.value;
      var load := if from in metrics then metrics[from] else 0;
      metrics := metrics[from := Decrement(load)];
      sends := proxy.Reply(m.mid, from, m.content, workers);
    }

    method RunPolicy(mail: Option<Mail>) returns (sends: seq<Send>)
      requires Valid(Value()) && (Policy.HasMail(policy.Value(), mail) ==> workers != [])
      modifies this`metrics, proxy, policy
      ensures var d := Dispatch(old(Value()), mail);
              Value() == d.state && sends == d.sends
    {
      ghost var before := Value();
      var to, next := AskPolicy(mail);
      sends := [];
      if to.Some? && next.Some? {
        sends := RelayTo(to.value, next.value);
      }
      DispatchFollowsPolicy(before, mail);
    }

    method AskPolicy(mail: Option<Mail>) returns (to: Option<Actor>, next: Option<Mail>)
      requires Valid(Value()) && (Policy.HasMail(policy.Value(), mail) ==> workers != [])
      modifies policy
      ensures var p := Policy.Place(old(policy.Value()), LoadList(old(Value())), mail);
              && Value() == old(Value()).(policy := p.state)
              && (if p.choice.Some? then to == Some(workers[p.choice.value.worker]) && next == Some(p.choice.value.mail)
                  else to == None && next == None)
    {
      var loads := GetMetrics();
      to, next := policy.Call(workers, loads, mail);
    }

    method RelayTo(worker: Actor, mail: Mail) returns (sends: seq<Send>)
      requires worker in metrics
      modifies this`metrics, proxy
      ensures var number := old(proxy.lastRequest) + 1;
              var key := Response(number, mail.mid.urgent);
              && Value() == old(Value()).(
                   loads := old(metrics)[worker := old(metrics)[worker] + 1],
                   proxy := Proxy(number,
                                  if key in old(proxy.tickets) then old(proxy.tickets) else old(proxy.tickets)[key := TicketFor(mail)]))
              && sends == [ToWorker(worker, Request(number, mail.mid.urgent), mail.content)]
    {
      metrics := metrics[worker := metrics[worker] + 1];
      sends := proxy.Relay(mail, worker);
    }
  }
}
