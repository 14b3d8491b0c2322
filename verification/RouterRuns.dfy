// Whole runs of the router: what was accepted, relayed, answered and replied, and what every
// run keeps. The environment answers each relayed message at most once and never registers a
// worker again after it was removed.
module RouterRuns {
  import opened Mailbox
  import Policy
  import opened Router
  import Steps

  datatype Relay = Relay(worker: Actor, id: MessageId, content: Content)

  // A reply sent to a client; `index` is the relay whose answer it passes on.
  datatype Reply = Reply(index: nat, to: Actor, mid: MessageId, content: Content)

  datatype World = World(
    router: State,
    arrivals: seq<Mail>,           // mail handed to the policy, in order
    relays: seq<Relay>,            // messages sent to workers, in order
    answers: map<nat, Content>,    // answered relays, by index
    live: set<nat>,                // those answered while their worker was registered
    replies: seq<Reply>,
    removed: set<Actor>)           // workers that were registered once and are no more

  function Start(threshold: nat): World {
    World(Initial(threshold), [], [], map[], {}, [], {})
  }

  function RelaysIn(sends: seq<Send>): seq<Relay>
    decreases |sends|
  {
    if sends == [] then []
    else (if sends[0].ToWorker? then [Relay(sends[0].worker, sends[0].mid, sends[0].content)] else []) + RelaysIn(sends[1..])
  }

  function RepliesIn(sends: seq<Send>, index: nat): seq<Reply>
    decreases |sends|
  {
    if sends == [] then []
    else (if sends[0].ToClient? then [Reply(index, sends[0].to, sends[0].mid, sends[0].content)] else [])
         + RepliesIn(sends[1..], index)
  }

  function Members(workers: seq<Actor>): set<Actor> {
    set a | a in workers
  }

  // The relay an answer belongs to: ids are handed out from 1.
  function IndexOf(m: Mail): nat
    requires IsAnswer(m)
  {
    if m.mid.number == 0 then 0 else m.mid.number - 1
  }

  predicate Legal(w: World, m: Mail) {
    && Acceptable(w.router, m)
    && (m.content.Put? ==> m.content.worker !in w.removed)
    && (IsAnswer(m) ==>
          var i := IndexOf(m);
          i < |w.relays| && i !in w.answers && m.mid == w.relays[i].id.ResponseId() && m.sender == Some(w.relays[i].worker))
  }

  // --- one step -----------------------------------------------------------------------------

  function TakeAnswer(w: World, m: Mail): World
    requires IsAnswer(m) && m.sender.Some?
  {
    var a := Answer(w.router, m.sender.value, m.mid, m.content);
    var i := IndexOf(m);
    w.(router := a.state,
       answers := w.answers[i := m.content],
       live := if m.sender.value in w.router.workers then w.live + {i} else w.live,
       replies := w.replies + RepliesIn(a.sends, i))
  }

  function Place(w: World, mail: Option<Mail>): World
    requires Valid(w.router)
    requires Policy.HasMail(w.router.policy, mail) ==> w.router.workers != []
  {
    var d := Dispatch(w.router, mail);
    w.(router := d.state, arrivals := w.arrivals + Listed(mail), relays := w.relays + RelaysIn(d.sends))
  }

  function Control(w: World, m: Mail): World
    requires Valid(w.router) && Acceptable(w.router, m)
  {
    var s := Step(w.router, m).state;
    w.(router := s, removed := w.removed + (Members(w.router.workers) - Members(s.workers)))
  }

  function Advance(w: World, m: Mail): World
    requires Valid(w.router) && Acceptable(w.router, m)
  {
    if !m.content.Body? || Rejected(w.router, m) then Control(w, m)
    else if IsAnswer(m) then Place(TakeAnswer(w, m), None)
    else Place(w, Some(m))
  }

  /** The history kept in a world is what one `Step` of the router does and sends. */
  lemma AdvanceIsStep(w: World, m: Mail)
    requires Valid(w.router) && Acceptable(w.router, m)
    ensures var o := Step(w.router, m);
            && Advance(w, m).router == o.state
            && Advance(w, m).relays == w.relays + RelaysIn(o.sends)
            && Advance(w, m).replies == w.replies + RepliesIn(o.sends, if IsAnswer(m) then IndexOf(m) else 0)
  {
    var o := Step(w.router, m);
    if !m.content.Body? || Rejected(w.router, m) {
      ControlSends(w.router, m);
      NothingIn(o.sends, 0);
    } else if IsAnswer(m) {
      var a := Answer(w.router, m.sender.value, m.mid, m.content);
      var d := Dispatch(a.state, None);
      InAppend(a.sends, d.sends, IndexOf(m));
    } else {
      var d := Dispatch(w.router, Some(m));
      InAppend([], d.sends, 0);
      assert [] + d.sends == d.sends;
    }
  }

  lemma ControlSends(r: State, m: Mail)
    requires Valid(r) && Acceptable(r, m) && (!m.content.Body? || Rejected(r, m))
    ensures forall x | x in Step(r, m).sends :: !x.ToWorker? && !x.ToClient?
  {
  }

  lemma {:induction false} NothingIn(sends: seq<Send>, index: nat)
    requires forall x | x in sends :: !x.ToWorker? && !x.ToClient?
    ensures RelaysIn(sends) == [] && RepliesIn(sends, index) == []
    decreases |sends|
  {
    if sends != [] {
      NothingIn(sends[1..], index);
    }
  }

  lemma InAppend(a: seq<Send>, b: seq<Send>, index: nat)
    requires |a| <= 1 && |b| <= 1
    requires forall x | x in a :: x.ToClient?
    requires forall x | x in b :: x.ToWorker?
    ensures RelaysIn(a + b) == RelaysIn(b)
    ensures RepliesIn(a + b, index) == RepliesIn(a, index)
  {
    assert b == [] || (b[0] in b && b[1..] == []);
    assert RelaysIn(b[|b|..]) == [] && RepliesIn(b, index) == [];
    if a == [] {
      assert a + b == b;
    } else {
      assert a[0] in a && a[1..] == [] && (a + b)[1..] == b;
    }
  }

  // --- what every run keeps --------------------------------------------------------------------

  // Registered, removed and relayed-to workers.
  ghost predicate Pooled(w: World) {
    && Valid(w.router)
    && w.router.policy.threshold < Policy.SIZE_MODULUS
    && (forall a | a in w.router.workers :: a !in w.removed)
    && (forall a | a in w.router.loads :: a in w.router.workers || a in w.removed)
    && (forall i | 0 <= i < |w.relays| :: w.relays[i].worker in w.router.workers || w.relays[i].worker in w.removed)
  }

  // Relay `i` carries arrival `i`, under request number i + 1.
  predicate RelayRight(w: World, i: nat)
    requires i < |w.relays| && i < |w.arrivals|
  {
    w.relays[i].id == Request(i + 1, w.arrivals[i].mid.urgent) && w.relays[i].content == w.arrivals[i].content
  }

  // Relays are a prefix of the arrivals, under consecutive ids.
  ghost predicate Numbered(w: World) {
    |w.relays| <= |w.arrivals| && forall i | 0 <= i < |w.relays| :: RelayRight(w, i)
  }

  // The rest is held, in order.
  ghost predicate Ordered(w: World) {
    && Numbered(w)
    && w.router.policy.mails == w.arrivals[|w.relays|..]
    && w.router.proxy.lastRequest == |w.relays|
    && (forall m | m in w.arrivals :: m.content.Body? && !m.mid.Response?)
  }

  function Key(w: World, i: nat): MessageId
    requires i < |w.relays|
  {
    w.relays[i].id.ResponseId()
  }

  // The ticket of the unanswered relay `i` is in place.
  predicate TicketRight(w: World, i: nat)
    requires i < |w.relays| && i < |w.arrivals|
  {
    Key(w, i) in w.router.proxy.tickets && w.router.proxy.tickets[Key(w, i)] == TicketFor(w.arrivals[i])
  }

  // A live ticket belongs to an unanswered relay.
  predicate Live(w: World, k: MessageId) {
    k.Response? && 0 < k.number <= |w.relays| && k.number - 1 !in w.answers && k == Key(w, k.number - 1)
  }

  // Live tickets are exactly those of the unanswered relays.
  ghost predicate Ticketed(w: World)
    requires |w.relays| <= |w.arrivals|
  {
    && (forall i | i in w.answers :: i < |w.relays|)
    && (forall i | 0 <= i < |w.relays| && i !in w.answers :: TicketRight(w, i))
    && (forall k | k in w.router.proxy.tickets :: Live(w, k))
  }

  // The unanswered relays to one worker.
  ghost function Open(w: World, a: Actor): set<nat> {
    set i | 0 <= i < |w.relays| && i !in w.answers && w.relays[i].worker == a
  }

  predicate LoadRight(w: World, load: nat, open: nat) {
    load == open <= w.router.policy.threshold
  }

  // Every registered worker's load is the number of its unanswered relays and within the threshold.
  ghost predicate Counted(w: World)
    requires Valid(w.router)
  {
    forall a | a in w.router.workers :: LoadRight(w, w.router.loads[a], |Open(w, a)|)
  }

  predicate ClientRequest(m: Mail) {
    m.mid.Request? && m.sender.Some?
  }

  // A reply goes to the sender of its request, under that request's response id, with the worker's answer.
  ghost predicate ReplyRight(w: World, r: Reply) {
    && r.index in w.live && r.index in w.answers && r.index < |w.arrivals|
    && var m := w.arrivals[r.index];
       ClientRequest(m) && r == Reply(r.index, m.sender.value, m.mid.ResponseId(), w.answers[r.index])
  }

  ghost predicate HasReply(w: World, i: int) {
    exists j :: 0 <= j < |w.replies| && w.replies[j].index == i
  }

  ghost predicate Replied(w: World) {
    && (forall i | i in w.live :: i in w.answers && i < |w.relays| && i < |w.arrivals|)
    && (forall j | 0 <= j < |w.replies| :: ReplyRight(w, w.replies[j]))
    && (forall j, k | 0 <= j < k < |w.replies| :: w.replies[j].index != w.replies[k].index)
    && (forall i | i in w.live && ClientRequest(w.arrivals[i]) :: HasReply(w, i))
  }

  ghost predicate Good(w: World) {
    Pooled(w) && Ordered(w) && Ticketed(w) && Counted(w) && Replied(w)
  }

  lemma StartGood(threshold: nat)
    requires threshold < Policy.SIZE_MODULUS
    ensures Good(Start(threshold))
  {
  }

  // `c` has the same history of mail as `w`.
  predicate SameTraffic(w: World, c: World) {
    && c.arrivals == w.arrivals && c.relays == w.relays && c.answers == w.answers
    && c.live == w.live && c.replies == w.replies
  }

  lemma SameTrafficGood(w: World, c: World)
    requires Ordered(w) && Ticketed(w) && Replied(w) && SameTraffic(w, c)
    requires c.router.policy.mails == w.router.policy.mails && c.router.proxy == w.router.proxy
    ensures Ordered(c) && Ticketed(c) && Replied(c)
    ensures forall a :: Open(c, a) == Open(w, a)
  {
    forall i | 0 <= i < |c.relays|
      ensures RelayRight(c, i) && (i !in c.answers ==> TicketRight(c, i))
    {
      assert RelayRight(w, i) && (i !in w.answers ==> TicketRight(w, i));
    }
    forall k | k in c.router.proxy.tickets
      ensures Live(c, k)
    {
      assert Live(w, k);
    }
    forall j | 0 <= j < |c.replies|
      ensures ReplyRight(c, c.replies[j])
    {
      assert ReplyRight(w, w.replies[j]);
    }
    forall i | i in c.live && ClientRequest(c.arrivals[i])
      ensures HasReply(c, i)
    {
      assert HasReply(w, i);
    }
    forall a
      ensures Open(c, a) == Open(w, a)
    {
    }
  }

  // --- control messages -------------------------------------------------------------------------

  lemma ControlGood(w: World, m: Mail)
    requires Good(w) && Legal(w, m) && (!m.content.Body? || Rejected(w.router, m))
    ensures Good(Control(w, m))
  {
    var c := Control(w, m);
    ControlPool(w.router, m);
    SameTrafficGood(w, c);
    ControlPooled(w, c, m);
    ControlCounted(w, c, m);
  }

  // A control message only removes workers, or adds the one it names.
  lemma ControlPool(r: State, m: Mail)
    requires Valid(r) && Acceptable(r, m) && (!m.content.Body? || Rejected(r, m))
    ensures var s := Step(r, m).state;
            && Valid(s) && s.policy == r.policy && s.proxy == r.proxy
            && (forall a | a in s.workers :: a in r.workers || (m.content.Put? && a == m.content.worker))
            && (forall a | a in r.workers && a in s.workers :: s.loads[a] == r.loads[a])
            && (forall a | a in s.workers && a !in r.loads :: s.loads[a] == 0)
            && (forall a | a in s.loads :: a in r.loads || a in s.workers)
            && (m.content.Put? ==> forall a | a in r.workers :: a in s.workers)
  {
    var s := Step(r, m).state;
    if m.content.Put? && m.content.worker !in r.workers {
      assert s.workers == r.workers + [m.content.worker];
    }
  }

  lemma ControlPooled(w: World, c: World, m: Mail)
    requires Pooled(w) && Valid(c.router) && c.router.policy == w.router.policy && c.relays == w.relays
    requires c.removed == w.removed + (Members(w.router.workers) - Members(c.router.workers))
    requires m.content.Put? ==> m.content.worker !in w.removed
    requires forall a | a in c.router.workers :: a in w.router.workers || (m.content.Put? && a == m.content.worker)
    requires forall a | a in c.router.loads :: a in w.router.loads || a in c.router.workers
    ensures Pooled(c)
  {
  }

  lemma ControlCounted(w: World, c: World, m: Mail)
    requires Pooled(w) && Counted(w) && Valid(c.router) && c.router.policy == w.router.policy && c.relays == w.relays
    requires forall a :: Open(c, a) == Open(w, a)
    requires m.content.Put? ==> m.content.worker !in w.removed
    requires forall a | a in c.router.workers :: a in w.router.workers || (m.content.Put? && a == m.content.worker)
    requires forall a | a in w.router.workers && a in c.router.workers :: c.router.loads[a] == w.router.loads[a]
    requires forall a | a in c.router.workers && a !in w.router.loads :: c.router.loads[a] == 0
    ensures Counted(c)
  {
    forall a | a in c.router.workers
      ensures LoadRight(c, c.router.loads[a], |Open(c, a)|)
    {
      if a in w.router.workers {
        assert LoadRight(w, w.router.loads[a], |Open(w, a)|);
      } else {
        assert a !in w.router.loads;
        assert forall i | 0 <= i < |w.relays| :: w.relays[i].worker != a;
        assert Open(w, a) == {};
      }
    }
  }

  // --- answers ----------------------------------------------------------------------------------

  // The world after the answer to relay `i`.
  ghost predicate Answered(w: World, c: World, i: nat, content: Content)
    requires Valid(w.router)
  {
    && i < |w.relays| && i < |w.arrivals| && i !in w.answers
    && var from, registered := w.relays[i].worker, w.relays[i].worker in w.router.workers;
    && c.arrivals == w.arrivals && c.relays == w.relays && c.removed == w.removed
    && c.answers == w.answers[i := content]
    && c.live == (if registered then w.live + {i} else w.live)
    && c.replies == w.replies + (if registered && ClientRequest(w.arrivals[i])
         then [Reply(i, w.arrivals[i].sender.value, w.arrivals[i].mid.ResponseId(), content)] else [])
    && c.router.workers == w.router.workers && c.router.policy == w.router.policy
    && c.router.loads.Keys == w.router.loads.Keys + {from}
    && (forall a | a in w.router.workers ::
          c.router.loads[a] + (if a == from then 1 else 0) == w.router.loads[a])
    && c.router.proxy == Proxy(w.router.proxy.lastRequest, w.router.proxy.tickets - {Key(w, i)})
  }

  lemma AnswerShape(w: World, m: Mail)
    requires Pooled(w) && Counted(w) && Ordered(w) && Ticketed(w) && Legal(w, m) && IsAnswer(m)
    ensures Answered(w, TakeAnswer(w, m), IndexOf(m), m.content)
  {
    var c, i, from := TakeAnswer(w, m), IndexOf(m), m.sender.value;
    assert TicketRight(w, i) && Key(w, i) == m.mid && w.arrivals[i] in w.arrivals;
    AnswerLoads(w, m);
    AnswerSends(w, m);
  }

  lemma AnswerSends(w: World, m: Mail)
    requires IsAnswer(m) && m.sender.Some?
    requires IndexOf(m) < |w.relays| && IndexOf(m) < |w.arrivals|
    requires m.mid == Key(w, IndexOf(m)) && TicketRight(w, IndexOf(m)) && !w.arrivals[IndexOf(m)].mid.Response?
    ensures TakeAnswer(w, m).replies == w.replies +
            if m.sender.value in w.router.workers && ClientRequest(w.arrivals[IndexOf(m)])
            then [Reply(IndexOf(m), w.arrivals[IndexOf(m)].sender.value, w.arrivals[IndexOf(m)].mid.ResponseId(), m.content)] else []
  {
    var sends := Answer(w.router, m.sender.value, m.mid, m.content).sends;
    assert RepliesIn([], IndexOf(m)) == [] && (sends == [] || sends[1..] == []);
  }

  // An answer lowers exactly its own worker's load, by one.
  lemma AnswerLoads(w: World, m: Mail)
    requires Pooled(w) && Counted(w) && Legal(w, m) && IsAnswer(m)
    ensures var c := TakeAnswer(w, m);
            && c.router.loads.Keys == w.router.loads.Keys + {m.sender.value}
            && forall a | a in w.router.workers ::
                 c.router.loads[a] + (if a == m.sender.value then 1 else 0) == w.router.loads[a]
  {
    var i, from := IndexOf(m), m.sender.value;
    if from in w.router.workers {
      assert LoadRight(w, w.router.loads[from], |Open(w, from)|);
      assert i in Open(w, from);
      Lowered(w.router.loads[from]);
    }
  }

  // A load of one or more falls by one; that of an unknown worker wraps to the largest 64-bit number.
  lemma Lowered(load: nat)
    requires load <= 0xFFFF_FFFF_FFFF_FFFF
    ensures Decrement(load) == if load > 0 then load - 1 else 0xFFFF_FFFF_FFFF_FFFF
  {
  }

  lemma AnswerGood(w: World, m: Mail)
    requires Good(w) && Legal(w, m) && IsAnswer(m)
    ensures Good(TakeAnswer(w, m))
    ensures Answered(w, TakeAnswer(w, m), IndexOf(m), m.content)
  {
    AnswerShape(w, m);
    AnsweredGood(w, TakeAnswer(w, m), IndexOf(m), m.content);
  }

  lemma AnsweredGood(w: World, c: World, i: nat, content: Content)
    requires Good(w) && Answered(w, c, i, content)
    ensures Good(c)
  {
    AnsweredCounted(w, c, i, content);
    AnsweredOrdered(w, c, i, content);
    AnsweredTicketed(w, c, i, content);
    AnsweredReplied(w, c, i, content);
  }

  lemma AnsweredCounted(w: World, c: World, i: nat, content: Content)
    requires Pooled(w) && Counted(w) && Answered(w, c, i, content)
    ensures Pooled(c) && Counted(c)
  {
    AnswerCounted(w, c, i, w.relays[i].worker);
  }

  lemma AnsweredOrdered(w: World, c: World, i: nat, content: Content)
    requires Valid(w.router) && Ordered(w) && Answered(w, c, i, content)
    ensures Ordered(c)
  {
    AnswerOrdered(w, c);
  }

  lemma AnsweredTicketed(w: World, c: World, i: nat, content: Content)
    requires Valid(w.router) && Numbered(w) && Ticketed(w) && Answered(w, c, i, content)
    ensures |c.relays| <= |c.arrivals| && Ticketed(c)
  {
    AnswerTicketed(w, c, i);
  }

  lemma AnsweredReplied(w: World, c: World, i: nat, content: Content)
    requires Valid(w.router) && Replied(w) && Answered(w, c, i, content)
    ensures Replied(c)
  {
    AnswerReplied(w, c, i, w.relays[i].worker in w.router.workers, content);
  }

  lemma AnswerCounted(w: World, c: World, i: nat, from: Actor)
    requires Pooled(w) && Counted(w)
    requires i < |w.relays| && i !in w.answers && w.relays[i].worker == from
    requires c.relays == w.relays && c.answers.Keys == w.answers.Keys + {i} && c.removed == w.removed
    requires c.router.workers == w.router.workers && c.router.policy == w.router.policy
    requires c.router.loads.Keys == w.router.loads.Keys + {from}
    requires forall a | a in w.router.workers :: c.router.loads[a] + (if a == from then 1 else 0) == w.router.loads[a]
    ensures Pooled(c) && Counted(c)
  {
    forall a | a in c.router.workers
      ensures LoadRight(c, c.router.loads[a], |Open(c, a)|)
    {
      assert LoadRight(w, w.router.loads[a], |Open(w, a)|);
      if a == from {
        assert i in Open(w, a) && Open(c, a) == Open(w, a) - {i};
      } else {
        assert Open(c, a) == Open(w, a);
      }
    }
  }

  lemma AnswerOrdered(w: World, c: World)
    requires Ordered(w) && c.relays == w.relays && c.arrivals == w.arrivals && c.router.policy == w.router.policy
    requires c.router.proxy.lastRequest == w.router.proxy.lastRequest
    ensures Ordered(c)
  {
    forall j | 0 <= j < |c.relays|
      ensures RelayRight(c, j)
    {
      assert RelayRight(w, j);
    }
  }

  lemma AnswerTicketed(w: World, c: World, i: nat)
    requires Numbered(w) && Ticketed(w) && i < |w.relays|
    requires c.relays == w.relays && c.arrivals == w.arrivals && c.answers.Keys == w.answers.Keys + {i}
    requires c.router.proxy.tickets == w.router.proxy.tickets - {Key(w, i)}
    ensures Ticketed(c)
  {
    AnsweredTicketsStay(w, c, i);
    AnsweredTicketsLive(w, c, i);
    assert forall j | j in c.answers :: j in w.answers.Keys + {i};
    TicketedFrom(c);
  }

  lemma TicketedFrom(c: World)
    requires |c.relays| <= |c.arrivals|
    requires forall i | i in c.answers :: i < |c.relays|
    requires forall i | 0 <= i < |c.relays| && i !in c.answers :: TicketRight(c, i)
    requires forall k | k in c.router.proxy.tickets :: Live(c, k)
    ensures Ticketed(c)
  {
  }

  lemma AnsweredTicketsStay(w: World, c: World, i: nat)
    requires Numbered(w) && i < |w.relays|
    requires forall j | 0 <= j < |w.relays| && j !in w.answers :: TicketRight(w, j)
    requires c.relays == w.relays && c.arrivals == w.arrivals && c.answers.Keys == w.answers.Keys + {i}
    requires c.router.proxy.tickets == w.router.proxy.tickets - {Key(w, i)}
    ensures forall j | 0 <= j < |c.relays| && j !in c.answers :: TicketRight(c, j)
  {
    forall j | 0 <= j < |c.relays| && j !in c.answers
      ensures TicketRight(c, j)
    {
      assert j !in w.answers.Keys + {i};
      TicketStays(w, c, i, j);
    }
  }

  lemma AnsweredTicketsLive(w: World, c: World, i: nat)
    requires Numbered(w) && i < |w.relays| && forall k | k in w.router.proxy.tickets :: Live(w, k)
    requires c.relays == w.relays && c.answers.Keys == w.answers.Keys + {i}
    requires c.router.proxy.tickets == w.router.proxy.tickets - {Key(w, i)}
    ensures forall k | k in c.router.proxy.tickets :: Live(c, k)
  {
    forall k | k in c.router.proxy.tickets
      ensures Live(c, k)
    {
      TicketsStayLive(w, c, i, k);
    }
  }

  lemma TicketStays(w: World, c: World, i: nat, j: nat)
    requires Numbered(w) && j < |w.relays| && i < |w.relays| && TicketRight(w, j) && i != j
    requires c.relays == w.relays && c.arrivals == w.arrivals
    requires c.router.proxy.tickets == w.router.proxy.tickets - {Key(w, i)}
    ensures TicketRight(c, j)
  {
    KeysDiffer(w, i, j);
    StillTicketed(w, c, i, j);
  }

  lemma TicketsStayLive(w: World, c: World, i: nat, k: MessageId)
    requires Numbered(w) && i < |w.relays| && k in w.router.proxy.tickets && k != Key(w, i) && Live(w, k)
    requires c.relays == w.relays && c.answers.Keys == w.answers.Keys + {i}
    ensures Live(c, k)
  {
    assert RelayRight(w, i);
    StillLive(w, c, i, k);
  }

  lemma StillTicketed(w: World, c: World, i: nat, j: nat)
    requires j < |w.relays| && j < |w.arrivals| && i < |w.relays| && TicketRight(w, j) && Key(w, i) != Key(w, j)
    requires c.relays == w.relays && c.arrivals == w.arrivals
    requires c.router.proxy.tickets == w.router.proxy.tickets - {Key(w, i)}
    ensures TicketRight(c, j)
  {
  }

  lemma StillLive(w: World, c: World, i: nat, k: MessageId)
    requires i < |w.relays| && Live(w, k) && k != Key(w, i)
    requires c.relays == w.relays && c.answers.Keys == w.answers.Keys + {i}
    requires Key(w, i).Response? && Key(w, i).number == i + 1
    ensures Live(c, k)
  {
    var owner := k.number - 1;
    assert k == Key(w, owner);
  }

  lemma KeysDiffer(w: World, i: nat, j: nat)
    requires Numbered(w) && i < |w.relays| && j < |w.relays| && i != j
    ensures Key(w, i) != Key(w, j)
  {
    assert RelayRight(w, i) && RelayRight(w, j);
  }

  lemma AnswerReplied(w: World, c: World, i: nat, registered: bool, content: Content)
    requires Replied(w) && i < |w.relays| && i < |w.arrivals| && i !in w.answers
    requires c.relays == w.relays && c.arrivals == w.arrivals && c.answers == w.answers[i := content]
    requires c.live == if registered then w.live + {i} else w.live
    requires c.replies == w.replies + if registered && ClientRequest(w.arrivals[i])
      then [Reply(i, w.arrivals[i].sender.value, w.arrivals[i].mid.ResponseId(), content)] else []
    ensures Replied(c)
  {
    forall j | 0 <= j < |c.replies|
      ensures ReplyRight(c, c.replies[j]) && (j < |w.replies| ==> c.replies[j].index != i)
    {
      if j < |w.replies| {
        assert ReplyRight(w, w.replies[j]);
        ReplyStaysRight(w, c, i, content, w.replies[j]);
      }
    }
    forall k | k in c.live && ClientRequest(c.arrivals[k])
      ensures HasReply(c, k)
    {
      if k in w.live {
        ReplyStays(w, c, k);
      } else {
        assert c.replies[|w.replies|].index == k;
      }
    }
  }

  lemma ReplyStaysRight(w: World, c: World, i: nat, content: Content, r: Reply)
    requires ReplyRight(w, r) && i !in w.answers
    requires c.arrivals == w.arrivals && c.answers == w.answers[i := content] && w.live <= c.live
    ensures ReplyRight(c, r) && r.index != i
  {
  }

  lemma ReplyStays(w: World, c: World, k: nat)
    requires HasReply(w, k) && w.replies <= c.replies
    ensures HasReply(c, k)
  {
    var j :| 0 <= j < |w.replies| && w.replies[j].index == k;
    assert c.replies[j].index == k;
  }

  // --- placements ---------------------------------------------------------------------------------

  predicate Placeable(w: World, mail: Option<Mail>) {
    && Valid(w.router)
    && (Policy.HasMail(w.router.policy, mail) ==> w.router.workers != [])
    && (mail.Some? ==> mail.value.content.Body? && !mail.value.mid.Response?)
  }

  // What a placement leaves alone.
  predicate Placed(w: World, c: World, mail: Option<Mail>) {
    && c.arrivals == w.arrivals + Listed(mail)
    && c.answers == w.answers && c.live == w.live && c.replies == w.replies && c.removed == w.removed
    && c.router.workers == w.router.workers && c.router.policy.threshold == w.router.policy.threshold
  }

  // Nothing was relayed: there was no mail, or no worker below the threshold.
  ghost predicate Kept(w: World, c: World, mail: Option<Mail>)
    requires Valid(w.router)
  {
    && c.relays == w.relays && c.router.loads == w.router.loads && c.router.proxy == w.router.proxy
    && c.router.policy.mails == w.router.policy.mails + Listed(mail)
    && (Policy.HasMail(w.router.policy, mail) ==>
          forall a | a in w.router.workers :: w.router.loads[a] >= w.router.policy.threshold)
  }

  // The oldest mail was relayed to a least-loaded worker below the threshold.
  ghost predicate Sent(w: World, c: World, mail: Option<Mail>, a: Actor)
    requires Valid(w.router)
  {
    var queue := w.router.policy.mails + Listed(mail);
    var number := w.router.proxy.lastRequest + 1;
    && queue != [] && c.router.policy.mails == queue[1..]
    && a in w.router.workers && w.router.loads[a] < w.router.policy.threshold
    && (forall b | b in w.router.workers :: w.router.loads[a] <= w.router.loads[b])
    && c.relays == w.relays + [Relay(a, Request(number, queue[0].mid.urgent), queue[0].content)]
    && c.router.loads == w.router.loads[a := w.router.loads[a] + 1]
    && c.router.proxy == Proxy(number, w.router.proxy.tickets[Response(number, queue[0].mid.urgent) := TicketFor(queue[0])])
  }

  // No ticket is filed under the number that the next relay takes, at either priority.
  predicate NextNumberFree(r: State) {
    var number := r.proxy.lastRequest + 1;
    Response(number, true) !in r.proxy.tickets && Response(number, false) !in r.proxy.tickets
  }

  lemma NumbersAreFresh(w: World)
    requires Ordered(w) && Ticketed(w)
    ensures NextNumberFree(w.router)
  {
    var number := w.router.proxy.lastRequest + 1;
    assert !Live(w, Response(number, true)) && !Live(w, Response(number, false));
  }

  lemma PlaceEffect(w: World, mail: Option<Mail>) returns (picked: Option<Actor>)
    requires Placeable(w, mail) && NextNumberFree(w.router)
    ensures Placed(w, Place(w, mail), mail)
    ensures if picked.None? then Kept(w, Place(w, mail), mail) else Sent(w, Place(w, mail), mail, picked.value)
  {
    var loads := LoadList(w.router);
    Policy.PlaceMeaning(w.router.policy, loads, mail);
    var p := Policy.Place(w.router.policy, loads, mail);
    assert Listed(mail) == if mail.Some? then [mail.value] else [];
    if p.choice.None? {
      picked := None;
      PlaceKept(w, mail, loads);
    } else {
      picked := Some(w.router.workers[p.choice.value.worker]);
      PlaceSent(w, mail, loads, p.choice.value.worker);
    }
  }

  lemma PlaceKept(w: World, mail: Option<Mail>, loads: seq<nat>)
    requires Placeable(w, mail) && loads == LoadList(w.router)
    requires Policy.Place(w.router.policy, loads, mail).choice.None?
    ensures Placed(w, Place(w, mail), mail) && Kept(w, Place(w, mail), mail)
  {
    Policy.PlaceMeaning(w.router.policy, loads, mail);
    var p := Policy.Place(w.router.policy, loads, mail);
    assert [] + p.state.mails == p.state.mails;
    assert RelaysIn([]) == [] && w.relays + [] == w.relays;
    forall a | a in w.router.workers && Policy.HasMail(w.router.policy, mail)
      ensures w.router.loads[a] >= w.router.policy.threshold
    {
      var i :| 0 <= i < |w.router.workers| && w.router.workers[i] == a;
      assert loads[i] == w.router.loads[a];
    }
  }

  lemma PlaceSent(w: World, mail: Option<Mail>, loads: seq<nat>, k: nat)
    requires Placeable(w, mail) && loads == LoadList(w.router) && NextNumberFree(w.router) && k < |loads|
    requires var p := Policy.Place(w.router.policy, loads, mail); p.choice.Some? && p.choice.value.worker == k
    ensures Placed(w, Place(w, mail), mail) && Sent(w, Place(w, mail), mail, w.router.workers[k])
  {
    var p := Policy.Place(w.router.policy, loads, mail);
    ChosenFromQueue(w.router, mail, loads, p);
    DispatchRelays(w.router, mail, p);
  }

  // The choice is the head of the queue and goes to a least-loaded worker.
  lemma ChosenFromQueue(r: State, mail: Option<Mail>, loads: seq<nat>, p: Policy.Placement)
    requires Valid(r) && loads == LoadList(r) && (Policy.HasMail(r.policy, mail) ==> r.workers != [])
    requires p == Policy.Place(r.policy, loads, mail) && p.choice.Some?
    ensures var queue := r.policy.mails + Listed(mail);
            var k := p.choice.value.worker;
            && queue != [] && p.choice.value.mail == queue[0] && p.state.mails == queue[1..]
            && p.state.threshold == r.policy.threshold
            && k < |r.workers| && r.loads[r.workers[k]] < r.policy.threshold
            && forall b | b in r.workers :: r.loads[r.workers[k]] <= r.loads[b]
  {
    Policy.PlaceMeaning(r.policy, loads, mail);
    Policy.PlaceLeast(r.policy, loads, mail);
    var k := p.choice.value.worker;
    assert ([p.choice.value.mail] + p.state.mails)[1..] == p.state.mails;
    forall b | b in r.workers
      ensures r.loads[r.workers[k]] <= r.loads[b]
    {
      var i :| 0 <= i < |r.workers| && r.workers[i] == b;
      assert loads[k] <= loads[i];
    }
  }

  lemma DispatchRelays(r: State, mail: Option<Mail>, p: Policy.Placement)
    requires Valid(r) && (Policy.HasMail(r.policy, mail) ==> r.workers != []) && NextNumberFree(r)
    requires p == Policy.Place(r.policy, LoadList(r), mail) && p.choice.Some? && p.choice.value.worker < |r.workers|
    ensures var a, out, number := r.workers[p.choice.value.worker], p.choice.value.mail, r.proxy.lastRequest + 1;
            var d := Dispatch(r, mail);
            && d.state == r.(policy := p.state, loads := r.loads[a := r.loads[a] + 1],
                             proxy := Proxy(number, r.proxy.tickets[Response(number, out.mid.urgent) := TicketFor(out)]))
            && RelaysIn(d.sends) == [Relay(a, Request(number, out.mid.urgent), out.content)]
  {
    var sends := Dispatch(r, mail).sends;
    assert RelaysIn([]) == [] && sends[1..] == [];
  }

  lemma PlaceGood(w: World, mail: Option<Mail>)
    requires Good(w) && Placeable(w, mail)
    ensures Good(Place(w, mail))
  {
    var c := Place(w, mail);
    NumbersAreFresh(w);
    var picked := PlaceEffect(w, mail);
    ArrivalGrows(w, c, mail);
    if picked.Some? {
      SentOrdered(w, c, mail, picked.value);
      SentTicketed(w, c, mail, picked.value);
      SentCounted(w, c, mail, picked.value);
    } else {
      KeptGood(w, c, mail);
    }
  }

  lemma ArrivalGrows(w: World, c: World, mail: Option<Mail>)
    requires Replied(w) && Placed(w, c, mail) && |w.relays| <= |c.relays|
    ensures Replied(c)
  {
    forall j | 0 <= j < |c.replies|
      ensures ReplyRight(c, c.replies[j])
    {
      assert ReplyRight(w, w.replies[j]);
    }
    forall i | i in c.live && ClientRequest(c.arrivals[i])
      ensures HasReply(c, i)
    {
      assert c.arrivals[i] == w.arrivals[i] && HasReply(w, i);
    }
  }

  lemma KeptGood(w: World, c: World, mail: Option<Mail>)
    requires Pooled(w) && Ordered(w) && Ticketed(w) && Counted(w) && Placeable(w, mail)
    requires Placed(w, c, mail) && Kept(w, c, mail)
    ensures Pooled(c) && Ordered(c) && Ticketed(c) && Counted(c)
  {
    assert c.arrivals[|w.relays|..] == w.arrivals[|w.relays|..] + Listed(mail);
    forall i | 0 <= i < |c.relays|
      ensures RelayRight(c, i) && (i !in c.answers ==> TicketRight(c, i))
    {
      assert RelayRight(w, i) && (i !in w.answers ==> TicketRight(w, i));
    }
    forall k | k in c.router.proxy.tickets
      ensures Live(c, k)
    {
      assert Live(w, k);
    }
    forall a | a in c.router.workers
      ensures LoadRight(c, c.router.loads[a], |Open(c, a)|)
    {
      assert LoadRight(w, w.router.loads[a], |Open(w, a)|) && Open(c, a) == Open(w, a);
    }
  }

  lemma QueueIsArrivals(arrivals: seq<Mail>, n: nat, mail: Option<Mail>)
    requires n <= |arrivals|
    ensures (arrivals + Listed(mail))[n..] == arrivals[n..] + Listed(mail)
    ensures n < |arrivals + Listed(mail)| ==> (arrivals + Listed(mail))[n + 1..] == (arrivals[n..] + Listed(mail))[1..]
  {
  }

  lemma SentOrdered(w: World, c: World, mail: Option<Mail>, a: Actor)
    requires Valid(w.router) && Ordered(w) && Placeable(w, mail) && Placed(w, c, mail) && Sent(w, c, mail, a)
    ensures Ordered(c) && c.arrivals[|w.relays|] == (w.router.policy.mails + Listed(mail))[0]
  {
    var n, queue := |w.relays|, w.router.policy.mails + Listed(mail);
    QueueIsArrivals(w.arrivals, n, mail);
    assert c.arrivals[n..] == queue && c.arrivals[n + 1..] == queue[1..] && c.arrivals[n] == queue[0];
    assert c.arrivals[n] in c.arrivals;
    forall m | m in c.arrivals
      ensures m.content.Body? && !m.mid.Response?
    {
      assert m in w.arrivals || mail == Some(m);
    }
    forall i | 0 <= i < |c.relays|
      ensures RelayRight(c, i)
    {
      if i < n {
        assert RelayRight(w, i);
      }
    }
  }

  lemma SentTicketed(w: World, c: World, mail: Option<Mail>, a: Actor)
    requires Valid(w.router) && Ordered(w) && Ticketed(w) && Placed(w, c, mail) && Sent(w, c, mail, a)
    requires Ordered(c) && c.arrivals[|w.relays|] == (w.router.policy.mails + Listed(mail))[0]
    ensures Ticketed(c)
  {
    var n := |w.relays|;
    TicketFiled(w, c, c.relays[n], c.arrivals[n]);
  }

  // One more relay with its ticket.
  lemma TicketFiled(w: World, c: World, last: Relay, out: Mail)
    requires Numbered(w) && Ticketed(w) && Numbered(c)
    requires c.relays == w.relays + [last] && w.arrivals <= c.arrivals && c.answers == w.answers && out == c.arrivals[|w.relays|]
    requires c.router.proxy.tickets == w.router.proxy.tickets[last.id.ResponseId() := TicketFor(out)]
    ensures Ticketed(c)
  {
    var n := |w.relays|;
    forall i | 0 <= i < |c.relays| && i !in c.answers
      ensures TicketRight(c, i)
    {
      if i < n {
        assert TicketRight(w, i) && Key(c, i) == Key(w, i);
        KeysDiffer(c, i, n);
      }
    }
    forall k | k in c.router.proxy.tickets
      ensures Live(c, k)
    {
      if k in w.router.proxy.tickets {
        TicketKeptLive(w, c, last, k);
      } else {
        assert RelayRight(c, n);
      }
    }
  }

  lemma TicketKeptLive(w: World, c: World, last: Relay, k: MessageId)
    requires Live(w, k) && c.relays == w.relays + [last] && c.answers == w.answers
    ensures Live(c, k)
  {
    assert Key(c, k.number - 1) == Key(w, k.number - 1);
  }

  lemma SentCounted(w: World, c: World, mail: Option<Mail>, picked: Actor)
    requires Pooled(w) && Counted(w) && Placed(w, c, mail) && Sent(w, c, mail, picked)
    requires forall i | i in w.answers :: i < |w.relays|
    ensures Pooled(c) && Counted(c)
  {
    forall a | a in c.router.workers
      ensures LoadRight(c, c.router.loads[a], |Open(c, a)|)
    {
      assert LoadRight(w, w.router.loads[a], |Open(w, a)|);
      var last := c.relays[|w.relays|];
      OpenGrows(w, c, last, a);
    }
  }

  lemma OpenGrows(w: World, c: World, last: Relay, a: Actor)
    requires c.relays == w.relays + [last] && c.answers == w.answers && |w.relays| !in w.answers
    ensures |Open(c, a)| == |Open(w, a)| + if last.worker == a then 1 else 0
  {
    if last.worker == a {
      assert Open(c, a) == Open(w, a) + {|w.relays|};
    } else {
      assert Open(c, a) == Open(w, a);
    }
  }

  // --- runs -------------------------------------------------------------------------------------

  lemma AdvanceGood(w: World, m: Mail)
    requires Good(w) && Legal(w, m)
    ensures Good(Advance(w, m))
  {
    if !m.content.Body? || Rejected(w.router, m) {
      ControlGood(w, m);
    } else if IsAnswer(m) {
      AnswerGood(w, m);
      PlaceGood(TakeAnswer(w, m), None);
    } else {
      PlaceGood(w, Some(m));
    }
  }

  ghost predicate LegalRun(w: World, ms: seq<Mail>)
    decreases |ms|
  {
    ms != [] ==> Valid(w.router) && Legal(w, ms[0]) && LegalRun(Advance(w, ms[0]), ms[1..])
  }

  ghost function Run(w: World, ms: seq<Mail>): World
    requires LegalRun(w, ms)
    decreases |ms|
  {
    if ms == [] then w else Run(Advance(w, ms[0]), ms[1..])
  }

  lemma {:induction false} RunGood(w: World, ms: seq<Mail>)
    requires Good(w) && LegalRun(w, ms)
    ensures Good(Run(w, ms))
    decreases |ms|
  {
    if ms != [] {
      AdvanceGood(w, ms[0]);
      RunGood(Advance(w, ms[0]), ms[1..]);
    }
  }

  /** In every run: the relayed messages followed by the held mail are the arrivals, in order;
      every registered worker's load is its number of unanswered relays and at most the threshold. */
  lemma FifoAndLoads(threshold: nat, ms: seq<Mail>)
    requires threshold < Policy.SIZE_MODULUS && LegalRun(Start(threshold), ms)
    ensures var w := Run(Start(threshold), ms);
            && |w.relays| + |w.router.policy.mails| == |w.arrivals|
            && (forall i | 0 <= i < |w.relays| ::
                  w.relays[i].content == w.arrivals[i].content && w.relays[i].id.urgent == w.arrivals[i].mid.urgent)
            && (forall i | 0 <= i < |w.router.policy.mails| :: w.router.policy.mails[i] == w.arrivals[|w.relays| + i])
            && (forall a | a in w.router.workers ::
                  a in w.router.loads && w.router.loads[a] == |Open(w, a)| && w.router.loads[a] <= w.router.policy.threshold)
  {
    StartGood(threshold);
    RunGood(Start(threshold), ms);
    GoodLoads(Run(Start(threshold), ms));
  }

  lemma GoodLoads(w: World)
    requires Ordered(w) && Valid(w.router) && Counted(w)
    ensures forall i | 0 <= i < |w.relays| ::
              w.relays[i].content == w.arrivals[i].content && w.relays[i].id.urgent == w.arrivals[i].mid.urgent
    ensures forall a | a in w.router.workers ::
              w.router.loads[a] == |Open(w, a)| && w.router.loads[a] <= w.router.policy.threshold
  {
    forall i | 0 <= i < |w.relays|
      ensures w.relays[i].content == w.arrivals[i].content && w.relays[i].id.urgent == w.arrivals[i].mid.urgent
    {
      assert RelayRight(w, i);
    }
    forall a | a in w.router.workers
      ensures w.router.loads[a] == |Open(w, a)| && w.router.loads[a] <= w.router.policy.threshold
    {
      assert LoadRight(w, w.router.loads[a], |Open(w, a)|);
    }
  }

  /** In every run: live tickets carry distinct, never reused ids, one per unanswered relay; the
      answer to relay `i` is passed on exactly once if its worker was registered and the mail was a
      request with a sender, to that sender under its own response id, and never otherwise. */
  lemma ReplyCorrelation(threshold: nat, ms: seq<Mail>)
    requires threshold < Policy.SIZE_MODULUS && LegalRun(Start(threshold), ms)
    ensures var w := Run(Start(threshold), ms);
            TicketsDistinct(w) && RepliesExact(w)
  {
    StartGood(threshold);
    RunGood(Start(threshold), ms);
    GoodTickets(Run(Start(threshold), ms));
    GoodReplies(Run(Start(threshold), ms));
  }

  ghost predicate TicketsDistinct(w: World) {
    && (forall i | 0 <= i < |w.relays| :: w.relays[i].id == Request(i + 1, w.relays[i].id.urgent))
    && (forall k :: k in w.router.proxy.tickets <==>
                    exists i :: 0 <= i < |w.relays| && i !in w.answers && k == w.relays[i].id.ResponseId())
  }

  ghost predicate RepliesExact(w: World) {
    && (forall j | 0 <= j < |w.replies| :: ReplyRight(w, w.replies[j]))
    && (forall j, k | 0 <= j < k < |w.replies| :: w.replies[j].index != w.replies[k].index)
    && (forall i :: HasReply(w, i) <==> 0 <= i < |w.arrivals| && i in w.live && ClientRequest(w.arrivals[i]))
  }

  lemma GoodTickets(w: World)
    requires Ordered(w) && Ticketed(w)
    ensures TicketsDistinct(w)
  {
    forall i | 0 <= i < |w.relays|
      ensures w.relays[i].id == Request(i + 1, w.relays[i].id.urgent)
    {
      assert RelayRight(w, i);
    }
    forall k
      ensures k in w.router.proxy.tickets <==>
              exists i :: 0 <= i < |w.relays| && i !in w.answers && k == w.relays[i].id.ResponseId()
    {
      if k in w.router.proxy.tickets {
        assert Live(w, k) && k == w.relays[k.number - 1].id.ResponseId();
      }
      if i :| 0 <= i < |w.relays| && i !in w.answers && k == w.relays[i].id.ResponseId() {
        assert TicketRight(w, i);
      }
    }
  }

  lemma GoodReplies(w: World)
    requires Replied(w)
    ensures RepliesExact(w)
  {
    forall i | HasReply(w, i)
      ensures 0 <= i < |w.arrivals| && i in w.live && ClientRequest(w.arrivals[i])
    {
      var j :| 0 <= j < |w.replies| && w.replies[j].index == i;
      assert ReplyRight(w, w.replies[j]);
    }
  }

  // --- work conservation ----------------------------------------------------------------------------

  // Mail is held only while every registered worker is at the threshold.
  ghost predicate Conserving(w: World)
    requires Valid(w.router)
  {
    w.router.policy.mails != [] ==> forall a | a in w.router.workers :: w.router.loads[a] == w.router.policy.threshold
  }

  // A new worker joins while mail is held; it could take some at once, but gets none.
  predicate JoinsWhileHeld(w: World, m: Mail) {
    m.content.Put? && m.content.worker !in w.router.workers && w.router.policy.mails != [] && w.router.policy.threshold > 0
  }

  // Before a placement: at most one worker, by one mail, may be below the threshold while mail is held.
  ghost predicate NearlyConserving(w: World, from: Option<Actor>)
    requires Valid(w.router)
  {
    w.router.policy.mails != [] ==>
      forall a | a in w.router.workers ::
        w.router.loads[a] == w.router.policy.threshold || (from == Some(a) && w.router.loads[a] + 1 == w.router.policy.threshold)
  }

  lemma PlaceConserving(w: World, mail: Option<Mail>, from: Option<Actor>)
    requires Good(w) && Placeable(w, mail) && NearlyConserving(w, from) && (mail.Some? ==> from.None?)
    ensures Valid(Place(w, mail).router) && Conserving(Place(w, mail))
  {
    PlaceGood(w, mail);
    NumbersAreFresh(w);
    var c := Place(w, mail);
    var picked := PlaceEffect(w, mail);
    if c.router.policy.mails != [] {
      forall a | a in c.router.workers
        ensures c.router.loads[a] == c.router.policy.threshold
      {
        assert LoadRight(w, w.router.loads[a], |Open(w, a)|);
      }
    }
  }

  lemma ControlConserving(w: World, c: World, m: Mail)
    requires Pooled(w) && Valid(c.router) && Conserving(w) && c.router.policy == w.router.policy
    requires forall a | a in c.router.workers :: a in w.router.workers || (m.content.Put? && a == m.content.worker)
    requires forall a | a in w.router.workers && a in c.router.workers :: c.router.loads[a] == w.router.loads[a]
    requires forall a | a in c.router.workers && a !in w.router.loads :: c.router.loads[a] == 0
    requires m.content.Put? ==> m.content.worker !in w.removed && m.content.worker in c.router.workers
    ensures Conserving(c) <==> !JoinsWhileHeld(w, m)
  {
    if m.content.Put? && m.content.worker !in w.router.workers {
      assert m.content.worker !in w.router.loads;
    }
  }

  lemma AnswerConserving(w: World, c: World, i: nat, content: Content)
    requires Good(w) && Conserving(w) && Answered(w, c, i, content) && Valid(c.router)
    ensures NearlyConserving(c, Some(w.relays[i].worker))
  {
  }

  /** Work conservation, exactly: a step keeps it unless a new worker joins while mail is held. */
  lemma ConservingExact(w: World, m: Mail)
    requires Good(w) && Legal(w, m) && Conserving(w)
    ensures Valid(Advance(w, m).router)
    ensures Conserving(Advance(w, m)) <==> !JoinsWhileHeld(w, m)
  {
    if !m.content.Body? || Rejected(w.router, m) {
      ControlPool(w.router, m);
      assert m.content.Put? ==> m.content.worker in Step(w.router, m).state.workers;
      ControlConserving(w, Control(w, m), m);
    } else if IsAnswer(m) {
      AnswerGood(w, m);
      AnswerConserving(w, TakeAnswer(w, m), IndexOf(m), m.content);
      PlaceConserving(TakeAnswer(w, m), None, m.sender);
    } else {
      PlaceConserving(w, Some(m), None);
    }
  }

  // A step of a run is a step from where the steps before it have led.
  lemma {:induction false} RunStep(w: World, ms: seq<Mail>, k: nat)
    requires LegalRun(w, ms) && k < |ms|
    ensures LegalRun(w, ms[..k]) && LegalRun(w, ms[..k + 1])
    ensures var v := Run(w, ms[..k]);
            Valid(v.router) && Legal(v, ms[k]) && Run(w, ms[..k + 1]) == Advance(v, ms[k])
    decreases |ms|
  {
    if k == 0 {
      assert ms[..1] == [ms[0]] && ms[..1][1..] == [] && ms[..0] == [];
      assert LegalRun(Advance(w, ms[0]), []);
    } else {
      RunStep(Advance(w, ms[0]), ms[1..], k - 1);
      assert ms[..k][1..] == ms[1..][..k - 1] && ms[..k + 1][1..] == ms[1..][..k];
    }
  }

  // After `k` steps held mail means that every registered worker is at the threshold.
  ghost predicate ConservingAt(threshold: nat, ms: seq<Mail>, k: nat) {
    && k <= |ms| && LegalRun(Start(threshold), ms[..k])
    && Good(Run(Start(threshold), ms[..k])) && Conserving(Run(Start(threshold), ms[..k]))
  }

  // Step `k` lets a worker join while mail is held.
  ghost predicate JoinsAt(threshold: nat, ms: seq<Mail>, k: nat) {
    k < |ms| && LegalRun(Start(threshold), ms[..k]) && JoinsWhileHeld(Run(Start(threshold), ms[..k]), ms[k])
  }

  lemma ConservingAtStep(threshold: nat, ms: seq<Mail>, k: nat)
    requires LegalRun(Start(threshold), ms) && k < |ms| && ConservingAt(threshold, ms, k)
    ensures ConservingAt(threshold, ms, k + 1) <==> !JoinsAt(threshold, ms, k)
  {
    RunStep(Start(threshold), ms, k);
    var w := Run(Start(threshold), ms[..k]);
    AdvanceGood(w, ms[k]);
    ConservingExact(w, ms[k]);
  }

  /** Over whole runs: held mail means throughout that every registered worker is at the threshold, if and only if
      no worker ever joins while mail is held. */
  lemma WorkConservation(threshold: nat, ms: seq<Mail>)
    requires threshold < Policy.SIZE_MODULUS && LegalRun(Start(threshold), ms)
    ensures (forall k: nat | k <= |ms| :: ConservingAt(threshold, ms, k)) <==> (forall k: nat | k < |ms| :: !JoinsAt(threshold, ms, k))
  {
    var holds, fine := (k: nat) => ConservingAt(threshold, ms, k), (k: nat) => !JoinsAt(threshold, ms, k);
    StartGood(threshold);
    assert ms[..0] == [] && LegalRun(Start(threshold), []);
    forall k: nat | k < |ms| && holds(k)
      ensures holds(k + 1) <==> fine(k)
    {
      ConservingAtStep(threshold, ms, k);
    }
    Steps.Stepwise(holds, fine, |ms|);
    assert forall k: nat | k <= |ms| :: holds(k) == ConservingAt(threshold, ms, k);
    assert forall k: nat | k < |ms| :: fine(k) == !JoinsAt(threshold, ms, k);
  }

  // --- drain ------------------------------------------------------------------------------------------

  function TotalLoad(workers: seq<Actor>, loads: map<Actor, nat>): nat
    requires forall a | a in workers :: a in loads
    decreases |workers|
  {
    if workers == [] then 0 else loads[workers[0]] + TotalLoad(workers[1..], loads)
  }

  // Mail accepted and not yet answered by a registered worker.
  function Pending(w: World): nat
    requires Valid(w.router)
  {
    |w.router.policy.mails| + TotalLoad(w.router.workers, w.router.loads)
  }

  lemma {:induction false} TotalLoadUpdate(workers: seq<Actor>, loads: map<Actor, nat>, a: Actor, v: nat)
    requires Distinct(workers) && forall x | x in workers :: x in loads
    ensures TotalLoad(workers, loads[a := v]) ==
            if a in workers then TotalLoad(workers, loads) - loads[a] + v else TotalLoad(workers, loads)
    decreases |workers|
  {
    if workers != [] {
      assert forall x | x in workers[1..] :: x in workers && x != workers[0];
      TotalLoadUpdate(workers[1..], loads, a, v);
    }
  }

  lemma {:induction false} TotalLoadAgrees(workers: seq<Actor>, loads: map<Actor, nat>, loads': map<Actor, nat>)
    requires forall a | a in workers :: a in loads && a in loads' && loads[a] == loads'[a]
    ensures TotalLoad(workers, loads) == TotalLoad(workers, loads')
    decreases |workers|
  {
    if workers != [] {
      TotalLoadAgrees(workers[1..], loads, loads');
    }
  }

  lemma {:induction false} TotalLoadZero(workers: seq<Actor>, loads: map<Actor, nat>)
    requires forall a | a in workers :: a in loads
    ensures TotalLoad(workers, loads) == 0 <==> forall a | a in workers :: loads[a] == 0
    decreases |workers|
  {
    if workers != [] {
      assert forall x :: x in workers <==> x == workers[0] || x in workers[1..];
      TotalLoadZero(workers[1..], loads);
    }
  }

  lemma PlaceKeepsPending(w: World, mail: Option<Mail>)
    requires Good(w) && Placeable(w, mail)
    ensures Good(Place(w, mail))
    ensures Pending(Place(w, mail)) == Pending(w) + |Listed(mail)|
  {
    PlaceGood(w, mail);
    NumbersAreFresh(w);
    var picked := PlaceEffect(w, mail);
    if picked.Some? {
      TotalLoadUpdate(w.router.workers, w.router.loads, picked.value, w.router.loads[picked.value] + 1);
    }
  }

  /** Each answer of a registered worker lowers the pending mail by exactly one and moves no worker. */
  lemma AnswerLowersPending(w: World, m: Mail)
    requires Good(w) && Legal(w, m) && IsAnswer(m) && m.sender.value in w.router.workers
    ensures Good(Advance(w, m))
    ensures Pending(Advance(w, m)) == Pending(w) - 1
    ensures Advance(w, m).router.workers == w.router.workers
    ensures Advance(w, m).arrivals == w.arrivals && Advance(w, m).removed == w.removed
    ensures Advance(w, m).router.policy.threshold == w.router.policy.threshold
  {
    AdvanceGood(w, m);
    AnswerGood(w, m);
    var c, from := TakeAnswer(w, m), m.sender.value;
    AnswerTotal(w, c, IndexOf(m), m.content);
    PlaceKeepsPending(c, None);
    NumbersAreFresh(c);
    var picked := PlaceEffect(c, None);
    assert w.arrivals + [] == w.arrivals;
  }

  lemma AnswerTotal(w: World, c: World, i: nat, content: Content)
    requires Pooled(w) && Valid(c.router) && Answered(w, c, i, content) && w.relays[i].worker in w.router.workers
    ensures Pending(c) == Pending(w) - 1
  {
    var from := w.relays[i].worker;
    TotalLoadUpdate(w.router.workers, w.router.loads, from, c.router.loads[from]);
    TotalLoadAgrees(w.router.workers, w.router.loads[from := c.router.loads[from]], c.router.loads);
  }

  // Relay `i` still waits for an answer of a registered worker.
  predicate Outstanding(w: World, i: int) {
    0 <= i < |w.relays| && i !in w.answers && w.relays[i].worker in w.router.workers
  }

  // No answer is outstanding exactly when all registered loads are zero.
  lemma OutstandingExact(w: World)
    requires Good(w)
    ensures (exists i :: Outstanding(w, i)) <==> TotalLoad(w.router.workers, w.router.loads) > 0
  {
    TotalLoadZero(w.router.workers, w.router.loads);
    if i :| Outstanding(w, i) {
      OutstandingLoads(w, i);
    }
    if a :| a in w.router.workers && w.router.loads[a] > 0 {
      LoadOutstanding(w, a);
    }
  }

  lemma OutstandingLoads(w: World, i: nat)
    requires Pooled(w) && Counted(w) && Outstanding(w, i)
    ensures w.router.loads[w.relays[i].worker] > 0
  {
    var a := w.relays[i].worker;
    assert i in Open(w, a) && LoadRight(w, w.router.loads[a], |Open(w, a)|);
  }

  lemma LoadOutstanding(w: World, a: Actor)
    requires Pooled(w) && Counted(w) && a in w.router.workers && w.router.loads[a] > 0
    ensures exists i :: Outstanding(w, i)
  {
    assert LoadRight(w, w.router.loads[a], |Open(w, a)|) && Open(w, a) != {};
    var i :| i in Open(w, a);
    assert Outstanding(w, i);
  }

  // Mail is not stuck: none is held, or some registered worker has still to answer.
  ghost predicate CanMove(w: World) {
    w.router.policy.mails == [] || exists i :: Outstanding(w, i)
  }

  lemma CanMoveMeaning(w: World)
    requires Good(w)
    ensures CanMove(w) && Pending(w) > 0 ==> exists i :: Outstanding(w, i)
    ensures Pending(w) == 0 ==> CanMove(w) && |w.relays| == |w.arrivals| && forall i :: !Outstanding(w, i)
  {
    OutstandingExact(w);
  }

  /** Whatever was held, the answer of a registered worker leaves mail that can move: a worker below the
      threshold takes the oldest mail at once. */
  lemma AnswerCanMove(w: World, m: Mail)
    requires Good(w) && Legal(w, m) && IsAnswer(m) && m.sender.value in w.router.workers
    ensures Good(Advance(w, m)) && CanMove(Advance(w, m))
  {
    AnswerGood(w, m);
    var c, from := TakeAnswer(w, m), m.sender.value;
    assert c.router.loads[from] < c.router.policy.threshold by {
      assert LoadRight(w, w.router.loads[from], |Open(w, from)|);
    }
    PlacedCanMove(c, from);
  }

  lemma PlacedCanMove(w: World, a: Actor)
    requires Good(w) && a in w.router.workers && w.router.loads[a] < w.router.policy.threshold
    ensures Good(Place(w, None)) && CanMove(Place(w, None))
  {
    PlaceGood(w, None);
    NumbersAreFresh(w);
    var picked := PlaceEffect(w, None);
    if picked.Some? {
      LoadOutstanding(Place(w, None), picked.value);
    }
  }

  // A run of answers from registered workers, with nothing else happening.
  ghost predicate AnswersOnly(w: World, ms: seq<Mail>)
    requires LegalRun(w, ms)
    decreases |ms|
  {
    ms != [] ==> IsAnswer(ms[0]) && ms[0].sender.value in w.router.workers && AnswersOnly(Advance(w, ms[0]), ms[1..])
  }

  /** Drain, from any state a run can lead to: with fixed workers and no arrivals, `n` answers lower the pending mail
      by `n`. If mail can move, it can throughout: until nothing is pending some answer is still
      outstanding, and then all mail has been relayed and every relay to a registered worker answered.
      If it cannot, there is no such answer at all. */
  lemma {:induction false} Drain(w: World, ms: seq<Mail>)
    requires Good(w) && LegalRun(w, ms) && AnswersOnly(w, ms)
    ensures var e := Run(w, ms);
            && Good(e) && e.arrivals == w.arrivals && e.router.workers == w.router.workers && e.removed == w.removed
            && Pending(e) == Pending(w) - |ms|
            && (CanMove(w) ==>
                  && CanMove(e)
                  && (|ms| < Pending(w) ==> exists i :: Outstanding(e, i))
                  && (|ms| == Pending(w) ==> |e.relays| == |e.arrivals| && forall i :: !Outstanding(e, i)))
            && (!CanMove(w) ==> ms == [])
    decreases |ms|
  {
    if ms == [] {
      CanMoveMeaning(w);
    } else {
      assert Outstanding(w, IndexOf(ms[0]));
      AnswerLowersPending(w, ms[0]);
      AnswerCanMove(w, ms[0]);
      Drain(Advance(w, ms[0]), ms[1..]);
    }
  }

  // Some answers of registered workers alone settle everything.
  ghost predicate Drains(w: World) {
    exists ms :: DrainedBy(w, ms)
  }

  ghost predicate DrainedBy(w: World, ms: seq<Mail>) {
    LegalRun(w, ms) && AnswersOnly(w, ms) && Good(Run(w, ms)) && Pending(Run(w, ms)) == 0
  }

  /** Everything pending can be settled by answers of registered workers exactly if mail is not stuck. */
  lemma DrainExact(w: World)
    requires Good(w)
    ensures Drains(w) <==> CanMove(w)
  {
    if ms :| DrainedBy(w, ms) {
      Drain(w, ms);
      CanMoveMeaning(Run(w, ms));
    }
    if CanMove(w) {
      var ms := Draining(w);
      assert DrainedBy(w, ms);
    }
  }

  lemma {:induction false} Draining(w: World) returns (ms: seq<Mail>)
    requires Good(w) && CanMove(w)
    ensures DrainedBy(w, ms)
    decreases Pending(w)
  {
    if Pending(w) == 0 {
      ms := [];
    } else {
      var m := NextAnswer(w);
      var more := Draining(Advance(w, m));
      DrainedCons(w, m, more);
      ms := [m] + more;
    }
  }

  lemma NextAnswer(w: World) returns (m: Mail)
    requires Good(w) && CanMove(w) && Pending(w) > 0
    ensures Legal(w, m) && IsAnswer(m) && m.sender.value in w.router.workers
    ensures Good(Advance(w, m)) && CanMove(Advance(w, m)) && Pending(Advance(w, m)) == Pending(w) - 1
  {
    CanMoveMeaning(w);
    var i :| Outstanding(w, i);
    m := AnswerTo(w, i, "");
    OutstandingCanAnswer(w, i, "");
    AnswerLowersPending(w, m);
    AnswerCanMove(w, m);
  }

  lemma DrainedCons(w: World, m: Mail, more: seq<Mail>)
    requires Valid(w.router) && Legal(w, m) && IsAnswer(m) && m.sender.value in w.router.workers && DrainedBy(Advance(w, m), more)
    ensures DrainedBy(w, [m] + more)
  {
    var ms := [m] + more;
    assert ms[0] == m && ms[1..] == more;
    assert LegalRun(w, ms) && AnswersOnly(w, ms) && Run(w, ms) == Run(Advance(w, m), more);
  }

  // Conserving states are never stuck, provided some worker may take mail at all.
  lemma ConservingCanMove(w: World)
    requires Good(w) && Conserving(w) && w.router.workers != [] && w.router.policy.threshold > 0
    ensures CanMove(w)
  {
    if w.router.policy.mails != [] {
      assert w.router.workers[0] in w.router.workers;
      LoadOutstanding(w, w.router.workers[0]);
    }
  }

  /** So from conserving states everything drains, and the states stay conserving. */
  lemma {:induction false} ConservingDrain(w: World, ms: seq<Mail>)
    requires Good(w) && Conserving(w) && w.router.workers != [] && w.router.policy.threshold > 0
    requires LegalRun(w, ms) && AnswersOnly(w, ms)
    ensures var e := Run(w, ms);
            && Good(e) && Conserving(e) && Drains(w)
            && Pending(e) == Pending(w) - |ms|
            && (|ms| < Pending(w) ==> exists i :: Outstanding(e, i))
            && (|ms| == Pending(w) ==> |e.relays| == |e.arrivals| && forall i :: !Outstanding(e, i))
    decreases |ms|
  {
    ConservingCanMove(w);
    DrainExact(w);
    Drain(w, ms);
    if ms != [] {
      AnswerLowersPending(w, ms[0]);
      ConservingExact(w, ms[0]);
      ConservingDrain(Advance(w, ms[0]), ms[1..]);
    }
  }

  // Relay `i` is unanswered, whether or not its worker is still registered.
  predicate Unanswered(w: World, i: int) {
    0 <= i < |w.relays| && i !in w.answers
  }

  function AnswerTo(w: World, i: int, text: string): Mail
    requires Unanswered(w, i)
  {
    Mail(Some(w.relays[i].worker), w.relays[i].id.ResponseId(), Body(text))
  }

  // The environment may answer any unanswered relay, also after its worker was removed.
  lemma UnansweredCanAnswer(w: World, i: int, text: string)
    requires Ordered(w) && Unanswered(w, i) && (w.router.policy.mails != [] ==> w.router.workers != [])
    ensures var m := AnswerTo(w, i, text);
            Legal(w, m) && IsAnswer(m) && IndexOf(m) == i
  {
    assert RelayRight(w, i);
  }

  // The outstanding answer that `Drain` promises is one the environment may give.
  lemma OutstandingCanAnswer(w: World, i: int, text: string)
    requires Ordered(w) && Outstanding(w, i)
    ensures var m := AnswerTo(w, i, text);
            Legal(w, m) && IsAnswer(m) && IndexOf(m) == i && m.sender.value in w.router.workers
  {
    UnansweredCanAnswer(w, i, text);
  }

  // --- what releases held mail -----------------------------------------------------------------------

  ghost predicate HasRoom(w: World)
    requires Valid(w.router)
  {
    exists a :: a in w.router.workers && w.router.loads[a] < w.router.policy.threshold
  }

  // Any answer or new mail runs the policy; an answer of a registered worker also makes the room it needs.
  ghost predicate Releases(w: World, m: Mail)
    requires Valid(w.router)
  {
    m.content.Body? && !Rejected(w.router, m) && (HasRoom(w) || (IsAnswer(m) && m.sender.Some? && m.sender.value in w.router.workers))
  }

  /** Exactly what gets held mail moving: any new mail and any answer, a removed worker's late one included, while some
      registered worker is below the threshold, and every answer of a registered worker. It relays
      the oldest mail; every other step relays nothing. */
  lemma ReleaseExact(w: World, m: Mail)
    requires Good(w) && Legal(w, m) && w.router.policy.mails != []
    ensures var c := Advance(w, m);
            && (if Releases(w, m) then |c.relays| == |w.relays| + 1 && c.relays[|w.relays|].content == w.router.policy.mails[0].content
                else c.relays == w.relays)
  {
    if m.content.Body? && !Rejected(w.router, m) {
      if IsAnswer(m) {
        AnswerGood(w, m);
        AnswerMakesRoom(w, TakeAnswer(w, m), m);
        PlaceReleases(TakeAnswer(w, m), None);
      } else {
        PlaceReleases(w, Some(m));
      }
    }
  }

  lemma PlaceReleases(w: World, mail: Option<Mail>)
    requires Good(w) && Placeable(w, mail) && w.router.policy.mails != []
    ensures var c := Place(w, mail);
            && (if HasRoom(w) then |c.relays| == |w.relays| + 1 && c.relays[|w.relays|].content == w.router.policy.mails[0].content
                else c.relays == w.relays)
  {
    NumbersAreFresh(w);
    var picked := PlaceEffect(w, mail);
    assert (w.router.policy.mails + Listed(mail))[0] == w.router.policy.mails[0];
  }

  lemma AnswerMakesRoom(w: World, c: World, m: Mail)
    requires Good(w) && Legal(w, m) && IsAnswer(m) && c == TakeAnswer(w, m) && Valid(c.router)
    requires Answered(w, c, IndexOf(m), m.content)
    ensures HasRoom(c) <==> HasRoom(w) || m.sender.value in w.router.workers
  {
    var from := m.sender.value;
    if from in w.router.workers {
      assert LoadRight(w, w.router.loads[from], |Open(w, from)|);
      assert c.router.loads[from] < c.router.policy.threshold;
    } else {
      assert forall a | a in w.router.workers :: c.router.loads[a] == w.router.loads[a];
    }
  }

  // --- a run in which held mail stalls ------------------------------------------------------------

  ghost predicate Reachable(threshold: nat, w: World) {
    exists ms :: LegalRun(Start(threshold), ms) && Run(Start(threshold), ms) == w
  }

  lemma {:induction false} RunAppend(w: World, ms: seq<Mail>, m: Mail)
    requires LegalRun(w, ms) && Valid(Run(w, ms).router) && Legal(Run(w, ms), m)
    ensures LegalRun(w, ms + [m]) && Run(w, ms + [m]) == Advance(Run(w, ms), m)
    decreases |ms|
  {
    if ms == [] {
      assert [] + [m] == [m] && [m][1..] == [];
      assert LegalRun(Advance(w, m), []);
    } else {
      assert (ms + [m])[1..] == ms[1..] + [m];
      RunAppend(Advance(w, ms[0]), ms[1..], m);
    }
  }

  lemma ReachNext(threshold: nat, w: World, m: Mail)
    requires Reachable(threshold, w) && Valid(w.router) && Legal(w, m)
    ensures Reachable(threshold, Advance(w, m))
  {
    var ms :| LegalRun(Start(threshold), ms) && Run(Start(threshold), ms) == w;
    RunAppend(Start(threshold), ms, m);
  }

  // One registered worker at threshold 1 and `load` relays open, with `held` waiting.
  ghost predicate Single(w: World, workers: seq<Actor>, load: nat, held: seq<Mail>) {
    && Good(w) && w.router.policy.threshold == 1 && w.router.policy.mails == held && w.router.workers == workers
    && forall a | a in workers :: w.router.loads[a] == load
  }

  lemma SingleArrival(w: World, a: Actor, load: nat, x: Mail)
    requires Single(w, [a], load, []) && load <= 1 && x.content.Body? && x.mid.Async?
    ensures Legal(w, x) && Single(Advance(w, x), [a], 1, if load == 0 then [] else [x])
    ensures Advance(w, x).removed == w.removed
  {
    AdvanceGood(w, x);
    NumbersAreFresh(w);
    assert a in w.router.workers;
    assert [] + Listed(Some(x)) == [x];
    var picked := PlaceEffect(w, Some(x));
  }

  lemma SingleDelete(w: World, a: Actor, held: seq<Mail>, m: Mail)
    requires Single(w, [a], 1, held) && m.content == Delete(a)
    ensures Legal(w, m) && Single(Advance(w, m), [], 0, held)
    ensures Advance(w, m).removed == w.removed + {a} && SameTraffic(w, Advance(w, m))
  {
    AdvanceGood(w, m);
    DeleteEffect(w, a, m);
  }

  lemma DeleteEffect(w: World, a: Actor, m: Mail)
    requires Valid(w.router) && w.router.workers == [a] && m.content == Delete(a)
    ensures Acceptable(w.router, m)
    ensures var c := Advance(w, m);
            c.router.workers == [] && c.router.policy == w.router.policy && c.removed == w.removed + {a}
  {
    DeleteOnly(w.router, a, m);
    assert Members([a]) - Members([]) == {a};
  }

  lemma DeleteOnly(r: State, a: Actor, m: Mail)
    requires Valid(r) && r.workers == [a] && m.content == Delete(a)
    ensures Acceptable(r, m) && Step(r, m).state.workers == [] && Step(r, m).state.policy == r.policy
  {
  }

  lemma SingleJoin(w: World, b: Actor, held: seq<Mail>, m: Mail)
    requires Single(w, [], 0, held) && m.content == Put(b) && b !in w.removed
    ensures Legal(w, m) && Single(Advance(w, m), [b], 0, held)
    ensures Advance(w, m).removed == w.removed && SameTraffic(w, Advance(w, m))
  {
    AdvanceGood(w, m);
    assert b !in w.router.loads;
  }

  /** Why joining matters. After `put a`, mail x, mail y, `delete a`, `put b` at threshold 1, mail y is held beside an
      idle worker, no registered worker has anything to answer, and mail is stuck until new mail or a
      late answer of `a` comes in. */
  lemma HeldMailCanStall(a: Actor, b: Actor, x: Mail, y: Mail)
    requires a != b
    requires x.content.Body? && x.mid.Async? && y.content.Body? && y.mid.Async?
    ensures exists w, i :: Reachable(1, w) && Single(w, [b], 0, [y]) && !CanMove(w) && Unanswered(w, i) && w.relays[i].worker == a
  {
    var w0 := Start(1);
    StartGood(1);
    assert LegalRun(w0, []) && Run(w0, []) == w0;
    var w1 := Advance(w0, Mail(None, Async(false), Put(a)));
    SingleJoin(w0, a, [], Mail(None, Async(false), Put(a)));
    ReachNext(1, w0, Mail(None, Async(false), Put(a)));
    var w3 := TwoArrivals(w1, a, x, y);
    var w5 := Replaced(w3, a, b, y);
    var i := StuckAfterReplacing(w3, w5, a, b, y);
    assert Reachable(1, w5) && Single(w5, [b], 0, [y]);
  }

  lemma StuckAfterReplacing(w: World, v: World, a: Actor, b: Actor, y: Mail) returns (i: nat)
    requires Single(w, [a], 1, [y]) && Single(v, [b], 0, [y]) && SameTraffic(w, v)
    ensures !CanMove(v) && Unanswered(v, i) && v.relays[i].worker == a
  {
    i := SingleOpen(w, a, [y]);
    SingleIdle(v, b, [y]);
  }

  lemma SingleOpen(w: World, a: Actor, held: seq<Mail>) returns (i: nat)
    requires Single(w, [a], 1, held)
    ensures Unanswered(w, i) && w.relays[i].worker == a
  {
    assert a in w.router.workers && w.router.loads[a] == 1;
    assert LoadRight(w, w.router.loads[a], |Open(w, a)|) && Open(w, a) != {};
    i :| i in Open(w, a);
  }

  lemma SingleIdle(w: World, b: Actor, held: seq<Mail>)
    requires Single(w, [b], 0, held)
    ensures !exists i :: Outstanding(w, i)
  {
    if i :| Outstanding(w, i) {
      OutstandingLoads(w, i);
    }
  }

  lemma Replaced(w: World, a: Actor, b: Actor, y: Mail) returns (v: World)
    requires Reachable(1, w) && Single(w, [a], 1, [y]) && a != b && b !in w.removed
    ensures Reachable(1, v) && Single(v, [b], 0, [y]) && SameTraffic(w, v)
  {
    var delete, put := Mail(None, Async(false), Delete(a)), Mail(None, Async(false), Put(b));
    SingleDelete(w, a, [y], delete);
    ReachNext(1, w, delete);
    var u := Advance(w, delete);
    SingleJoin(u, b, [y], put);
    ReachNext(1, u, put);
    v := Advance(u, put);
  }

  /** The late answer is one the environment may give, and it releases the stalled mail. */
  lemma LateAnswerReleases(w: World, b: Actor, y: Mail, i: int, text: string)
    requires Single(w, [b], 0, [y]) && Unanswered(w, i)
    ensures var m := AnswerTo(w, i, text);
            Legal(w, m) && Good(Advance(w, m)) && Advance(w, m).router.policy.mails == []
  {
    var m := AnswerTo(w, i, text);
    UnansweredCanAnswer(w, i, text);
    assert b in w.router.workers && HasRoom(w);
    ReleaseExact(w, m);
    AdvanceGood(w, m);
    AnswerArrivals(w, m);
  }

  lemma AnswerArrivals(w: World, m: Mail)
    requires Valid(w.router) && Legal(w, m) && IsAnswer(m)
    ensures Advance(w, m).arrivals == w.arrivals
  {
    assert w.arrivals + [] == w.arrivals;
  }

  lemma TwoArrivals(w: World, a: Actor, x: Mail, y: Mail) returns (v: World)
    requires Reachable(1, w) && Single(w, [a], 0, [])
    requires x.content.Body? && x.mid.Async? && y.content.Body? && y.mid.Async?
    ensures Reachable(1, v) && Single(v, [a], 1, [y]) && v.removed == w.removed
  {
    SingleArrival(w, a, 0, x);
    ReachNext(1, w, x);
    var u := Advance(w, x);
    SingleArrival(u, a, 1, y);
    ReachNext(1, u, y);
    v := Advance(u, y);
  }
}
