// What becomes of everything a client sends, over whole router runs: every request is turned away, held, relayed,
// replied to or answered too late, and every query for the workers is answered.
module RouterClients {
  import opened Mailbox
  import opened Router
  import opened RouterRuns
  import Policy

  // The empty message that turns a request away; `index` is the request's place among all mail received.
  datatype Rejection = Rejection(index: nat, to: Actor, mid: MessageId)

  // The answer to a query for the workers.
  datatype Listing = Listing(index: nat, to: Actor, mid: MessageId, workers: seq<Actor>)

  datatype Trace = Trace(
    world: World,
    received: seq<Mail>,              // all mail, in order
    origins: seq<nat>,                // where each arrival is among it
    unserved: set<nat>,               // requests received while no worker was registered
    rejections: seq<Rejection>,
    asked: map<nat, seq<Actor>>,      // queries received, with the workers registered then
    listings: seq<Listing>)

  predicate IsClientRequest(m: Mail) {
    m.content.Body? && ClientRequest(m)
  }

  predicate IsNewMail(m: Mail) {
    m.content.Body? && !m.mid.Response?
  }

  predicate Unservable(w: World, m: Mail) {
    IsClientRequest(m) && w.router.workers == []
  }

  function RejectionsIn(sends: seq<Send>, index: nat): seq<Rejection>
    decreases |sends|
  {
    if sends == [] then []
    else (if sends[0].EmptyReply? then [Rejection(index, sends[0].to, sends[0].mid)] else []) + RejectionsIn(sends[1..], index)
  }

  function ListingsIn(sends: seq<Send>, index: nat): seq<Listing>
    decreases |sends|
  {
    if sends == [] then []
    else (if sends[0].WorkerList? then [Listing(index, sends[0].to, sends[0].mid, sends[0].workers)] else [])
         + ListingsIn(sends[1..], index)
  }

  function StartTrace(threshold: nat): Trace {
    Trace(Start(threshold), [], [], {}, [], map[], [])
  }

  function Next(t: Trace, m: Mail): Trace
    requires Valid(t.world.router) && Acceptable(t.world.router, m)
  {
    var w, c, index, sends := t.world, Advance(t.world, m), |t.received|, Step(t.world.router, m).sends;
    Trace(c,
          t.received + [m],
          if |c.arrivals| > |w.arrivals| then t.origins + [index] else t.origins,
          if Unservable(w, m) then t.unserved + {index} else t.unserved,
          t.rejections + RejectionsIn(sends, index),
          if m.content.Get? then t.asked[index := w.router.workers] else t.asked,
          t.listings + ListingsIn(sends, index))
  }

  ghost function TraceOf(threshold: nat, ms: seq<Mail>): (t: Trace)
    requires LegalRun(Start(threshold), ms)
    ensures t.world == Run(Start(threshold), ms) && t.received == ms
    decreases |ms|
  {
    if ms == [] then StartTrace(threshold)
    else
      var k := |ms| - 1;
      RunStep(Start(threshold), ms, k);
      assert ms[..k + 1] == ms && ms == ms[..k] + [ms[k]];
      Next(TraceOf(threshold, ms[..k]), ms[k])
  }

  // --- what one step sends to clients directly ---------------------------------------------------

  lemma {:induction false} NoneIn(sends: seq<Send>, index: nat)
    requires forall x | x in sends :: !x.EmptyReply? && !x.WorkerList?
    ensures RejectionsIn(sends, index) == [] && ListingsIn(sends, index) == []
    decreases |sends|
  {
    if sends != [] {
      assert sends[0] in sends;
      NoneIn(sends[1..], index);
    }
  }

  lemma OneIn(x: Send, index: nat)
    ensures RejectionsIn([x], index) == if x.EmptyReply? then [Rejection(index, x.to, x.mid)] else []
    ensures ListingsIn([x], index) == if x.WorkerList? then [Listing(index, x.to, x.mid, x.workers)] else []
  {
    assert [x][1..] == [] && RejectionsIn([], index) == [] && ListingsIn([], index) == [];
  }

  lemma RelaysAndRepliesOnly(r: State, m: Mail)
    requires Valid(r) && Acceptable(r, m) && m.content.Body? && !Rejected(r, m)
    ensures forall x | x in Step(r, m).sends :: x.ToWorker? || x.ToClient?
  {
    if IsAnswer(m) {
      var a := Answer(r, m.sender.value, m.mid, m.content);
      assert forall x | x in a.sends :: x.ToClient?;
      assert forall x | x in Dispatch(a.state, None).sends :: x.ToWorker?;
    }
  }

  /** A request nobody can serve gets one empty message, to its sender under its response id, and a query one list of the
      workers registered then; no other mail gets either. */
  lemma DirectSends(w: World, m: Mail, index: nat)
    requires Valid(w.router) && Acceptable(w.router, m)
    ensures RejectionsIn(Step(w.router, m).sends, index) ==
            if Unservable(w, m) then [Rejection(index, m.sender.value, Response(m.mid.number, m.mid.urgent))] else []
    ensures ListingsIn(Step(w.router, m).sends, index) ==
            if m.content.Get? then [Listing(index, m.sender.value, m.mid.ResponseId(), w.router.workers)] else []
  {
    var sends := Step(w.router, m).sends;
    if m.content.Body? {
      if Rejected(w.router, m) {
        OneIn(sends[0], index);
        assert sends == [sends[0]];
      } else {
        RelaysAndRepliesOnly(w.router, m);
        NoneIn(sends, index);
      }
    } else if m.content.Get? {
      OneIn(sends[0], index);
      assert sends == [sends[0]];
    } else {
      NoneIn(sends, index);
    }
  }

  // Exactly the new mail that can be served becomes an arrival.
  lemma ArrivalsGrow(w: World, m: Mail)
    requires Valid(w.router) && Acceptable(w.router, m)
    ensures Advance(w, m).arrivals == if IsNewMail(m) && !Unservable(w, m) then w.arrivals + [m] else w.arrivals
  {
    assert w.arrivals + [] == w.arrivals;
  }

  // --- what every run keeps --------------------------------------------------------------------------

  // Arrivals are received mail, in order.
  ghost predicate Traced(t: Trace) {
    && |t.origins| == |t.world.arrivals|
    && (forall i | 0 <= i < |t.origins| :: t.origins[i] < |t.received| && t.world.arrivals[i] == t.received[t.origins[i]])
    && (forall i, j | 0 <= i < j < |t.origins| :: t.origins[i] < t.origins[j])
  }

  ghost predicate HasOrigin(t: Trace, index: nat) {
    exists i :: 0 <= i < |t.origins| && t.origins[i] == index
  }

  // New mail is either unserved or an arrival, never both.
  ghost predicate Sorted(t: Trace) {
    && (forall index | index in t.unserved :: index < |t.received| && IsClientRequest(t.received[index]) && !HasOrigin(t, index))
    && (forall index: nat | index < |t.received| && IsNewMail(t.received[index]) :: index in t.unserved || HasOrigin(t, index))
  }

  function RejectionOf(t: Trace, index: nat): Rejection
    requires index < |t.received| && IsClientRequest(t.received[index])
  {
    var m := t.received[index];
    Rejection(index, m.sender.value, Response(m.mid.number, m.mid.urgent))
  }

  // Unserved requests, and no others, are turned away, once each.
  ghost predicate TurnedAway(t: Trace) {
    && (forall k | 0 <= k < |t.rejections| :: RejectionRight(t, t.rejections[k]))
    && (forall k, l | 0 <= k < l < |t.rejections| :: t.rejections[k].index != t.rejections[l].index)
    && (forall index | index in t.unserved :: HasRejection(t, index))
  }

  predicate RejectionRight(t: Trace, r: Rejection) {
    r.index in t.unserved && r.index < |t.received| && IsClientRequest(t.received[r.index]) && r == RejectionOf(t, r.index)
  }

  ghost predicate HasRejection(t: Trace, index: nat) {
    exists k :: 0 <= k < |t.rejections| && t.rejections[k].index == index
  }

  // Queries, and no other mail, are answered, once each, with the workers registered at the time.
  ghost predicate Informed(t: Trace) {
    && (forall index | index in t.asked :: index < |t.received| && t.received[index].sender.Some?)
    && (forall index: nat | index < |t.received| :: index in t.asked <==> t.received[index].content.Get?)
    && (forall k | 0 <= k < |t.listings| :: ListingRight(t, t.listings[k]))
    && (forall k, l | 0 <= k < l < |t.listings| :: t.listings[k].index != t.listings[l].index)
    && (forall index | index in t.asked :: HasListing(t, index))
  }

  predicate ListingRight(t: Trace, l: Listing) {
    && l.index in t.asked && l.index < |t.received| && t.received[l.index].sender.Some?
    && l == Listing(l.index, t.received[l.index].sender.value, t.received[l.index].mid.ResponseId(), t.asked[l.index])
  }

  ghost predicate HasListing(t: Trace, index: nat) {
    exists k :: 0 <= k < |t.listings| && t.listings[k].index == index
  }

  lemma TracedStep(t: Trace, u: Trace, m: Mail)
    requires Traced(t) && Valid(t.world.router) && Acceptable(t.world.router, m) && u == Next(t, m)
    ensures Traced(u)
    ensures forall index: nat :: HasOrigin(u, index) <==>
              HasOrigin(t, index) || (index == |t.received| && IsNewMail(m) && !Unservable(t.world, m))
  {
    ArrivalsGrow(t.world, m);
    OriginsGrow(t, u, |t.received|, IsNewMail(m) && !Unservable(t.world, m));
  }

  lemma OriginsGrow(t: Trace, u: Trace, n: nat, grows: bool)
    requires u.origins == if grows then t.origins + [n] else t.origins
    ensures forall index: nat :: HasOrigin(u, index) <==> HasOrigin(t, index) || (index == n && grows)
  {
    forall index: nat
      ensures HasOrigin(u, index) <==> HasOrigin(t, index) || (index == n && grows)
    {
      if HasOrigin(t, index) {
        var i :| 0 <= i < |t.origins| && t.origins[i] == index;
        assert u.origins[i] == index;
      }
      if grows {
        assert u.origins[|t.origins|] == n;
      }
    }
  }

  lemma SortedStep(t: Trace, u: Trace, m: Mail)
    requires Traced(t) && Sorted(t) && Valid(t.world.router) && Acceptable(t.world.router, m) && u == Next(t, m)
    ensures Sorted(u)
  {
    TracedStep(t, u, m);
    forall index | index in u.unserved
      ensures index < |u.received| && IsClientRequest(u.received[index]) && !HasOrigin(u, index)
    {
      if index in t.unserved {
        assert u.received[index] == t.received[index];
      } else {
        NotYet(t, index);
      }
    }
    forall index: nat | index < |u.received| && IsNewMail(u.received[index])
      ensures index in u.unserved || HasOrigin(u, index)
    {
      if index < |t.received| {
        assert u.received[index] == t.received[index];
      }
    }
  }

  lemma NotYet(t: Trace, index: nat)
    requires Traced(t) && index >= |t.received|
    ensures !HasOrigin(t, index)
  {
  }

  lemma TurnedAwayStep(t: Trace, u: Trace, m: Mail)
    requires TurnedAway(t) && (forall index | index in t.unserved :: index < |t.received|)
    requires Valid(t.world.router) && Acceptable(t.world.router, m) && u == Next(t, m)
    ensures TurnedAway(u)
  {
    DirectSends(t.world, m, |t.received|);
    RejectionsGrow(t, u, m);
  }

  lemma RejectionsGrow(t: Trace, u: Trace, m: Mail)
    requires TurnedAway(t) && forall index | index in t.unserved :: index < |t.received|
    requires u.received == t.received + [m]
    requires u.unserved == if Unservable(t.world, m) then t.unserved + {|t.received|} else t.unserved
    requires u.rejections == t.rejections +
             if Unservable(t.world, m) then [Rejection(|t.received|, m.sender.value, Response(m.mid.number, m.mid.urgent))] else []
    ensures TurnedAway(u)
  {
    forall k | 0 <= k < |u.rejections|
      ensures RejectionRight(u, u.rejections[k]) && (k < |t.rejections| ==> u.rejections[k].index < |t.received|)
    {
      if k < |t.rejections| {
        assert RejectionRight(t, t.rejections[k]);
      }
    }
    forall index | index in u.unserved
      ensures HasRejection(u, index)
    {
      if index in t.unserved {
        assert HasRejection(t, index);
        var k :| 0 <= k < |t.rejections| && t.rejections[k].index == index;
        assert u.rejections[k].index == index;
      } else {
        assert u.rejections[|t.rejections|].index == index;
      }
    }
  }

  lemma InformedStep(t: Trace, u: Trace, m: Mail)
    requires Informed(t) && Valid(t.world.router) && Acceptable(t.world.router, m) && u == Next(t, m)
    ensures Informed(u)
  {
    DirectSends(t.world, m, |t.received|);
    ListingsGrow(t, u, m);
  }

  lemma ListingsGrow(t: Trace, u: Trace, m: Mail)
    requires Informed(t) && u.received == t.received + [m] && (m.content.Get? ==> m.sender.Some?)
    requires u.asked == if m.content.Get? then t.asked[|t.received| := t.world.router.workers] else t.asked
    requires u.listings == t.listings +
             if m.content.Get? then [Listing(|t.received|, m.sender.value, m.mid.ResponseId(), t.world.router.workers)] else []
    ensures Informed(u)
  {
    forall k | 0 <= k < |u.listings|
      ensures ListingRight(u, u.listings[k]) && (k < |t.listings| ==> u.listings[k].index < |t.received|)
    {
      if k < |t.listings| {
        assert ListingRight(t, t.listings[k]);
      }
    }
    forall index | index in u.asked
      ensures HasListing(u, index)
    {
      if index in t.asked {
        ListingStays(t, u, index);
      } else {
        assert u.listings[|t.listings|].index == index;
      }
    }
  }

  lemma ListingStays(t: Trace, u: Trace, index: nat)
    requires HasListing(t, index) && t.listings <= u.listings
    ensures HasListing(u, index)
  {
    var k :| 0 <= k < |t.listings| && t.listings[k].index == index;
    assert u.listings[k].index == index;
  }

  ghost predicate Accounted(t: Trace) {
    Traced(t) && Sorted(t) && TurnedAway(t) && Informed(t)
  }

  lemma {:induction false} TraceAccounted(threshold: nat, ms: seq<Mail>)
    requires LegalRun(Start(threshold), ms)
    ensures Accounted(TraceOf(threshold, ms))
    decreases |ms|
  {
    if ms != [] {
      var k := |ms| - 1;
      RunStep(Start(threshold), ms, k);
      var t := TraceOf(threshold, ms[..k]);
      TraceAccounted(threshold, ms[..k]);
      assert TraceOf(threshold, ms) == Next(t, ms[k]);
      TracedStep(t, Next(t, ms[k]), ms[k]);
      SortedStep(t, Next(t, ms[k]), ms[k]);
      TurnedAwayStep(t, Next(t, ms[k]), ms[k]);
      InformedStep(t, Next(t, ms[k]), ms[k]);
    }
  }

  // --- the theorems --------------------------------------------------------------------------------------

  // A client's request that comes when no worker is registered.
  ghost predicate UnservedAt(threshold: nat, ms: seq<Mail>, index: nat) {
    && index < |ms| && LegalRun(Start(threshold), ms[..index])
    && Unservable(Run(Start(threshold), ms[..index]), ms[index])
  }

  /** In every run, the requests received while no worker was registered, and no other mail, get one empty message each, to
      their sender under their response id, and never become arrivals. */
  lemma RejectionsExact(threshold: nat, ms: seq<Mail>, index: nat)
    requires LegalRun(Start(threshold), ms) && index < |ms|
    ensures var t := TraceOf(threshold, ms);
            && (HasRejection(t, index) <==> UnservedAt(threshold, ms, index))
            && (HasRejection(t, index) ==> !HasOrigin(t, index))
            && TurnedAway(t)
  {
    TraceAccounted(threshold, ms);
    UnservedExact(threshold, ms, index);
    RejectedMeansUnserved(TraceOf(threshold, ms), index);
  }

  lemma RejectedMeansUnserved(t: Trace, index: nat)
    requires TurnedAway(t)
    ensures HasRejection(t, index) <==> index in t.unserved
  {
    if k :| 0 <= k < |t.rejections| && t.rejections[k].index == index {
      assert RejectionRight(t, t.rejections[k]);
    }
  }

  lemma {:induction false} UnservedExact(threshold: nat, ms: seq<Mail>, index: nat)
    requires LegalRun(Start(threshold), ms) && index < |ms|
    ensures index in TraceOf(threshold, ms).unserved <==> UnservedAt(threshold, ms, index)
    decreases |ms|
  {
    var k := |ms| - 1;
    RunStep(Start(threshold), ms, k);
    UnservedSnoc(threshold, ms, k, index);
    if index < k {
      UnservedExact(threshold, ms[..k], index);
      UnservedPrefix(threshold, ms, k, index);
    }
  }

  lemma UnservedPrefix(threshold: nat, ms: seq<Mail>, k: nat, index: nat)
    requires index < k <= |ms|
    ensures UnservedAt(threshold, ms[..k], index) <==> UnservedAt(threshold, ms, index)
  {
    assert ms[..k][..index] == ms[..index] && ms[..k][index] == ms[index];
  }

  // The last mail of a run decides about its own index alone.
  lemma UnservedSnoc(threshold: nat, ms: seq<Mail>, k: nat, index: nat)
    requires LegalRun(Start(threshold), ms) && k == |ms| - 1 && LegalRun(Start(threshold), ms[..k]) && index <= k
    ensures index in TraceOf(threshold, ms).unserved <==>
            if index < k then index in TraceOf(threshold, ms[..k]).unserved else UnservedAt(threshold, ms, k)
  {
    RunStep(Start(threshold), ms, k);
    TraceAccounted(threshold, ms[..k]);
    assert TraceOf(threshold, ms) == Next(TraceOf(threshold, ms[..k]), ms[k]);
    assert k !in TraceOf(threshold, ms[..k]).unserved;
  }

  /** In every run, each query for the workers, and no other mail, gets one list, to its sender under its response id, with
      the workers registered when it was received. */
  lemma QueriesAnswered(threshold: nat, ms: seq<Mail>, index: nat)
    requires LegalRun(Start(threshold), ms) && index < |ms|
    ensures var t := TraceOf(threshold, ms);
            && (ms[index].content.Get? <==> HasListing(t, index))
            && Informed(t)
  {
    TraceAccounted(threshold, ms);
    var t := TraceOf(threshold, ms);
    if k :| 0 <= k < |t.listings| && t.listings[k].index == index {
      assert ListingRight(t, t.listings[k]);
    }
  }

  // What has become of a client's request.
  datatype Fate = RejectedAtOnce | Held | Relayed | RepliedTo | AnsweredTooLate

  // Arrival `i` is the request received at `index`.
  predicate IsArrival(t: Trace, i: nat, index: nat) {
    i < |t.origins| && t.origins[i] == index
  }

  ghost predicate HasFate(t: Trace, index: nat, fate: Fate) {
    match fate
    case RejectedAtOnce => HasRejection(t, index)
    case Held => exists i: nat :: IsArrival(t, i, index) && i >= |t.world.relays|
    case Relayed => exists i: nat :: IsArrival(t, i, index) && i < |t.world.relays| && i !in t.world.answers
    case RepliedTo => exists i: nat :: IsArrival(t, i, index) && i < |t.world.relays| && i in t.world.live && HasReply(t.world, i)
    case AnsweredTooLate =>
      exists i: nat :: IsArrival(t, i, index) && i < |t.world.relays| && i in t.world.answers && i !in t.world.live && !HasReply(t.world, i)
  }

  // Replies carry the worker's answer to the request's sender under the request's response id.
  ghost predicate ReplyCarries(t: Trace, r: Reply) {
    && r.index in t.world.answers && r.index < |t.origins| && t.origins[r.index] < |t.received|
    && var m := t.received[t.origins[r.index]];
       IsClientRequest(m) && r == Reply(r.index, m.sender.value, Response(m.mid.number, m.mid.urgent), t.world.answers[r.index])
  }

  ghost predicate OneFateOnly(t: Trace, index: nat) {
    && (exists fate :: HasFate(t, index, fate))
    && (forall f, g | HasFate(t, index, f) && HasFate(t, index, g) :: f == g)
  }

  ghost predicate RepliesCarry(t: Trace) {
    forall k | 0 <= k < |t.world.replies| :: ReplyCarries(t, t.world.replies[k])
  }

  /** In every run, every client request ever received has exactly one fate: rejected with an empty message, held, relayed and
      not yet answered, replied to, or answered after its worker was removed; and every reply carries the
      worker's answer to the sender of its request, under that request's response id. */
  lemma EveryRequestHasOneFate(threshold: nat, ms: seq<Mail>, index: nat)
    requires threshold < Policy.SIZE_MODULUS && LegalRun(Start(threshold), ms) && index < |ms| && IsClientRequest(ms[index])
    ensures OneFateOnly(TraceOf(threshold, ms), index) && RepliesCarry(TraceOf(threshold, ms))
  {
    TraceAccounted(threshold, ms);
    StartGood(threshold);
    RunGood(Start(threshold), ms);
    GoodReplies(Run(Start(threshold), ms));
    FatesOf(TraceOf(threshold, ms), index);
    AllRepliesCarry(TraceOf(threshold, ms));
  }

  lemma FatesOf(t: Trace, index: nat)
    requires Accounted(t) && Replied(t.world) && RepliesExact(t.world) && index < |t.received| && IsClientRequest(t.received[index])
    ensures OneFateOnly(t, index)
  {
    SomeFate(t, index);
    forall f, g | HasFate(t, index, f) && HasFate(t, index, g)
      ensures f == g
    {
      OneFate(t, index, f, g);
    }
  }

  lemma AllRepliesCarry(t: Trace)
    requires Traced(t) && Ordered(t.world) && Replied(t.world)
    ensures RepliesCarry(t)
  {
    forall k | 0 <= k < |t.world.replies|
      ensures ReplyCarries(t, t.world.replies[k])
    {
      assert ReplyRight(t.world, t.world.replies[k]);
      ReplyIsCarried(t, t.world.replies[k]);
    }
  }

  lemma ReplyIsCarried(t: Trace, r: Reply)
    requires Traced(t) && Ordered(t.world) && ReplyRight(t.world, r)
    ensures ReplyCarries(t, r)
  {
    var m := t.world.arrivals[r.index];
    assert m in t.world.arrivals;
  }

  lemma SomeFate(t: Trace, index: nat)
    requires Traced(t) && Sorted(t) && Replied(t.world) && RepliesExact(t.world)
    requires index < |t.received| && IsClientRequest(t.received[index])
    requires forall j | j in t.unserved :: HasRejection(t, j)
    ensures exists fate :: HasFate(t, index, fate)
  {
    if index in t.unserved {
      assert HasFate(t, index, RejectedAtOnce);
    } else {
      var i: nat :| i < |t.origins| && t.origins[i] == index;
      assert IsArrival(t, i, index);
      if i >= |t.world.relays| {
        assert HasFate(t, index, Held);
      } else if i !in t.world.answers {
        assert HasFate(t, index, Relayed);
      } else if i in t.world.live {
        assert HasReply(t.world, i);
        assert HasFate(t, index, RepliedTo);
      } else {
        assert HasFate(t, index, AnsweredTooLate);
      }
    }
  }

  // An arrival is received once.
  lemma OneArrival(t: Trace, i: nat, j: nat, index: nat)
    requires Traced(t) && IsArrival(t, i, index) && IsArrival(t, j, index)
    ensures i == j
  {
  }

  lemma OneFate(t: Trace, index: nat, f: Fate, g: Fate)
    requires Accounted(t) && Replied(t.world) && HasFate(t, index, f) && HasFate(t, index, g)
    ensures f == g
  {
    if f.RejectedAtOnce? || g.RejectedAtOnce? {
      var k :| 0 <= k < |t.rejections| && t.rejections[k].index == index;
      assert RejectionRight(t, t.rejections[k]);
      assert forall i: nat :: !IsArrival(t, i, index);
    } else {
      forall i: nat, j: nat | IsArrival(t, i, index) && IsArrival(t, j, index)
        ensures i == j
      {
        OneArrival(t, i, j, index);
      }
    }
  }
}
