// Many nodes and a network that loses, duplicates and reorders: whatever was ever sent may be heard
// any number of times, at any later moment, by anyone, or never.
module ClusterRuns {
  import opened Addresses
  import opened Membership
  import opened NodeEffects
  import opened NodeRuns

  datatype Cluster = Cluster(
    nodes: map<Addr, State>,
    gossips: set<Gossip>,      // ever queued
    pings: set<Ping>,          // ever sent
    fulls: set<seq<Status>>,   // ever sent
    targets: set<Member>)      // ever pinged

  datatype Action =
    | Local(a: Addr, e: Event)
    | SendPing(a: Addr)
    | SendFullState(a: Addr, sts: seq<Status>)
    | PickTarget(a: Addr, m: Member)

  // One life per address. A relayed ping carries no states.
  ghost predicate IsInitial(c: Cluster) {
    && (forall a | a in c.nodes :: c.nodes[a] == Initial(c.nodes[a].self, c.nodes[a].relayPing) && c.nodes[a].self.addr == a)
    && c.gossips == {} && c.pings == {Ping(map[], map[])} && c.fulls == {} && c.targets == {}
  }

  // What a node hears has been sent; whom it gives up on has been pinged.
  predicate Available(c: Cluster, e: Event) {
    match e
    case Hear(g) => g in c.gossips
    case HearPing(p) => p in c.pings
    case HearFullState(sts) => sts in c.fulls
    case PingOk(m) => m in c.targets
    case PingFail(m) => m in c.targets
    case RelaysFailed(m) => m in c.targets
    case PushFail(m) => m in c.targets
    case _ => true
  }

  // Ping targets are drawn from the other members and the suspects, under the uid stored there.
  predicate Stored(s: State, m: Member) {
    || (m.addr in s.members && m.addr != s.self.addr && s.members[m.addr].uid == m.uid)
    || (m.addr in s.suspects && s.suspects[m.addr].uid == m.uid)
  }

  ghost predicate Enabled(c: Cluster, x: Action) {
    && x.a in c.nodes
    && match x
       case Local(a, e) => Available(c, e)
       case SendPing(a) => true
       case SendFullState(a, sts) => IsFullState(c.nodes[a], sts)
       case PickTarget(a, m) => Stored(c.nodes[a], m)
  }

  function Apply(c: Cluster, x: Action): Cluster
    requires x.a in c.nodes
  {
    match x
    case Local(a, e) =>
      var o := Step(c.nodes[a], e);
      c.(nodes := c.nodes[a := o.state], gossips := c.gossips + (set g | g in o.queued))
    case SendPing(a) => c.(pings := c.pings + {PingBody(c.nodes[a])})
    case SendFullState(a, sts) => c.(fulls := c.fulls + {sts})
    case PickTarget(a, m) => c.(targets := c.targets + {m, Member(m.addr, "")})  // a relay reports without uid
  }

  ghost predicate IsRun(cs: seq<Cluster>, xs: seq<Action>) {
    && |cs| == |xs| + 1 && IsInitial(cs[0])
    && forall k | 0 <= k < |xs| :: Enabled(cs[k], xs[k]) && cs[k + 1] == Apply(cs[k], xs[k])
  }

  // The call has been made at `a` among the actions.
  ghost predicate Called(xs: seq<Action>, a: Addr, e: Event) {
    Local(a, e) in xs
  }

  // --- what is true of everything held and everything in flight --------------------------------------

  // Who owns an address, how far its counter is, and which calls were made there.
  datatype Facts = Facts(uids: map<Addr, string>, counters: map<Addr, nat>, ups: set<Addr>, left: set<Addr>)

  function FactsOf(c: Cluster, xs: seq<Action>): Facts {
    Facts(map a | a in c.nodes :: c.nodes[a].self.uid, map a | a in c.nodes :: c.nodes[a].incarnation,
          set x | x in xs && x.Local? && x.e.ActorSystemUpCall? :: x.a, set x | x in xs && x.Local? && x.e.LeaveCall? :: x.a)
  }

  // An incarnation and a uid about `a` that `a` may have caused.
  predicate Genuine(f: Facts, a: Addr, uid: string, inc: nat) {
    a in f.uids && a in f.counters && uid in {"", f.uids[a]} && inc <= f.counters[a]
  }

  predicate GossipRight(f: Facts, g: Gossip) {
    && Genuine(f, g.member.addr, g.member.uid, g.inc)
    && (g.kind == ActorSystemUp ==> g.member.addr in f.ups)
    && (g.kind == Down ==> g.member.addr in f.left)
    && (g.kind == Up ==> g.member.uid == f.uids[g.member.addr])
  }

  predicate PingRightAt(f: Facts, p: Ping, a: Addr) {
    && (a in p.members ==> Genuine(f, a, p.members[a].uid, p.members[a].inc))
    && (IsUp(p.flags, a) ==> a in f.ups)
  }

  predicate StatusRight(f: Facts, st: Status) {
    Genuine(f, st.member.addr, st.member.uid, 0) && (st.actorSystemUp ==> st.member.addr in f.ups)
  }

  ghost predicate EventRight(f: Facts, e: Event) {
    match e
    case Hear(g) => GossipRight(f, g)
    case HearPing(p) => forall a :: PingRightAt(f, p, a)
    case HearFullState(sts) => forall st | st in sts :: StatusRight(f, st)
    case PingOk(m) => Genuine(f, m.addr, m.uid, 0)
    case PingFail(m) => Genuine(f, m.addr, m.uid, 0)
    case RelaysFailed(m) => Genuine(f, m.addr, m.uid, 0)
    case PushFail(m) => Genuine(f, m.addr, m.uid, 0)
    case _ => true
  }

  predicate NodeRightAt(f: Facts, s: State, a: Addr) {
    && (a in s.members ==> Genuine(f, a, s.members[a].uid, s.members[a].inc))
    && (a in s.suspects ==> Genuine(f, a, s.suspects[a].uid, s.suspects[a].inc))
    && (IsUp(s.actorSystems, a) ==> a in f.ups)
  }

  // The node's own identity; it claims its actor system only after bringing it up.
  predicate OwnRight(f: Facts, s: State) {
    Genuine(f, s.self.addr, s.self.uid, s.incarnation) && s.self.uid == f.uids[s.self.addr] && (s.selfUp ==> s.self.addr in f.ups)
  }

  ghost predicate NodeRight(f: Facts, s: State) {
    OwnRight(f, s) && forall a :: NodeRightAt(f, s, a)
  }

  ghost predicate Sound(f: Facts, c: Cluster) {
    && (forall a | a in c.nodes :: c.nodes[a].self.addr == a && NodeRight(f, c.nodes[a]))
    && (forall g | g in c.gossips :: GossipRight(f, g))
    && (forall p | p in c.pings :: EventRight(f, HearPing(p)))
    && (forall sts | sts in c.fulls :: EventRight(f, HearFullState(sts)))
    && (forall m | m in c.targets :: Genuine(f, m.addr, m.uid, 0))
  }

  // --- one step ------------------------------------------------------------------------------------------

  // Counters grow, calls accumulate, owners stay.
  predicate Grows(f: Facts, h: Facts) {
    && f.uids == h.uids && f.ups <= h.ups && f.left <= h.left
    && forall a | a in f.counters :: a in h.counters && f.counters[a] <= h.counters[a]
  }

  lemma NodeStaysRight(f: Facts, h: Facts, s: State)
    requires Grows(f, h) && NodeRight(f, s)
    ensures NodeRight(h, s)
  {
    forall a
      ensures NodeRightAt(h, s, a)
    {
      assert NodeRightAt(f, s, a);
    }
  }

  lemma EventStaysRight(f: Facts, h: Facts, e: Event)
    requires Grows(f, h) && EventRight(f, e)
    ensures EventRight(h, e)
  {
    match e
    case HearPing(p) =>
      forall a
        ensures PingRightAt(h, p, a)
      {
        assert PingRightAt(f, p, a);
      }
    case HearFullState(sts) =>
      forall st | st in sts
        ensures StatusRight(h, st)
      {
        assert StatusRight(f, st);
      }
    case _ =>
  }

  lemma GossipStepRight(f: Facts, s: State, g: Gossip, a: Addr)
    requires NodeRightAt(f, s, a) && GossipRight(f, g)
    ensures NodeRightAt(f, Receive(s, g).state, a)
  {
    if a != g.member.addr {
      GossipIsLocal(s, g, a);
    } else {
      match g.kind
      case Up => UpStepRight(f, s, g);
      case Down =>
      case Suspected =>
      case Recovered =>
      case _ =>
    }
  }

  lemma UpStepRight(f: Facts, s: State, g: Gossip)
    requires NodeRightAt(f, s, g.member.addr) && GossipRight(f, g)
    ensures NodeRightAt(f, ReceiveUp(s, g).state, g.member.addr)
  {
  }

  lemma StatusesStepRight(f: Facts, s: State, sts: seq<Status>, a: Addr)
    requires NodeRightAt(f, s, a) && EventRight(f, HearFullState(sts))
    ensures NodeRightAt(f, UpdateStatuses(s, sts), a)
  {
    StatusesAt(s, sts, a);
    StatusesKeepSelf(s, sts);
    var t := UpdateStatuses(s, sts);
    if a in t.members && a !in s.members {
      var st :| st in sts && st.member == Member(a, t.members[a].uid);
      assert StatusRight(f, st);
    }
    if Listed(sts, a) {
      LastStatusIsListed(sts, a);
      assert StatusRight(f, LastStatus(sts, a));
    }
  }

  lemma StepRightAt(f: Facts, s: State, e: Event, a: Addr)
    requires OwnRight(f, s) && NodeRightAt(f, s, a) && EventRight(f, e)
    requires e.ActorSystemUpCall? ==> s.self.addr in f.ups
    ensures NodeRightAt(f, Step(s, e).state, a)
  {
    match e
    case Hear(g) => GossipStepRight(f, s, g, a);
    case HearPing(p) =>
      MergePingAt(s, p, a);
      assert PingRightAt(f, p, a);
    case HearFullState(sts) => StatusesStepRight(f, s, sts, a);
    case _ => OtherStepRight(f, s, e, a);
  }

  // Ping results and local calls.
  lemma OtherStepRight(f: Facts, s: State, e: Event, a: Addr)
    requires OwnRight(f, s) && NodeRightAt(f, s, a) && EventRight(f, e)
    requires e.ActorSystemUpCall? ==> s.self.addr in f.ups
    requires !e.Hear? && !e.HearPing? && !e.HearFullState?
    ensures NodeRightAt(f, Step(s, e).state, a)
  {
    match e
    case PingOk(m) =>
    case PingFail(m) =>
    case _ =>
  }

  lemma QueuedRight(f: Facts, s: State, e: Event, g: Gossip)
    requires OwnRight(f, s) && (forall a :: NodeRightAt(f, s, a)) && EventRight(f, e)
    requires Step(s, e).state.incarnation <= f.counters[s.self.addr]
    requires e.LeaveCall? ==> s.self.addr in f.left
    requires e.ActorSystemUpCall? ==> s.self.addr in f.ups
    requires g in Step(s, e).queued
    ensures GossipRight(f, g)
  {
    match e
    case Hear(h) => ReceivedQueuedRight(f, s, h, g);
    case PingOk(m) => assert NodeRightAt(f, s, m.addr);
    case PingFail(m) => assert NodeRightAt(f, s, m.addr);
    case RelaysFailed(m) => assert NodeRightAt(f, s, m.addr);
    case PushFail(m) => assert NodeRightAt(f, s, m.addr);
    case _ =>
  }

  lemma ReceivedQueuedRight(f: Facts, s: State, h: Gossip, g: Gossip)
    requires NodeRightAt(f, s, h.member.addr) && GossipRight(f, h) && g in Receive(s, h).queued
    ensures GossipRight(f, g)
  {
    match h.kind
    case Up =>
    case Down =>
    case Suspected =>
    case _ =>
  }

  // Everything a node can turn to is right, so what it becomes and what it queues is right.
  lemma LocalRight(f: Facts, h: Facts, s: State, e: Event)
    requires Grows(f, h) && NodeRight(f, s) && EventRight(f, e)
    requires Step(s, e).state.incarnation <= h.counters[s.self.addr]
    requires e.LeaveCall? ==> s.self.addr in h.left
    requires e.ActorSystemUpCall? ==> s.self.addr in h.ups
    ensures NodeRight(h, Step(s, e).state)
    ensures forall g | g in Step(s, e).queued :: GossipRight(h, g)
  {
    NodeStaysRight(f, h, s);
    EventStaysRight(f, h, e);
    forall a
      ensures NodeRightAt(h, Step(s, e).state, a)
    {
      StepRightAt(h, s, e, a);
    }
    OwnStaysRight(h, s, e);
    forall g | g in Step(s, e).queued
      ensures GossipRight(h, g)
    {
      QueuedRight(h, s, e, g);
    }
  }

  lemma OwnStaysRight(h: Facts, s: State, e: Event)
    requires OwnRight(h, s)
    requires Step(s, e).state.incarnation <= h.counters[s.self.addr]
    requires e.ActorSystemUpCall? ==> s.self.addr in h.ups
    ensures OwnRight(h, Step(s, e).state)
  {
    StepKeepsSelf(s, e);
    if e.HearFullState? {
      StatusesKeepSelf(s, e.statuses);
    }
  }

  lemma FactsGrow(c: Cluster, xs: seq<Action>, x: Action)
    requires Enabled(c, x)
    ensures Grows(FactsOf(c, xs), FactsOf(Apply(c, x), xs + [x]))
  {
    if x.Local? {
      StepKeepsSelf(c.nodes[x.a], x.e);
    }
  }

  lemma LocalEventRight(f: Facts, c: Cluster, e: Event)
    requires Sound(f, c) && Available(c, e)
    ensures EventRight(f, e)
  {
  }

  lemma SoundStays(f: Facts, h: Facts, c: Cluster)
    requires Grows(f, h) && Sound(f, c)
    ensures Sound(h, c)
  {
    forall a | a in c.nodes
      ensures NodeRight(h, c.nodes[a])
    {
      NodeStaysRight(f, h, c.nodes[a]);
    }
    forall g | g in c.gossips
      ensures GossipRight(h, g)
    {
      EventStaysRight(f, h, Hear(g));
    }
    forall p | p in c.pings
      ensures EventRight(h, HearPing(p))
    {
      EventStaysRight(f, h, HearPing(p));
    }
    forall sts | sts in c.fulls
      ensures EventRight(h, HearFullState(sts))
    {
      EventStaysRight(f, h, HearFullState(sts));
    }
  }

  lemma PingBodyRight(f: Facts, s: State)
    requires NodeRight(f, s)
    ensures EventRight(f, HearPing(PingBody(s)))
  {
    forall a
      ensures PingRightAt(f, PingBody(s), a)
    {
      assert NodeRightAt(f, s, a);
    }
  }

  lemma FullStateRight(f: Facts, s: State, sts: seq<Status>)
    requires NodeRight(f, s) && IsFullState(s, sts)
    ensures EventRight(f, HearFullState(sts))
  {
    forall st | st in sts
      ensures StatusRight(f, st)
    {
      assert NodeRightAt(f, s, st.member.addr);
    }
  }

  lemma SoundStep(c: Cluster, xs: seq<Action>, x: Action)
    requires Sound(FactsOf(c, xs), c) && Enabled(c, x)
    ensures Sound(FactsOf(Apply(c, x), xs + [x]), Apply(c, x))
  {
    var d := Apply(c, x);
    var f, h := FactsOf(c, xs), FactsOf(d, xs + [x]);
    FactsGrow(c, xs, x);
    SoundStays(f, h, c);
    match x
    case Local(a, e) =>
      LocalEventRight(f, c, e);
      assert x in xs + [x];
      LocalRight(f, h, c.nodes[a], e);
      StepKeepsSelf(c.nodes[a], e);
    case SendPing(a) => PingBodyRight(h, c.nodes[a]);
    case SendFullState(a, sts) => FullStateRight(h, c.nodes[a], sts);
    case PickTarget(a, m) => assert NodeRightAt(h, c.nodes[a], m.addr);
  }

  // --- whole runs ------------------------------------------------------------------------------------------

  lemma InitialSound(c: Cluster)
    requires IsInitial(c)
    ensures Sound(FactsOf(c, []), c)
  {
    var f := FactsOf(c, []);
    forall a | a in c.nodes
      ensures c.nodes[a].self.addr == a && NodeRight(f, c.nodes[a])
    {
      assert forall b :: NodeRightAt(f, Initial(c.nodes[a].self, c.nodes[a].relayPing), b);
    }
    assert EventRight(f, HearPing(Ping(map[], map[])));
  }

  lemma {:induction false} RunSound(cs: seq<Cluster>, xs: seq<Action>, k: nat)
    requires IsRun(cs, xs) && k < |cs|
    ensures Sound(FactsOf(cs[k], xs[..k]), cs[k])
    decreases k
  {
    if k == 0 {
      InitialSound(cs[0]);
    } else {
      RunSound(cs, xs, k - 1);
      SoundStep(cs[k - 1], xs[..k - 1], xs[k - 1]);
      assert xs[..k] == xs[..k - 1] + [xs[k - 1]];
    }
  }

  /** In every reachable cluster, every incarnation that any node holds about `b`, as member or suspect,
      and every incarnation in flight about it, is at most `b`'s own counter. */
  lemma IncarnationsBounded(cs: seq<Cluster>, xs: seq<Action>, k: nat, b: Addr)
    requires IsRun(cs, xs) && k < |cs|
    ensures forall a | a in cs[k].nodes && Knows(cs[k].nodes[a], b) ::
              b in cs[k].nodes && Held(cs[k].nodes[a], b) <= cs[k].nodes[b].incarnation
    ensures forall g | g in cs[k].gossips && g.member.addr == b :: b in cs[k].nodes && g.inc <= cs[k].nodes[b].incarnation
    ensures forall p | p in cs[k].pings && b in p.members :: b in cs[k].nodes && p.members[b].inc <= cs[k].nodes[b].incarnation
  {
    var c, f := cs[k], FactsOf(cs[k], xs[..k]);
    RunSound(cs, xs, k);
    forall a | a in c.nodes && Knows(c.nodes[a], b)
      ensures b in c.nodes && Held(c.nodes[a], b) <= c.nodes[b].incarnation
    {
      assert NodeRightAt(f, c.nodes[a], b);
    }
    forall p | p in c.pings && b in p.members
      ensures b in c.nodes && p.members[b].inc <= c.nodes[b].incarnation
    {
      assert EventRight(f, HearPing(p)) && PingRightAt(f, p, b);
    }
  }

  // Some node, or some message in flight, has `b`'s actor system up.
  ghost predicate SaysUp(c: Cluster, b: Addr) {
    || (exists a :: a in c.nodes && IsUp(c.nodes[a].actorSystems, b))
    || (exists g :: g in c.gossips && g.kind == ActorSystemUp && g.member.addr == b)
    || (exists p :: p in c.pings && IsUp(p.flags, b))
    || (exists sts, st :: sts in c.fulls && st in sts && st.member.addr == b && st.actorSystemUp)
  }

  lemma SaysUpRight(f: Facts, c: Cluster, b: Addr)
    requires Sound(f, c) && SaysUp(c, b)
    ensures b in f.ups
  {
    if a :| a in c.nodes && IsUp(c.nodes[a].actorSystems, b) {
      assert NodeRightAt(f, c.nodes[a], b);
    } else if g :| g in c.gossips && g.kind == ActorSystemUp && g.member.addr == b {
      assert GossipRight(f, g);
    } else if p :| p in c.pings && IsUp(p.flags, b) {
      assert EventRight(f, HearPing(p)) && PingRightAt(f, p, b);
    } else {
      var sts, st :| sts in c.fulls && st in sts && st.member.addr == b && st.actorSystemUp;
      assert EventRight(f, HearFullState(sts)) && StatusRight(f, st);
    }
  }

  /** No node ever flags `b`'s actor system up, and no gossip, ping or full state says so, unless `b` brought it
      up before. */
  lemma UpOnlyIfBroughtUp(cs: seq<Cluster>, xs: seq<Action>, k: nat, b: Addr)
    requires IsRun(cs, xs) && k < |cs| && SaysUp(cs[k], b)
    ensures Called(xs[..k], b, ActorSystemUpCall)
  {
    RunSound(cs, xs, k);
    SaysUpRight(FactsOf(cs[k], xs[..k]), cs[k], b);
  }

  lemma BuriedOnlyAfterLeaving(c: Cluster, xs: seq<Action>, a: Addr, e: Event, b: Addr)
    requires Sound(FactsOf(c, xs), c) && a in c.nodes && Available(c, e)
    ensures Buries(a, e, b) ==> Called(xs, b, LeaveCall)
  {
    if Buries(a, e, b) {
      assert GossipRight(FactsOf(c, xs), e.g);
      assert b in FactsOf(c, xs).left;
    }
  }

  lemma RememberStep(c: Cluster, xs: seq<Action>, x: Action, a: Addr, b: Addr)
    requires Sound(FactsOf(c, xs), c) && Enabled(c, x) && a in c.nodes && Knows(c.nodes[a], b)
    requires !Called(xs, b, LeaveCall)
    ensures a in Apply(c, x).nodes && Knows(Apply(c, x).nodes[a], b)
  {
    if x.Local? && x.a == a {
      KnowledgeStep(c.nodes[a], x.e, b);
      BuriedOnlyAfterLeaving(c, xs, a, x.e, b);
    }
  }

  /** A node under an address that never announced its leave is never forgotten by a node that knew it. */
  lemma {:induction false} NeverForgotten(cs: seq<Cluster>, xs: seq<Action>, i: nat, j: nat, a: Addr, b: Addr)
    requires IsRun(cs, xs) && i <= j < |cs| && a in cs[i].nodes && Knows(cs[i].nodes[a], b)
    requires !Called(xs[..j], b, LeaveCall)
    ensures a in cs[j].nodes && Knows(cs[j].nodes[a], b)
    decreases j
  {
    if i < j {
      assert xs[..j] == xs[..j - 1] + [xs[j - 1]];
      NeverForgotten(cs, xs, i, j - 1, a, b);
      RunSound(cs, xs, j - 1);
      RememberStep(cs[j - 1], xs[..j - 1], xs[j - 1], a, b);
    }
  }

  /** An actor-system announcement is newer than anything any node holds: whoever has the announcer among its
      members and hears it next takes it over and passes it on. */
  lemma AnnouncementIsNews(cs: seq<Cluster>, xs: seq<Action>, k: nat, a: Addr, b: Addr, up: bool)
    requires IsRun(cs, xs) && k < |xs| && xs[k] == Local(b, if up then ActorSystemUpCall else ActorSystemDownCall)
    requires a != b && a in cs[k + 1].nodes && b in cs[k + 1].nodes[a].members
    ensures var g := Gossip(if up then ActorSystemUp else ActorSystemDown, cs[k].nodes[b].self, cs[k].nodes[b].incarnation + 1);
            var o := Step(cs[k + 1].nodes[a], Hear(g));
            && g in cs[k + 1].gossips
            && b in o.state.members && o.state.members[b].inc == g.inc == cs[k + 1].nodes[b].incarnation
            && IsUp(o.state.actorSystems, b) == up && o.queued == [g]
  {
    RunSound(cs, xs, k);
    IncarnationsBounded(cs, xs, k, b);
    var c, s := cs[k], cs[k].nodes[a];
    assert Enabled(c, xs[k]) && cs[k + 1] == Apply(c, xs[k]) && cs[k + 1].nodes[a] == s;
    assert Knows(s, b) && Held(s, b) <= c.nodes[b].incarnation;
    AnnouncementSent(c.nodes[b], up);
    NewsIsTaken(s, Gossip(if up then ActorSystemUp else ActorSystemDown, c.nodes[b].self, c.nodes[b].incarnation + 1), up);
  }

  lemma AnnouncementSent(s: State, up: bool)
    ensures var o := Step(s, if up then ActorSystemUpCall else ActorSystemDownCall);
            && o.queued == [Gossip(if up then ActorSystemUp else ActorSystemDown, s.self, s.incarnation + 1)]
            && o.state.incarnation == s.incarnation + 1
  {
  }

  lemma NewsIsTaken(s: State, g: Gossip, up: bool)
    requires g.kind == if up then ActorSystemUp else ActorSystemDown
    requires g.member.addr in s.members && s.members[g.member.addr].inc < g.inc
    ensures var o := Step(s, Hear(g));
            && g.member.addr in o.state.members && o.state.members[g.member.addr].inc == g.inc
            && IsUp(o.state.actorSystems, g.member.addr) == up && o.queued == [g]
  {
  }

  // In flight now and not before.
  predicate IsNew(c: Cluster, d: Cluster, g: Gossip) {
    g in d.gossips && g !in c.gossips
  }

  // Whoever knows `b` and hears the gossip, now or later, forgets it and passes the gossip on.
  ghost predicate Departs(g: Gossip, b: Addr) {
    forall r: State :: HeardAsLeft(r, g, b)
  }

  predicate HeardAsLeft(r: State, g: Gossip, b: Addr) {
    r.self.addr != b && Knows(r, b) ==>
      var o := Step(r, Hear(g));
      !Knows(o.state, b) && !IsUp(o.state.actorSystems, b) && o.queued == [g]
  }

  /** A node that leaves while it has other members sends something new, and everybody who hears that forgets the node;
      alone, it sends nothing. */
  lemma LeaveIsHeard(cs: seq<Cluster>, xs: seq<Action>, k: nat, b: Addr)
    requires IsRun(cs, xs) && k < |xs| && xs[k] == Local(b, LeaveCall)
    ensures b in cs[k].nodes
    ensures if |cs[k].nodes[b].members| > 1 then
              exists g :: IsNew(cs[k], cs[k + 1], g) && Departs(g, b)
            else cs[k + 1].nodes == cs[k].nodes && cs[k + 1].gossips == cs[k].gossips
  {
    assert Enabled(cs[k], xs[k]) && cs[k + 1] == Apply(cs[k], xs[k]);
    RunSound(cs, xs, k);
    IncarnationsBounded(cs, xs, k, b);
    var s := cs[k].nodes[b];
    if |s.members| > 1 {
      var g := Gossip(Down, s.self, s.incarnation + 1);
      assert Step(s, LeaveCall).queued == [g] && g in cs[k + 1].gossips;
      forall r: State
        ensures HeardAsLeft(r, g, b)
      {
        DownBuries(r, g);
      }
      assert Departs(g, b);
    }
  }

  // Hearing `g`, a node enters `b` under the uid and the stamp, and passes the gossip on.
  predicate Welcomes(r: State, g: Gossip, b: Addr, uid: string) {
    var o := Step(r, Hear(g));
    b in o.state.members && o.state.members[b] == Entry(uid, g.inc) && o.queued == [g]
  }

  // Hearing `h` after `g`, it raises `b`'s flag too.
  predicate WelcomesUp(r: State, g: Gossip, h: Gossip, b: Addr) {
    var o := Step(Step(r, Hear(g)).state, Hear(h));
    b in o.state.members && o.state.members[b].inc == h.inc && IsUp(o.state.actorSystems, b) && o.queued == [h]
  }

  ghost predicate AllWelcome(c: Cluster, g: Gossip, b: Addr, uid: string) {
    forall a | a in c.nodes && a != b :: Welcomes(c.nodes[a], g, b, uid)
  }

  ghost predicate AllWelcomeUp(c: Cluster, g: Gossip, h: Gossip, b: Addr) {
    forall a | a in c.nodes && a != b :: WelcomesUp(c.nodes[a], g, h, b)
  }

  // Something new makes everybody welcome `b`, and if its actor system is up something else makes everybody flag it up.
  ghost predicate Joined(c: Cluster, d: Cluster, b: Addr)
    requires b in c.nodes
  {
    exists g :: IsNew(c, d, g) && AllWelcome(d, g, b, c.nodes[b].self.uid)
                && (c.nodes[b].selfUp ==> exists h :: IsNew(c, d, h) && AllWelcomeUp(d, g, h, b))
  }

  /** A node that has pulled a full state is welcomed by every other node that hears it next, whatever that one held before,
      under its own uid; and if its actor system is up, so flagged by whoever hears that as well. */
  lemma JoinIsNoticed(cs: seq<Cluster>, xs: seq<Action>, k: nat, b: Addr, sts: seq<Status>)
    requires IsRun(cs, xs) && k < |xs| && xs[k] == Local(b, HearFullState(sts))
    ensures b in cs[k].nodes
    ensures Joined(cs[k], cs[k + 1], b)
  {
    assert Enabled(cs[k], xs[k]) && cs[k + 1] == Apply(cs[k], xs[k]);
    RunSound(cs, xs, k);
    var s := cs[k].nodes[b];
    var g, h := Gossip(Up, s.self, s.incarnation + 1), Gossip(ActorSystemUp, s.self, s.incarnation + 2);
    NothingNewer(cs, xs, k, b);
    JoinQueues(s, sts, g, h);
    EverybodyWelcomes(cs[k], cs[k + 1], b, g, h);
  }

  // All news of `b` is as old as its counter.
  lemma NothingNewer(cs: seq<Cluster>, xs: seq<Action>, k: nat, b: Addr)
    requires IsRun(cs, xs) && k < |cs| && b in cs[k].nodes
    ensures forall g | g in cs[k].gossips && g.member.addr == b :: g.inc <= cs[k].nodes[b].incarnation
    ensures forall a | a in cs[k].nodes :: Held(cs[k].nodes[a], b) <= cs[k].nodes[b].incarnation
  {
    IncarnationsBounded(cs, xs, k, b);
    forall a | a in cs[k].nodes
      ensures Held(cs[k].nodes[a], b) <= cs[k].nodes[b].incarnation
    {
      assert Knows(cs[k].nodes[a], b) || Held(cs[k].nodes[a], b) == 0;
    }
  }

  lemma JoinQueues(s: State, sts: seq<Status>, g: Gossip, h: Gossip)
    requires g == Gossip(Up, s.self, s.incarnation + 1) && h == Gossip(ActorSystemUp, s.self, s.incarnation + 2)
    ensures var o := Step(s, HearFullState(sts)); g in o.queued && (s.selfUp ==> h in o.queued)
  {
    FullStateStamps(s, sts);
    var q := Step(s, HearFullState(sts)).queued;
    assert q[0] == g && (s.selfUp ==> q[1] == h);
  }

  lemma EverybodyWelcomes(c: Cluster, d: Cluster, b: Addr, g: Gossip, h: Gossip)
    requires b in c.nodes && d.nodes.Keys == c.nodes.Keys
    requires forall a | a in c.nodes && a != b :: d.nodes[a] == c.nodes[a] && c.nodes[a].self.addr == a
    requires forall a | a in c.nodes :: Held(c.nodes[a], b) < g.inc
    requires g.kind == Up && h.kind == ActorSystemUp && g.member.addr == h.member.addr == b && g.inc < h.inc
    ensures AllWelcome(d, g, b, g.member.uid) && AllWelcomeUp(d, g, h, b)
  {
    forall a | a in d.nodes && a != b
      ensures Welcomes(d.nodes[a], g, b, g.member.uid) && WelcomesUp(d.nodes[a], g, h, b)
    {
      WelcomedBy(c.nodes[a], g);
      NewsIsTaken(Step(c.nodes[a], Hear(g)).state, h, true);
    }
  }

  lemma WelcomedBy(r: State, g: Gossip)
    requires g.kind == Up && g.member.addr != r.self.addr && Held(r, g.member.addr) < g.inc
    ensures Welcomes(r, g, g.member.addr, g.member.uid)
  {
    UpIsTaken(r, g);
  }

  /** With one life per address an up gossip expires only copies that were stored without a uid, through a ping, a
      full state or a relay's report: only those are ever replaced by an older announcement. */
  lemma OnlyNamelessExpire(cs: seq<Cluster>, xs: seq<Action>, k: nat, a: Addr, g: Gossip)
    requires IsRun(cs, xs) && k < |cs| && a in cs[k].nodes && g in cs[k].gossips && g.kind == Up
    ensures var s, b := cs[k].nodes[a], g.member.addr;
            && (Expired(s.members, g.member) ==> s.members[b].uid == "")
            && (Expired(s.suspects, g.member) ==> s.suspects[b].uid == "")
            && (ReplacesNewer(s, Hear(g), b) ==>
                  (b in s.members && s.members[b] == Entry("", Held(s, b))) || (b in s.suspects && s.suspects[b] == Entry("", Held(s, b))))
  {
    RunSound(cs, xs, k);
    var f := FactsOf(cs[k], xs[..k]);
    assert NodeRightAt(f, cs[k].nodes[a], g.member.addr) && GossipRight(f, g);
  }

  // --- stamps ------------------------------------------------------------------------------------------------

  // No two announcements about one node share a stamp.
  ghost predicate StampsUnique(gs: set<Gossip>) {
    forall g, h | g in gs && h in gs && SameStamp(g, h) :: g == h
  }

  predicate SameStamp(g: Gossip, h: Gossip) {
    IsAnnouncement(g) && IsAnnouncement(h) && g.member.addr == h.member.addr && g.inc == h.inc
  }

  lemma StampsStep(c: Cluster, xs: seq<Action>, a: Addr, e: Event)
    requires Sound(FactsOf(c, xs), c) && Enabled(c, Local(a, e)) && StampsUnique(c.gossips)
    ensures StampsUnique(Apply(c, Local(a, e)).gossips)
  {
    var s, f := c.nodes[a], FactsOf(c, xs);
    var o := Step(s, e);
    OneStampPerAnnouncement(s, e);
    forall g | g in c.gossips && g.member.addr == s.self.addr
      ensures g.inc <= s.incarnation
    {
      assert GossipRight(f, g);
    }
    NewStamps(s, e, o.queued, c.gossips, Apply(c, Local(a, e)).gossips);
  }

  // What is queued is passed on, or newer than anything sent, each under its own stamp.
  lemma NewStamps(s: State, e: Event, queued: seq<Gossip>, before: set<Gossip>, after: set<Gossip>)
    requires StampsUnique(before) && forall g | g in after :: g in before || g in queued
    requires forall g | g in before && g.member.addr == s.self.addr :: g.inc <= s.incarnation
    requires e.Hear? ==> e.g in before
    requires if SpeaksForSelf(e) then Stamped(queued, s.self, s.incarnation) else PassesOn(queued, e)
    ensures StampsUnique(after)
  {
    forall g, h | g in after && h in after && SameStamp(g, h)
      ensures g == h
    {
      if SpeaksForSelf(e) && (g in queued || h in queued) {
        assert g.inc > s.incarnation && g in queued && h in queued;
        var i :| 0 <= i < |queued| && queued[i] == g;
        var j :| 0 <= j < |queued| && queued[j] == h;
        assert i == j;
      } else {
        assert g in before && h in before;
      }
    }
  }

  /** In every run, no two announcements ever queued about one node carry the same stamp: within one life the
      announcements themselves name one flag per member and stamp. */
  lemma {:induction false} OneAnnouncementPerStamp(cs: seq<Cluster>, xs: seq<Action>, k: nat)
    requires IsRun(cs, xs) && k < |cs|
    ensures StampsUnique(cs[k].gossips)
    decreases k
  {
    if k > 0 {
      OneAnnouncementPerStamp(cs, xs, k - 1);
      RunSound(cs, xs, k - 1);
      if xs[k - 1].Local? {
        StampsStep(cs[k - 1], xs[..k - 1], xs[k - 1].a, xs[k - 1].e);
      }
    }
  }
}
