// What one node keeps over every run of the membership protocol, whatever it hears and in whatever order.
module NodeRuns {
  import opened Addresses
  import opened Membership
  import Steps

  function Run(s: State, es: seq<Event>): State
    decreases |es|
  {
    if es == [] then s else Step(Run(s, es[..|es| - 1]), es[|es| - 1]).state
  }

  lemma {:induction false} RunKeepsSelf(s: State, es: seq<Event>)
    ensures Run(s, es).self == s.self && Run(s, es).relayPing == s.relayPing && Run(s, es).incarnation >= s.incarnation
    decreases |es|
  {
    if es != [] {
      RunKeepsSelf(s, es[..|es| - 1]);
      StepKeepsSelf(Run(s, es[..|es| - 1]), es[|es| - 1]);
    }
  }

  lemma RunSnoc(s: State, es: seq<Event>, k: nat)
    requires k < |es|
    ensures Run(s, es[..k + 1]) == Step(Run(s, es[..k]), es[k]).state
  {
    assert es[..k + 1][..k] == es[..k];
  }

  lemma StepKeepsSelf(s: State, e: Event)
    ensures var t := Step(s, e).state; t.self == s.self && t.relayPing == s.relayPing && t.incarnation >= s.incarnation
  {
    if e.HearFullState? {
      StatusesKeepSelf(s, e.statuses);
    }
  }

  // --- full states, seen from one address -------------------------------------------------------

  // The last flag the full state gives for the address.
  function LastStatus(sts: seq<Status>, a: Addr): Status
    requires Listed(sts, a)
    decreases |sts|
  {
    var last := sts[|sts| - 1];
    if last.member.addr == a then last else ListedEarlier(sts, a); LastStatus(sts[..|sts| - 1], a)
  }

  lemma ListedEarlier(sts: seq<Status>, a: Addr)
    requires Listed(sts, a) && sts[|sts| - 1].member.addr != a
    ensures Listed(sts[..|sts| - 1], a)
  {
    var i :| 0 <= i < |sts| && sts[i].member.addr == a;
    assert sts[..|sts| - 1][i] == sts[i];
  }

  lemma {:induction false} LastStatusIsListed(sts: seq<Status>, a: Addr)
    requires Listed(sts, a)
    ensures LastStatus(sts, a) in sts && LastStatus(sts, a).member.addr == a
    decreases |sts|
  {
    if sts[|sts| - 1].member.addr != a {
      ListedEarlier(sts, a);
      LastStatusIsListed(sts[..|sts| - 1], a);
    }
  }

  /** A full state adds the unknown addresses with incarnation 0, keeps the known ones, and sets every
      listed flag to the last value listed. */
  lemma {:induction false} StatusesAt(s: State, sts: seq<Status>, a: Addr)
    ensures var t := UpdateStatuses(s, sts);
            && (a in t.members <==> a in s.members || Listed(sts, a))
            && (a in s.members ==> t.members[a] == s.members[a])
            && (a in t.members && a !in s.members ==>
                  t.members[a].inc == 0 && exists st :: st in sts && st.member == Member(a, t.members[a].uid))
            && (!Listed(sts, a) ==> (a in t.actorSystems <==> a in s.actorSystems) && IsUp(t.actorSystems, a) == IsUp(s.actorSystems, a))
            && (Listed(sts, a) ==> a in t.actorSystems && t.actorSystems[a] == LastStatus(sts, a).actorSystemUp)
    decreases |sts|
  {
    if sts != [] {
      var init, last := sts[..|sts| - 1], sts[|sts| - 1];
      StatusesAt(s, init, a);
      LastSnoc(init, last, a);
      assert sts == init + [last];
      assert forall st :: st in init ==> st in sts;
      assert last.member == Member(last.member.addr, last.member.uid) && last in sts;
      StatusAt(UpdateStatuses(s, init), last, a);
    }
  }

  lemma StatusAt(s: State, st: Status, a: Addr)
    ensures var t := UpdateStatus(s, st);
            && (a in t.members <==> a in s.members || st.member.addr == a)
            && (a in s.members ==> t.members[a] == s.members[a])
            && (a in t.members && a !in s.members ==> t.members[a] == Entry(st.member.uid, 0))
            && (st.member.addr != a ==>
                  (a in t.actorSystems <==> a in s.actorSystems) && IsUp(t.actorSystems, a) == IsUp(s.actorSystems, a))
            && (st.member.addr == a ==> a in t.actorSystems && t.actorSystems[a] == st.actorSystemUp)
  {
  }

  lemma LastSnoc(init: seq<Status>, last: Status, a: Addr)
    ensures Listed(init + [last], a) <==> last.member.addr == a || Listed(init, a)
    ensures Listed(init + [last], a) ==> LastStatus(init + [last], a) == if last.member.addr == a then last else LastStatus(init, a)
  {
    var sts := init + [last];
    assert sts[|sts| - 1] == last && sts[..|sts| - 1] == init;
    if Listed(init, a) {
      var i :| 0 <= i < |init| && init[i].member.addr == a;
      assert sts[i] == init[i];
    }
    if Listed(sts, a) && last.member.addr != a {
      ListedEarlier(sts, a);
    }
  }

  // --- flags ---------------------------------------------------------------------------------------

  predicate FlagMeansMember(s: State, a: Addr) {
    IsUp(s.actorSystems, a) ==> a in s.members
  }

  /** Every way out of the members clears the flag, for oneself too. */
  lemma LeavingClearsFlag(s: State, e: Event, a: Addr)
    requires a in s.members && a !in Step(s, e).state.members
    ensures !IsUp(Step(s, e).state.actorSystems, a)
  {
    FlagCases(s, e, a);
  }

  // The own flag is set unconditionally, member or not.
  predicate RaisesOutside(s: State, e: Event, a: Addr) {
    e.ActorSystemUpCall? && a == s.self.addr && a !in s.members
  }

  /** For every address, oneself included: a step separates a flag from its membership exactly when it brings
      the own actor system up while oneself is not a member. */
  lemma FlagStep(s: State, e: Event, a: Addr)
    requires FlagMeansMember(s, a)
    ensures FlagMeansMember(Step(s, e).state, a) <==> !RaisesOutside(s, e, a)
  {
    FlagCases(s, e, a);
  }

  predicate FlagFollows(s: State, t: State, a: Addr) {
    && (a in s.members && a !in t.members ==> !IsUp(t.actorSystems, a))
    && (FlagMeansMember(s, a) ==> FlagMeansMember(t, a))
  }

  lemma FlagCases(s: State, e: Event, a: Addr)
    ensures !RaisesOutside(s, e, a) ==> FlagFollows(s, Step(s, e).state, a)
  {
    match e
    case Hear(g) => FlagGossip(s, g, a);
    case HearPing(p) => FlagPing(s, p, a);
    case HearFullState(sts) => FlagFullState(s, sts, a);
    case _ => FlagOther(s, e, a);
  }

  lemma FlagPing(s: State, p: Ping, a: Addr)
    ensures FlagFollows(s, MergePing(s, p), a)
  {
    MergePingAt(s, p, a);
  }

  lemma FlagFullState(s: State, sts: seq<Status>, a: Addr)
    ensures FlagFollows(s, TakeFullState(s, sts).state, a)
  {
    StatusesAt(s, sts, a);
  }

  lemma FlagOther(s: State, e: Event, a: Addr)
    requires !e.Hear? && !e.HearPing? && !e.HearFullState?
    ensures !RaisesOutside(s, e, a) ==> FlagFollows(s, Step(s, e).state, a)
  {
    match e
    case PingOk(m) => FlagRecover(s, m, a);
    case PingFail(m) => FlagSuspect(s, m, Inc(s.members, m.addr), a);
    case RelaysFailed(m) => FlagSuspect(s, m, Inc(s.members, m.addr), a);
    case PushFail(m) => FlagSuspect(s, m, Inc(s.members, m.addr), a);
    case _ =>
  }

  lemma FlagRecover(s: State, m: Member, a: Addr)
    ensures FlagFollows(s, Recover(s, m).state, a)
  {
  }

  lemma FlagSuspect(s: State, m: Member, inc: nat, a: Addr)
    ensures FlagFollows(s, Suspect(s, m, inc).state, a)
  {
  }

  lemma FlagGossip(s: State, g: Gossip, a: Addr)
    ensures FlagFollows(s, Receive(s, g).state, a)
  {
    match g.kind
    case Up =>
    case Down =>
    case Suspected =>
    case _ =>
  }

  /** Over a run: the flag implies membership throughout, for oneself too, exactly when the own actor system is
      never brought up while oneself is not a member. */
  lemma FlagExact(s: State, es: seq<Event>, a: Addr)
    requires FlagMeansMember(s, a)
    ensures (forall k: nat | k <= |es| :: FlagMeansMember(Run(s, es[..k]), a)) <==>
            (forall k: nat | k < |es| :: !RaisesOutside(Run(s, es[..k]), es[k], a))
  {
    var holds := (k: nat) => k <= |es| && FlagMeansMember(Run(s, es[..k]), a);
    var fine := (k: nat) => k < |es| && !RaisesOutside(Run(s, es[..k]), es[k], a);
    forall k: nat | k < |es| && holds(k)
      ensures holds(k + 1) <==> fine(k)
    {
      RunSnoc(s, es, k);
      FlagStep(Run(s, es[..k]), es[k], a);
    }
    Steps.Stepwise(holds, fine, |es|);
    assert forall k: nat | k <= |es| :: holds(k) == FlagMeansMember(Run(s, es[..k]), a);
    assert forall k: nat | k < |es| :: fine(k) == !RaisesOutside(Run(s, es[..k]), es[k], a);
  }

  /** In every reachable state a node other than oneself that is flagged up is a member. */
  lemma FlagImpliesMember(self: Member, relayPing: bool, es: seq<Event>, a: Addr)
    requires a != self.addr
    ensures FlagMeansMember(Run(Initial(self, relayPing), es), a)
  {
    var s := Initial(self, relayPing);
    forall k: nat | k < |es|
      ensures !RaisesOutside(Run(s, es[..k]), es[k], a)
    {
      RunKeepsSelf(s, es[..k]);
    }
    FlagExact(s, es, a);
    assert es[..|es|] == es;
  }

  /** It does fail for oneself: a node that was told to suspect itself can still flag its own actor system. */
  lemma OwnFlagOutsideMembers(self: Member, relayPing: bool)
    ensures !FlagMeansMember(Run(Initial(self, relayPing), [Hear(Gossip(Suspected, self, 0)), ActorSystemUpCall]), self.addr)
  {
    var s := Initial(self, relayPing);
    var e := Hear(Gossip(Suspected, self, 0));
    assert [e, ActorSystemUpCall][..1] == [e];
    assert [e][..0] == [];
    assert Run(s, [e]) == Step(s, e).state;
  }

  // --- knowledge -------------------------------------------------------------------------------------

  predicate Knows(s: State, a: Addr) {
    a in s.members || a in s.suspects
  }

  // The event speaks of `a` in a way that makes it known.
  predicate Teaches(self: Addr, e: Event, a: Addr) {
    match e
    case Hear(g) => g.kind == Up && g.member.addr == a && a != self
    case HearPing(p) => a in p.members
    case HearFullState(sts) => Listed(sts, a)
    case _ => false
  }

  predicate Buries(self: Addr, e: Event, a: Addr) {
    e.Hear? && e.g.kind == Down && e.g.member.addr == a && a != self
  }

  lemma KnowledgeStep(s: State, e: Event, a: Addr)
    ensures Knows(Step(s, e).state, a) <==> Teaches(s.self.addr, e, a) || (Knows(s, a) && !Buries(s.self.addr, e, a))
  {
    match e
    case Hear(g) => KnowledgeGossip(s, g, a);
    case HearPing(p) => KnowledgePing(s, p, a);
    case HearFullState(sts) => KnowledgeFullState(s, sts, a);
    case _ => KnowledgeOther(s, e, a);
  }

  lemma KnowledgePing(s: State, p: Ping, a: Addr)
    ensures Knows(MergePing(s, p), a) <==> Teaches(s.self.addr, HearPing(p), a) || (Knows(s, a) && !Buries(s.self.addr, HearPing(p), a))
  {
    MergePingAt(s, p, a);
  }

  lemma KnowledgeFullState(s: State, sts: seq<Status>, a: Addr)
    ensures Knows(TakeFullState(s, sts).state, a) <==>
            Teaches(s.self.addr, HearFullState(sts), a) || (Knows(s, a) && !Buries(s.self.addr, HearFullState(sts), a))
  {
    StatusesAt(s, sts, a);
    StatusesKeepSelf(s, sts);
  }

  lemma KnowledgeOther(s: State, e: Event, a: Addr)
    requires !e.Hear? && !e.HearPing? && !e.HearFullState?
    ensures Knows(Step(s, e).state, a) <==> Teaches(s.self.addr, e, a) || (Knows(s, a) && !Buries(s.self.addr, e, a))
  {
    match e
    case PingOk(m) =>
    case PingFail(m) =>
    case _ =>
  }

  lemma KnowledgeGossip(s: State, g: Gossip, a: Addr)
    ensures Knows(Receive(s, g).state, a) <==> Teaches(s.self.addr, Hear(g), a) || (Knows(s, a) && !Buries(s.self.addr, Hear(g), a))
  {
    match g.kind
    case Up =>
    case Down =>
    case Suspected =>
    case _ =>
  }

  // Some event taught `a` and no later one buried it.
  ghost predicate TaughtSince(self: Addr, es: seq<Event>, a: Addr) {
    exists i :: 0 <= i < |es| && Teaches(self, es[i], a) && UnburiedFrom(self, es, i + 1, a)
  }

  predicate UnburiedFrom(self: Addr, es: seq<Event>, i: nat, a: Addr) {
    forall j | i <= j < |es| :: !Buries(self, es[j], a)
  }

  /** No forgetting, exactly: after any run a node knows itself, and another address just when some up
      gossip, ping or full state taught it and no later down gossip named it. */
  lemma {:induction false} KnowledgeExact(self: Member, relayPing: bool, es: seq<Event>, a: Addr)
    ensures Knows(Run(Initial(self, relayPing), es), a) <==> a == self.addr || TaughtSince(self.addr, es, a)
    decreases |es|
  {
    if es != [] {
      var init, e := es[..|es| - 1], es[|es| - 1];
      assert es == init + [e];
      RunKeepsSelf(Initial(self, relayPing), init);
      KnowledgeExact(self, relayPing, init, a);
      KnowledgeStep(Run(Initial(self, relayPing), init), e, a);
      TaughtSnoc(self.addr, init, e, a);
      assert Buries(self.addr, e, a) ==> a != self.addr;
    }
  }

  lemma TaughtSnoc(self: Addr, init: seq<Event>, e: Event, a: Addr)
    ensures TaughtSince(self, init + [e], a) <==> Teaches(self, e, a) || (TaughtSince(self, init, a) && !Buries(self, e, a))
  {
    var es := init + [e];
    assert es[|init|] == e;
    if Teaches(self, e, a) {
      assert UnburiedFrom(self, es, |init| + 1, a);
    }
    if TaughtSince(self, init, a) && !Buries(self, e, a) {
      var i :| 0 <= i < |init| && Teaches(self, init[i], a) && UnburiedFrom(self, init, i + 1, a);
      assert es[i] == init[i];
      assert UnburiedFrom(self, es, i + 1, a);
    }
    if TaughtSince(self, es, a) && !Teaches(self, e, a) {
      var i :| 0 <= i < |es| && Teaches(self, es[i], a) && UnburiedFrom(self, es, i + 1, a);
      assert init[i] == es[i] && !Buries(self, es[|init|], a);
      forall j | i + 1 <= j < |init|
        ensures !Buries(self, init[j], a)
      {
        assert init[j] == es[j];
      }
      assert UnburiedFrom(self, init, i + 1, a);
    }
  }

  // --- lives -------------------------------------------------------------------------------------------

  /** After an up gossip about another node, that node is known and every stored copy carries the
      message's uid. */
  lemma UpSettlesUid(s: State, g: Gossip)
    requires g.kind == Up && g.member.addr != s.self.addr
    ensures var t, a := Step(s, Hear(g)).state, g.member.addr;
            && Knows(t, a)
            && (a in t.members ==> t.members[a].uid == g.member.uid)
            && (a in t.suspects ==> t.suspects[a].uid == g.member.uid)
  {
  }

  /** A node that comes back under a new uid starts afresh, even from a smaller incarnation: nothing of
      its previous life is left. */
  lemma RejoinStartsAfresh(s: State, g: Gossip)
    requires g.kind == Up && g.member.addr != s.self.addr && Knows(s, g.member.addr)
    requires g.member.addr in s.members ==> Expired(s.members, g.member)
    requires g.member.addr in s.suspects ==> Expired(s.suspects, g.member)
    ensures var t, a := Step(s, Hear(g)).state, g.member.addr;
            a in t.members && t.members[a] == Entry(g.member.uid, g.inc) && a !in t.suspects && !IsUp(t.actorSystems, a)
    ensures Step(s, Hear(g)).queued == [g]
  {
  }

  // --- gossip ------------------------------------------------------------------------------------------

  // Kinds of gossip that only their subject starts; others pass them on unchanged.
  predicate IsAnnouncement(g: Gossip) {
    g.kind == Up || g.kind == Down || g.kind == ActorSystemUp || g.kind == ActorSystemDown
  }

  // Events in which a node may speak about itself.
  predicate SpeaksForSelf(e: Event) {
    e.HearFullState? || e.ActorSystemUpCall? || e.ActorSystemDownCall? || e.LeaveCall?
  }

  // Announcements about `self` under the stamps following `from`.
  predicate Stamped(queued: seq<Gossip>, self: Member, from: nat) {
    forall i | 0 <= i < |queued| :: IsAnnouncement(queued[i]) && queued[i].member == self && queued[i].inc == from + i + 1
  }

  predicate PassesOn(queued: seq<Gossip>, e: Event) {
    forall g | g in queued && IsAnnouncement(g) :: e == Hear(g)
  }

  /** Every increment of a node's counter is the stamp of exactly one announcement about itself, in
      order; no other event touches the counter, and the announcements it queues are those it heard. */
  lemma OneStampPerAnnouncement(s: State, e: Event)
    ensures var o := Step(s, e);
            if SpeaksForSelf(e) then |o.queued| == o.state.incarnation - s.incarnation && Stamped(o.queued, s.self, s.incarnation)
            else o.state.incarnation == s.incarnation && PassesOn(o.queued, e)
  {
    if SpeaksForSelf(e) {
      OwnStamps(s, e);
    } else {
      NoStamps(s, e);
    }
  }

  lemma OwnStamps(s: State, e: Event)
    requires SpeaksForSelf(e)
    ensures var o := Step(s, e);
            |o.queued| == o.state.incarnation - s.incarnation && Stamped(o.queued, s.self, s.incarnation)
  {
    if e.HearFullState? {
      FullStateStamps(s, e.statuses);
    }
  }

  lemma NoStamps(s: State, e: Event)
    requires !SpeaksForSelf(e)
    ensures var o := Step(s, e); o.state.incarnation == s.incarnation && PassesOn(o.queued, e)
  {
    match e
    case Hear(g) => PassedOnUnchanged(s, g);
    case PingOk(m) => Unannounced(s, m, 0);
    case PingFail(m) => Unannounced(s, m, Inc(s.members, m.addr));
    case RelaysFailed(m) => Unannounced(s, m, Inc(s.members, m.addr));
    case PushFail(m) => Unannounced(s, m, Inc(s.members, m.addr));
    case _ =>
  }

  lemma FullStateStamps(s: State, sts: seq<Status>)
    ensures var o := TakeFullState(s, sts);
            && o.state.incarnation == s.incarnation + |o.queued|
            && |o.queued| == (if s.selfUp then 2 else 1) && o.queued[0] == Gossip(Up, s.self, s.incarnation + 1)
            && (|o.queued| == 2 ==> o.queued[1] == Gossip(ActorSystemUp, s.self, s.incarnation + 2))
  {
    StatusesKeepSelf(s, sts);
  }

  lemma Unannounced(s: State, m: Member, inc: nat)
    ensures Suspect(s, m, inc).state.incarnation == s.incarnation && Recover(s, m).state.incarnation == s.incarnation
    ensures forall g | g in Suspect(s, m, inc).queued :: !IsAnnouncement(g)
    ensures forall g | g in Recover(s, m).queued :: !IsAnnouncement(g)
  {
  }

  lemma PassedOnUnchanged(s: State, g: Gossip)
    ensures var o := Receive(s, g);
            o.state.incarnation == s.incarnation && forall h | h in o.queued && IsAnnouncement(h) :: h == g
  {
    match g.kind
    case Up =>
    case Down =>
    case Suspected =>
    case _ =>
  }

  // One gossip about `a`, of one of two kinds, with a given incarnation.
  predicate Tells(queued: seq<Gossip>, a: Addr, one: Kind, other: Kind, inc: nat) {
    |queued| == 1 && queued[0].member.addr == a && (queued[0].kind == one || queued[0].kind == other) && queued[0].inc == inc
  }

  /** Whoever becomes a member through gossip or an answered ping, or is suspected, is gossiped about once, under
      the incarnation now stored; a burial is passed on. Pings and full states are merged silently. */
  lemma MovesAreGossiped(s: State, e: Event, a: Addr)
    ensures var o := Step(s, e);
            && (a !in s.members && a in o.state.members ==>
                  if e.HearPing? || e.HearFullState? then forall g | g in o.queued :: g.member == s.self
                  else Tells(o.queued, a, Up, Recovered, o.state.members[a].inc))
            && (a in s.members && a !in o.state.members && Knows(o.state, a) ==>
                  Tells(o.queued, a, Suspected, Suspected, o.state.suspects[a].inc) || (e.Hear? && e.g.kind == Up && o.queued == []))
            && (Knows(s, a) && !Knows(o.state, a) ==> e.Hear? && o.queued == [e.g])
  {
    match e
    case Hear(g) => GossipMoves(s, g, a);
    case HearPing(p) => MergePingAt(s, p, a);
    case HearFullState(sts) =>
      StatusesAt(s, sts, a);
      StatusesKeepSelf(s, sts);
    case PingOk(m) =>
      if m.addr in s.suspects {
        RecoverMoves(s, m, a);
      }
    case PingFail(m) => SuspectMoves(s, m, Inc(s.members, m.addr), a);
    case RelaysFailed(m) => SuspectMoves(s, m, Inc(s.members, m.addr), a);
    case PushFail(m) => SuspectMoves(s, m, Inc(s.members, m.addr), a);
    case _ =>
  }

  // How a gossip, a recovery or a suspicion moves one address, and what is said about it.
  predicate Moved(s: State, o: Outcome, a: Addr) {
    && (a !in s.members && a in o.state.members ==> Tells(o.queued, a, Up, Recovered, o.state.members[a].inc))
    && (a in s.members && a !in o.state.members && a in o.state.suspects ==>
          Tells(o.queued, a, Suspected, Suspected, o.state.suspects[a].inc))
  }

  lemma RecoverMoves(s: State, m: Member, a: Addr)
    requires m.addr in s.suspects
    ensures Moved(s, Recover(s, m), a)
    ensures Knows(Recover(s, m).state, a) <==> Knows(s, a)
    ensures a in s.members ==> a in Recover(s, m).state.members
  {
  }

  lemma SuspectMoves(s: State, m: Member, inc: nat, a: Addr)
    ensures Moved(s, Suspect(s, m, inc), a)
    ensures Knows(Suspect(s, m, inc).state, a) <==> Knows(s, a)
    ensures a !in s.members ==> a !in Suspect(s, m, inc).state.members
  {
  }

  lemma GossipMoves(s: State, g: Gossip, a: Addr)
    ensures var o := Receive(s, g);
            && (a !in s.members && a in o.state.members ==> Tells(o.queued, a, Up, Recovered, o.state.members[a].inc))
            && (a in s.members && a !in o.state.members && Knows(o.state, a) ==>
                  Tells(o.queued, a, Suspected, Suspected, o.state.suspects[a].inc) || (g.kind == Up && o.queued == []))
            && (Knows(s, a) && !Knows(o.state, a) ==> o.queued == [g])
  {
    match g.kind
    case Up =>
    case Down =>
    case Suspected => SuspectMoves(s, g.member, g.inc, a);
    case Recovered =>
      if g.member.addr in s.suspects {
        RecoverMoves(s, g.member, a);
      }
    case _ =>
  }

  // --- suspicion -----------------------------------------------------------------------------------------

  predicate Disjoint(s: State) {
    s.members.Keys !! s.suspects.Keys
  }

  // The event puts `a` among the members while it stays a suspect.
  predicate Doubles(s: State, e: Event, a: Addr) {
    && a in s.suspects
    && match e
       case Hear(g) =>
         && g.kind == Up && g.member.addr == a && a != s.self.addr
         && g.member.uid == s.suspects[a].uid && s.suspects[a].inc < g.inc
       case HearPing(p) => a in p.members
       case HearFullState(sts) => Listed(sts, a)
       case _ => false
  }

  lemma OverlapStep(s: State, e: Event, a: Addr)
    requires !(a in s.members && a in s.suspects)
    ensures var t := Step(s, e).state; a in t.members && a in t.suspects <==> Doubles(s, e, a)
  {
    match e
    case Hear(g) => OverlapGossip(s, g, a);
    case HearPing(p) => OverlapPing(s, p, a);
    case HearFullState(sts) => OverlapFullState(s, sts, a);
    case _ => OverlapOther(s, e, a);
  }

  lemma OverlapPing(s: State, p: Ping, a: Addr)
    requires !(a in s.members && a in s.suspects)
    ensures a in MergePing(s, p).members && a in MergePing(s, p).suspects <==> Doubles(s, HearPing(p), a)
  {
    MergePingAt(s, p, a);
  }

  lemma OverlapFullState(s: State, sts: seq<Status>, a: Addr)
    requires !(a in s.members && a in s.suspects)
    ensures a in TakeFullState(s, sts).state.members && a in TakeFullState(s, sts).state.suspects <==> Doubles(s, HearFullState(sts), a)
  {
    StatusesAt(s, sts, a);
    StatusesKeepSelf(s, sts);
  }

  lemma OverlapOther(s: State, e: Event, a: Addr)
    requires !e.Hear? && !e.HearPing? && !e.HearFullState?
    requires !(a in s.members && a in s.suspects)
    ensures a in Step(s, e).state.members && a in Step(s, e).state.suspects <==> Doubles(s, e, a)
  {
    match e
    case PingOk(m) =>
    case PingFail(m) =>
    case _ =>
  }

  lemma OverlapGossip(s: State, g: Gossip, a: Addr)
    requires !(a in s.members && a in s.suspects)
    ensures var t := Receive(s, g).state; a in t.members && a in t.suspects <==> Doubles(s, Hear(g), a)
  {
    match g.kind
    case Up =>
    case Down =>
    case Suspected =>
    case _ =>
  }

  ghost predicate Muddles(s: State, e: Event) {
    exists a :: Doubles(s, e, a)
  }

  lemma DisjointStep(s: State, e: Event)
    requires Disjoint(s)
    ensures Disjoint(Step(s, e).state) <==> !Muddles(s, e)
  {
    var t := Step(s, e).state;
    forall a
      ensures a in t.members && a in t.suspects <==> Doubles(s, e, a)
    {
      OverlapStep(s, e, a);
    }
    if !Disjoint(t) {
      var a :| a in t.members && a in t.suspects;
      assert Doubles(s, e, a);
    }
  }

  /** Members and suspects stay disjoint throughout a run exactly when no step hears an up gossip newer
      than a suspicion of the same life, or a ping or full state that lists a suspect. */
  lemma DisjointExact(s: State, es: seq<Event>)
    requires Disjoint(s)
    ensures (forall k: nat | k <= |es| :: Disjoint(Run(s, es[..k]))) <==>
            (forall k: nat | k < |es| :: !Muddles(Run(s, es[..k]), es[k]))
  {
    var holds := (k: nat) => k <= |es| && Disjoint(Run(s, es[..k]));
    var fine := (k: nat) => k < |es| && !Muddles(Run(s, es[..k]), es[k]);
    forall k: nat | k < |es| && holds(k)
      ensures holds(k + 1) <==> fine(k)
    {
      RunSnoc(s, es, k);
      DisjointStep(Run(s, es[..k]), es[k]);
    }
    Steps.Stepwise(holds, fine, |es|);
    assert forall k: nat | k <= |es| :: holds(k) == Disjoint(Run(s, es[..k]));
    assert forall k: nat | k < |es| :: fine(k) == !Muddles(Run(s, es[..k]), es[k]);
  }

  /** It does happen: a suspect whose newer announcement arrives becomes a member and stays a suspect. */
  lemma UpMakesDouble(self: Member, relayPing: bool, m: Member)
    requires m.addr != self.addr
    ensures !Disjoint(Run(Initial(self, relayPing), [Hear(Gossip(Up, m, 1)), PushFail(m), Hear(Gossip(Up, m, 2))]))
  {
    DoubledRun(self, relayPing, m);
    var s := Run(Initial(self, relayPing), [Hear(Gossip(Up, m, 1)), PushFail(m), Hear(Gossip(Up, m, 2))]);
    assert m.addr in s.members && m.addr in s.suspects;
  }

  lemma DoubledRun(self: Member, relayPing: bool, m: Member)
    requires m.addr != self.addr
    ensures var s := Run(Initial(self, relayPing), [Hear(Gossip(Up, m, 1)), PushFail(m), Hear(Gossip(Up, m, 2))]);
            && m.addr in s.members && s.members[m.addr] == Entry(m.uid, 2)
            && m.addr in s.suspects && s.suspects[m.addr] == Entry(m.uid, 1)
  {
    var s := Initial(self, relayPing);
    var es := [Hear(Gossip(Up, m, 1)), PushFail(m), Hear(Gossip(Up, m, 2))];
    RunSnoc(s, es, 0);
    RunSnoc(s, es, 1);
    RunSnoc(s, es, 2);
    assert es[..0] == [] && es[..3] == es;
    assert Run(s, es[..2]).suspects[m.addr] == Entry(m.uid, 1);
  }

  // --- incarnations -----------------------------------------------------------------------------------------

  // The incarnation known of `a`, the larger one should it be in both tables.
  function Held(s: State, a: Addr): nat {
    if Inc(s.members, a) >= Inc(s.suspects, a) then Inc(s.members, a) else Inc(s.suspects, a)
  }

  // Every copy that holds the largest incarnation is stored under another uid.
  predicate LargestExpired(s: State, m: Member) {
    && (m.addr in s.members && s.members[m.addr].inc == Held(s, m.addr) ==> Expired(s.members, m))
    && (m.addr in s.suspects && s.suspects[m.addr].inc == Held(s, m.addr) ==> Expired(s.suspects, m))
  }

  // An up gossip with a smaller incarnation, and a uid other than the one the largest is stored under.
  predicate ReplacesNewer(s: State, e: Event, a: Addr) {
    && e.Hear? && e.g.kind == Up && e.g.member.addr == a && a != s.self.addr
    && e.g.inc < Held(s, a) && LargestExpired(s, e.g.member)
  }

  // A recovery of a suspect that is a member already, with a larger incarnation.
  predicate RecoversLower(s: State, e: Event, a: Addr) {
    && a in s.members && a in s.suspects && s.suspects[a].inc < s.members[a].inc
    && match e
       case PingOk(m) => m.addr == a
       case Hear(g) => g.kind == Recovered && g.member.addr == a && g.inc >= s.suspects[a].inc
       case _ => false
  }

  // A local suspicion of a member that is a suspect already, with a larger incarnation.
  predicate SuspectsLower(s: State, e: Event, a: Addr) {
    && a in s.members && a in s.suspects && s.members[a].inc < s.suspects[a].inc
    && match e
       case PingFail(m) => m.addr == a && !s.relayPing
       case RelaysFailed(m) => m.addr == a
       case PushFail(m) => m.addr == a
       case _ => false
  }

  predicate Lowers(s: State, e: Event, a: Addr) {
    ReplacesNewer(s, e, a) || RecoversLower(s, e, a) || SuspectsLower(s, e, a)
  }

  /** In every state and for every event: the incarnation of a still-known node decreases in exactly three cases. */
  lemma IncarnationStep(s: State, e: Event, a: Addr)
    requires Knows(Step(s, e).state, a)
    ensures Held(Step(s, e).state, a) < Held(s, a) <==> Lowers(s, e, a)
  {
    match e
    case Hear(g) => IncarnationGossip(s, g, a);
    case HearPing(p) => IncarnationPing(s, p, a);
    case HearFullState(sts) => IncarnationFullState(s, sts, a);
    case _ => IncarnationOther(s, e, a);
  }

  lemma IncarnationOther(s: State, e: Event, a: Addr)
    requires !e.Hear? && !e.HearPing? && !e.HearFullState?
    ensures Held(Step(s, e).state, a) < Held(s, a) <==> RecoversLower(s, e, a) || SuspectsLower(s, e, a)
  {
    match e
    case PingOk(m) =>
      if m.addr in s.suspects {
        IncarnationRecover(s, m, a);
      }
    case PingFail(m) => IncarnationSuspect(s, m, Inc(s.members, m.addr), a);
    case RelaysFailed(m) => IncarnationSuspect(s, m, Inc(s.members, m.addr), a);
    case PushFail(m) => IncarnationSuspect(s, m, Inc(s.members, m.addr), a);
    case _ =>
  }

  lemma IncarnationPing(s: State, p: Ping, a: Addr)
    ensures Held(MergePing(s, p), a) >= Held(s, a)
  {
    MergePingAt(s, p, a);
  }

  lemma IncarnationFullState(s: State, sts: seq<Status>, a: Addr)
    ensures Held(TakeFullState(s, sts).state, a) >= Held(s, a)
  {
    StatusesAt(s, sts, a);
    StatusesKeepSelf(s, sts);
  }

  lemma IncarnationRecover(s: State, m: Member, a: Addr)
    requires m.addr in s.suspects
    ensures Held(Recover(s, m).state, a) < Held(s, a) <==>
            m.addr == a && a in s.members && s.suspects[a].inc < s.members[a].inc
  {
  }

  lemma IncarnationSuspect(s: State, m: Member, inc: nat, a: Addr)
    requires inc >= Inc(s.members, m.addr)
    ensures Held(Suspect(s, m, inc).state, a) < Held(s, a) <==>
            m.addr == a && a in s.members && a in s.suspects && inc < s.suspects[a].inc
  {
  }

  lemma IncarnationUp(s: State, g: Gossip, a: Addr)
    requires g.kind == Up
    ensures Held(ReceiveUp(s, g).state, a) < Held(s, a) <==> ReplacesNewer(s, Hear(g), a)
  {
    if a != g.member.addr {
      UpKeepsOthers(s, g, a);
    } else if a != s.self.addr {
      HeldAfterErasing(s, g.member);
      HeldAfterUp(EraseExpired(s, g.member), s, g);
    }
  }

  lemma UpKeepsOthers(s: State, g: Gossip, a: Addr)
    requires a != g.member.addr
    ensures Held(ReceiveUp(s, g).state, a) == Held(s, a)
  {
  }

  // Erasing lowers what is held exactly if every copy of the largest incarnation goes.
  lemma HeldAfterErasing(s: State, m: Member)
    ensures Held(EraseExpired(s, m), m.addr) <= Held(s, m.addr)
    ensures Held(s, m.addr) > 0 ==> (Held(EraseExpired(s, m), m.addr) < Held(s, m.addr) <==> LargestExpired(s, m))
  {
  }

  // What is left after erasing is raised to the message's incarnation.
  lemma HeldAfterUp(e: State, s: State, g: Gossip)
    requires e == EraseExpired(s, g.member) && g.member.addr != s.self.addr
    ensures Held(ReceiveUp(s, g).state, g.member.addr) ==
            if Held(e, g.member.addr) >= g.inc then Held(e, g.member.addr) else g.inc
  {
  }

  lemma IncarnationGossip(s: State, g: Gossip, a: Addr)
    requires Knows(Receive(s, g).state, a)
    ensures Held(Receive(s, g).state, a) < Held(s, a) <==> Lowers(s, Hear(g), a)
  {
    match g.kind
    case Up => IncarnationUp(s, g, a);
    case Down =>
    case Suspected =>
      if g.member.addr !in s.suspects && g.inc >= Inc(s.members, g.member.addr) {
        IncarnationSuspect(s, g.member, g.inc, a);
      }
    case Recovered =>
      if g.member.addr in s.suspects {
        IncarnationRecover(s, g.member, a);
      }
    case _ =>
  }

  /** From disjoint tables only the up gossip is left. */
  lemma DisjointIncarnationStep(s: State, e: Event, a: Addr)
    requires Disjoint(s) && Knows(Step(s, e).state, a)
    ensures Held(Step(s, e).state, a) < Held(s, a) <==> ReplacesNewer(s, e, a)
  {
    IncarnationStep(s, e, a);
    assert !(a in s.members && a in s.suspects);
  }

  /** The second case does happen: an answered ping of a node in both tables brings the older incarnation back. */
  lemma RecoveryLowers(self: Member, relayPing: bool, m: Member)
    requires m.addr != self.addr
    ensures var es := [Hear(Gossip(Up, m, 1)), PushFail(m), Hear(Gossip(Up, m, 2))];
            var s := Run(Initial(self, relayPing), es);
            RecoversLower(s, PingOk(m), m.addr) && Held(s, m.addr) == 2 && Held(Step(s, PingOk(m)).state, m.addr) == 1
  {
    DoubledRun(self, relayPing, m);
  }

  /** So does the third: a suspect listed in a full state is a member with incarnation 0, and failing again takes
      that one over. */
  lemma SuspicionLowers(self: Member, relayPing: bool, m: Member)
    requires m.addr != self.addr
    ensures var es := [Hear(Gossip(Up, m, 2)), PushFail(m), HearFullState([Status(Member(m.addr, ""), false)])];
            var s := Run(Initial(self, relayPing), es);
            SuspectsLower(s, PushFail(m), m.addr) && Held(s, m.addr) == 2 && Held(Step(s, PushFail(m)).state, m.addr) == 0
  {
    var s, listed := Initial(self, relayPing), [Status(Member(m.addr, ""), false)];
    var es := [Hear(Gossip(Up, m, 2)), PushFail(m), HearFullState(listed)];
    RunSnoc(s, es, 0);
    RunSnoc(s, es, 1);
    RunSnoc(s, es, 2);
    assert es[..0] == [] && es[..3] == es;
    var t := Run(s, es[..2]);
    assert m.addr !in t.members && t.suspects[m.addr] == Entry(m.uid, 2);
    assert listed[0].member.addr == m.addr;
    StatusesAt(t, listed, m.addr);
    StatusesKeepSelf(t, listed);
  }

  // Suspicions, recoveries, actor-system changes, downs and the results of pings and relays.
  predicate Ordinary(e: Event) {
    match e
    case Hear(g) => g.kind != Up
    case HearPing(_) => false
    case HearFullState(_) => false
    case _ => true
  }

  /** Over any run of suspicion, recovery, actor-system, down and ping-result steps the tables stay
      disjoint, nothing new becomes known, and no incarnation decreases. */
  lemma {:induction false} SuspicionRuns(s: State, es: seq<Event>, a: Addr)
    requires Disjoint(s) && forall e | e in es :: Ordinary(e)
    ensures var t := Run(s, es);
            Disjoint(t) && (Knows(t, a) ==> Knows(s, a) && Held(t, a) >= Held(s, a))
    decreases |es|
  {
    if es != [] {
      var init, e := es[..|es| - 1], es[|es| - 1];
      assert e in es;
      SuspicionRuns(s, init, a);
      DisjointStep(Run(s, init), e);
      KnowledgeStep(Run(s, init), e, a);
      if Knows(Run(s, es), a) {
        DisjointIncarnationStep(Run(s, init), e, a);
      }
    }
  }
}
