// What the handlers of a node achieve, told by what a node holds before and after: repeated suspicions, passing news on,
// hearing another node's ping or full state, and the node's own actor system.
module NodeEffects {
  import opened Addresses
  import opened Membership
  import opened NodeRuns

  function Larger(m: nat, n: nat): nat {
    if m >= n then m else n
  }

  // Nothing held about `a` has changed.
  predicate Untouched(s: State, t: State, a: Addr) {
    && (a in t.members <==> a in s.members) && (a in s.members ==> t.members[a] == s.members[a])
    && (a in t.suspects <==> a in s.suspects) && (a in s.suspects ==> t.suspects[a] == s.suspects[a])
    && IsUp(t.actorSystems, a) == IsUp(s.actorSystems, a)
  }

  // --- suspicions --------------------------------------------------------------------------------

  predicate IsSuspicion(e: Event) {
    e.Hear? && e.g.kind == Suspected
  }

  predicate Suspects(e: Event, a: Addr, inc: nat) {
    IsSuspicion(e) && e.g.member.addr == a && e.g.inc == inc
  }

  /** One suspicion: a standing suspect takes the larger incarnation, silently; a node that is only a member is
      suspected, and that passed on, exactly if the suspicion is not older than what is held. */
  lemma SuspicionStep(s: State, g: Gossip, a: Addr)
    requires g.kind == Suspected && g.member.addr == a
    ensures var o := Step(s, Hear(g));
            if a in s.suspects then
              && Untouched(s.(suspects := map[]), o.state.(suspects := map[]), a) && o.queued == []
              && a in o.state.suspects && o.state.suspects[a] == Entry(s.suspects[a].uid, Larger(s.suspects[a].inc, g.inc))
            else if a in s.members && g.inc >= s.members[a].inc then
              && a !in o.state.members && a in o.state.suspects && o.state.suspects[a] == Entry(g.member.uid, g.inc)
              && !IsUp(o.state.actorSystems, a) && o.queued == [g]
            else Untouched(s, o.state, a) && o.queued == []
  {
  }

  lemma SuspicionElsewhere(s: State, g: Gossip, a: Addr)
    requires g.kind == Suspected && g.member.addr != a
    ensures Untouched(s, Step(s, Hear(g)).state, a)
    ensures forall h | h in Step(s, Hear(g)).queued :: h.member.addr != a
  {
  }

  ghost predicate Heard(es: seq<Event>, a: Addr, inc: nat) {
    exists i :: 0 <= i < |es| && Suspects(es[i], a, inc)
  }

  lemma HeardSnoc(es: seq<Event>, e: Event, a: Addr, inc: nat)
    ensures Heard(es + [e], a, inc) <==> Heard(es, a, inc) || Suspects(e, a, inc)
  {
    var all := es + [e];
    assert all[|es|] == e;
    if Heard(es, a, inc) {
      var i :| 0 <= i < |es| && Suspects(es[i], a, inc);
      assert all[i] == es[i];
    }
  }

  // How many gossips about `a` a run has queued.
  function QueuedAbout(s: State, es: seq<Event>, a: Addr): nat
    decreases |es|
  {
    if es == [] then 0
    else QueuedAbout(s, es[..|es| - 1], a) + CountAbout(Step(Run(s, es[..|es| - 1]), es[|es| - 1]).queued, a)
  }

  function CountAbout(gs: seq<Gossip>, a: Addr): nat {
    if gs == [] then 0 else CountAbout(gs[1..], a) + if gs[0].member.addr == a then 1 else 0
  }

  lemma {:induction false} NoneAbout(gs: seq<Gossip>, a: Addr)
    requires forall g | g in gs :: g.member.addr != a
    ensures CountAbout(gs, a) == 0
    decreases |gs|
  {
    if gs != [] {
      assert gs[0] in gs;
      NoneAbout(gs[1..], a);
    }
  }

  // `inc` is what a suspect held and what was heard since, whichever is largest.
  ghost predicate LargestHeard(es: seq<Event>, a: Addr, held: nat, inc: nat) {
    && held <= inc && (inc == held || Heard(es, a, inc))
    && forall n: nat | Heard(es, a, n) :: n <= inc
  }

  lemma LargestHeardSnoc(es: seq<Event>, e: Event, a: Addr, held: nat, inc: nat)
    requires LargestHeard(es, a, held, inc)
    ensures forall n: nat | Suspects(e, a, n) :: LargestHeard(es + [e], a, held, Larger(inc, n))
    ensures (forall n: nat :: !Suspects(e, a, n)) ==> LargestHeard(es + [e], a, held, inc)
  {
    forall n: nat
      ensures Heard(es + [e], a, n) <==> Heard(es, a, n) || Suspects(e, a, n)
    {
      HeardSnoc(es, e, a, n);
    }
  }

  // What a run of suspicions makes of a standing suspect.
  ghost predicate StillSuspected(s: State, es: seq<Event>, a: Addr) {
    var t := Run(s, es);
    && a in s.suspects && a in t.suspects && t.suspects[a].uid == s.suspects[a].uid
    && LargestHeard(es, a, s.suspects[a].inc, t.suspects[a].inc)
    && QueuedAbout(s, es, a) == 0
  }

  /** Any suspicions of a standing suspect, in any order and with any repetition: it ends under the larger of what
      was held and the largest incarnation heard, and nothing about it is queued. */
  lemma {:induction false} SuspicionsOfSuspect(s: State, es: seq<Event>, a: Addr)
    requires (forall e | e in es :: IsSuspicion(e)) && a in s.suspects
    ensures StillSuspected(s, es, a)
    decreases |es|
  {
    if es != [] {
      var init, e := es[..|es| - 1], es[|es| - 1];
      assert e in es && es == init + [e];
      SuspicionsOfSuspect(s, init, a);
      LargestHeardSnoc(init, e, a, s.suspects[a].inc, Run(s, init).suspects[a].inc);
      if e.g.member.addr == a {
        SuspicionStep(Run(s, init), e.g, a);
        assert Suspects(e, a, e.g.inc);
      } else {
        SuspicionElsewhere(Run(s, init), e.g, a);
        NoneAbout(Step(Run(s, init), e).queued, a);
      }
    }
  }

  // Some suspicion is not older than `held`.
  ghost predicate HeardSince(es: seq<Event>, a: Addr, held: nat) {
    exists n: nat :: n >= held && Heard(es, a, n)
  }

  lemma HeardSinceSnoc(es: seq<Event>, e: Event, a: Addr, held: nat)
    requires IsSuspicion(e)
    ensures HeardSince(es + [e], a, held) <==> HeardSince(es, a, held) || (e.g.member.addr == a && e.g.inc >= held)
  {
    if HeardSince(es + [e], a, held) {
      var n: nat :| n >= held && Heard(es + [e], a, n);
      HeardSnoc(es, e, a, n);
    }
    if HeardSince(es, a, held) {
      var n: nat :| n >= held && Heard(es, a, n);
      HeardSnoc(es, e, a, n);
    }
    if e.g.member.addr == a {
      HeardSnoc(es, e, a, e.g.inc);
    }
  }

  // The first suspicion that is not older is the largest so far.
  lemma FirstSince(es: seq<Event>, e: Event, a: Addr, held: nat)
    requires IsSuspicion(e) && e.g.member.addr == a && e.g.inc >= held && !HeardSince(es, a, held)
    ensures LargestHeard(es + [e], a, held, e.g.inc)
  {
    forall n: nat
      ensures Heard(es + [e], a, n) <==> Heard(es, a, n) || n == e.g.inc
    {
      HeardSnoc(es, e, a, n);
    }
  }

  // `t`, with `queued` gossips about `a`, is what suspicions make of a node that is only a member of `s`.
  ghost predicate SuspectedIfNews(s: State, es: seq<Event>, a: Addr, t: State, queued: nat) {
    && a in s.members
    && if HeardSince(es, a, s.members[a].inc) then
         && a !in t.members && a in t.suspects && LargestHeard(es, a, s.members[a].inc, t.suspects[a].inc)
         && !IsUp(t.actorSystems, a) && queued == 1
       else Untouched(s, t, a) && queued == 0
  }

  /** Any suspicions of a node that is only a member: it is suspected exactly if some suspicion is not older than its
      incarnation, then under the largest incarnation heard, and one suspicion is passed on. */
  lemma {:induction false} SuspicionsOfMember(s: State, es: seq<Event>, a: Addr)
    requires (forall e | e in es :: IsSuspicion(e)) && a in s.members && a !in s.suspects
    ensures SuspectedIfNews(s, es, a, Run(s, es), QueuedAbout(s, es, a))
    decreases |es|
  {
    if es == [] {
      assert !HeardSince(es, a, s.members[a].inc);
    } else {
      var init, e := es[..|es| - 1], es[|es| - 1];
      assert e in es && es == init + [e];
      SuspicionsOfMember(s, init, a);
      SuspectedSnoc(s, init, e, a, Run(s, init), QueuedAbout(s, init, a));
    }
  }

  lemma SuspectedSnoc(s: State, init: seq<Event>, e: Event, a: Addr, r: State, queued: nat)
    requires SuspectedIfNews(s, init, a, r, queued) && a !in s.suspects && IsSuspicion(e)
    ensures SuspectedIfNews(s, init + [e], a, Step(r, e).state, queued + CountAbout(Step(r, e).queued, a))
  {
    HeardSinceSnoc(init, e, a, s.members[a].inc);
    if e.g.member.addr == a {
      SuspectedSnocHere(s, init, e, a, r, queued);
    } else {
      SuspicionElsewhere(r, e.g, a);
      NoneAbout(Step(r, e).queued, a);
      assert forall n: nat :: !Suspects(e, a, n);
      if HeardSince(init, a, s.members[a].inc) {
        LargestHeardSnoc(init, e, a, s.members[a].inc, r.suspects[a].inc);
      }
    }
  }

  lemma SuspectedSnocHere(s: State, init: seq<Event>, e: Event, a: Addr, r: State, queued: nat)
    requires SuspectedIfNews(s, init, a, r, queued) && a !in s.suspects && IsSuspicion(e) && e.g.member.addr == a
    ensures SuspectedIfNews(s, init + [e], a, Step(r, e).state, queued + CountAbout(Step(r, e).queued, a))
  {
    var held := s.members[a].inc;
    HeardSinceSnoc(init, e, a, held);
    SuspicionStep(r, e.g, a);
    assert Suspects(e, a, e.g.inc);
    if HeardSince(init, a, held) {
      LargestHeardSnoc(init, e, a, held, r.suspects[a].inc);
    } else if e.g.inc >= held {
      FirstSince(init, e, a, held);
    }
  }

  // --- passing news on -----------------------------------------------------------------------------

  // The member entry under `a` is there and not the one before.
  predicate Entered(s: State, t: State, a: Addr) {
    a in t.members && (a in s.members ==> t.members[a] != s.members[a])
  }

  /** Gossip is passed on exactly if it changed something: news that enters the members, unchanged; a down gossip about
      a known node, unchanged; a suspicion or recovery that moves its node, under the incarnation now stored. */
  lemma PassedOnExactly(s: State, g: Gossip)
    ensures var o, a := Step(s, Hear(g)), g.member.addr;
            o.queued ==
              match g.kind
              case Up => if Entered(s, o.state, a) then [g] else []
              case ActorSystemUp => if Entered(s, o.state, a) then [g] else []
              case ActorSystemDown => if Entered(s, o.state, a) then [g] else []
              case Down => if Knows(s, a) then [g] else []
              case Suspected => if a in s.members && a !in o.state.members then [g] else []
              case Recovered => if a in s.suspects && a !in o.state.suspects then [g.(inc := s.suspects[a].inc)] else []
  {
    match g.kind
    case Up =>
    case Down =>
    case Suspected =>
    case _ =>
  }

  /** A down gossip takes any other node it names out of both tables and clears its flag; about oneself it only travels on. */
  lemma DownBuries(s: State, g: Gossip)
    requires g.kind == Down
    ensures var o, a := Step(s, Hear(g)), g.member.addr;
            if Knows(s, a) && a != s.self.addr then !Knows(o.state, a) && !IsUp(o.state.actorSystems, a) && o.queued == [g]
            else o.state == s
  {
  }

  /** Up gossip about oneself is ignored; about anybody else it leaves an entry at least as new as itself. */
  lemma UpIsTaken(s: State, g: Gossip)
    requires g.kind == Up
    ensures var o, a := Step(s, Hear(g)), g.member.addr;
            if a == s.self.addr then o == Outcome(s, [])
            else Held(o.state, a) >= g.inc && (Held(s, a) < g.inc ==> a in o.state.members && o.state.members[a] == Entry(g.member.uid, g.inc))
  {
  }

  /** A recovery is accepted exactly if its node is suspected under an incarnation no larger. */
  lemma RecoveryStep(s: State, g: Gossip)
    requires g.kind == Recovered
    ensures var t, a := Step(s, Hear(g)).state, g.member.addr;
            if a in s.suspects && s.suspects[a].inc <= g.inc then
              a in t.members && t.members[a].inc == s.suspects[a].inc && a !in t.suspects
              && IsUp(t.actorSystems, a) == IsUp(s.actorSystems, a)
            else t == s
  {
  }

  // --- pings and frames ------------------------------------------------------------------------------

  // The ways in which a node finds out by itself that another one does not answer.
  predicate FindsDead(s: State, e: Event, a: Addr) {
    match e
    case PingFail(m) => m.addr == a && !s.relayPing
    case RelaysFailed(m) => m.addr == a
    case PushFail(m) => m.addr == a
    case _ => false
  }

  /** A member that is found dead is suspected under the incarnation held of it, and that passed on; anything else found dead
      changes nothing. */
  lemma FoundDead(s: State, e: Event, a: Addr)
    requires FindsDead(s, e, a)
    ensures var o := Step(s, e);
            if a in s.members then
              && a !in o.state.members && a in o.state.suspects && o.state.suspects[a].inc == s.members[a].inc
              && !IsUp(o.state.actorSystems, a)
              && |o.queued| == 1 && o.queued[0].kind == Suspected && o.queued[0].member.addr == a && o.queued[0].inc == s.members[a].inc
            else o == Outcome(s, [])
  {
  }

  /** An answered ping brings a suspect back under the incarnation it was suspected with, and passes that on; of anybody else it
      changes nothing. A failed ping with relays changes nothing yet. */
  lemma FoundAlive(s: State, m: Member)
    ensures var o, a := Step(s, PingOk(m)), m.addr;
            if a in s.suspects then
              && a in o.state.members && o.state.members[a].inc == s.suspects[a].inc && a !in o.state.suspects
              && IsUp(o.state.actorSystems, a) == IsUp(s.actorSystems, a)
              && o.queued == [Gossip(Recovered, m, s.suspects[a].inc)]
            else o == Outcome(s, [])
    ensures s.relayPing ==> Step(s, PingFail(m)) == Outcome(s, [])
  {
  }

  // The addresses an event is about.
  predicate IsAbout(self: Addr, e: Event, a: Addr) {
    match e
    case Hear(g) => g.member.addr == a
    case HearPing(p) => a in p.members
    case HearFullState(sts) => Listed(sts, a)
    case PingOk(m) => m.addr == a
    case PingFail(m) => m.addr == a
    case RelaysFailed(m) => m.addr == a
    case PushFail(m) => m.addr == a
    case ActorSystemUpCall => a == self
    case ActorSystemDownCall => a == self
    case LeaveCall => false
  }

  /** No event touches what is held about an address it is not about. */
  lemma FrameStep(s: State, e: Event, a: Addr)
    requires !IsAbout(s.self.addr, e, a)
    ensures Untouched(s, Step(s, e).state, a)
  {
    match e
    case Hear(g) => GossipIsLocal(s, g, a);
    case HearPing(p) => MergePingAt(s, p, a);
    case HearFullState(sts) =>
      StatusesAt(s, sts, a);
      StatusesKeepSelf(s, sts);
    case _ => FrameOther(s, e, a);
  }

  // A gossip touches nothing but the address it names.
  lemma GossipIsLocal(s: State, g: Gossip, a: Addr)
    requires a != g.member.addr
    ensures var t := Receive(s, g).state;
            && MergedAt(s, t, a)
            && (a in t.suspects <==> a in s.suspects) && (a in t.suspects ==> t.suspects[a] == s.suspects[a])
  {
    match g.kind
    case Up => UpIsLocal(s, g, a);
    case Down =>
    case Suspected =>
    case Recovered =>
    case _ =>
  }

  lemma UpIsLocal(s: State, g: Gossip, a: Addr)
    requires a != g.member.addr
    ensures var t := ReceiveUp(s, g).state;
            && MergedAt(s, t, a)
            && (a in t.suspects <==> a in s.suspects) && (a in t.suspects ==> t.suspects[a] == s.suspects[a])
  {
  }

  lemma FrameOther(s: State, e: Event, a: Addr)
    requires !e.Hear? && !e.HearPing? && !e.HearFullState? && !IsAbout(s.self.addr, e, a)
    ensures Untouched(s, Step(s, e).state, a)
  {
    match e
    case PingOk(m) => RecoverIsLocal(s, m, a);
    case PingFail(m) => SuspectIsLocal(s, m, Inc(s.members, m.addr), a);
    case RelaysFailed(m) => SuspectIsLocal(s, m, Inc(s.members, m.addr), a);
    case PushFail(m) => SuspectIsLocal(s, m, Inc(s.members, m.addr), a);
    case _ =>
  }

  lemma RecoverIsLocal(s: State, m: Member, a: Addr)
    requires m.addr != a
    ensures Untouched(s, Recover(s, m).state, a)
  {
  }

  lemma SuspectIsLocal(s: State, m: Member, inc: nat, a: Addr)
    requires m.addr != a
    ensures Untouched(s, Suspect(s, m, inc).state, a)
  {
  }

  // --- hearing another node --------------------------------------------------------------------------

  /** Hearing the ping that `s` sends: all its members are members here too, under the larger incarnation of the two,
      with the flag of whoever held the larger one; everything else stays, and nothing is queued. */
  lemma PingAchieves(r: State, s: State, a: Addr)
    ensures var o := Step(r, HearPing(PingBody(s)));
            && o.queued == [] && o.state.suspects == r.suspects
            && (a in o.state.members <==> a in r.members || a in s.members)
            && (a in s.members ==>
                  && o.state.members[a].inc == (if a in r.members then Larger(r.members[a].inc, s.members[a].inc) else s.members[a].inc)
                  && o.state.members[a].uid == (if a in r.members then r.members[a].uid else "")
                  && IsUp(o.state.actorSystems, a) ==
                     (if a in r.members && r.members[a].inc >= s.members[a].inc then IsUp(r.actorSystems, a) else IsUp(s.actorSystems, a)))
            && (a !in s.members ==> Untouched(r, o.state, a))
  {
    MergePingAt(r, PingBody(s), a);
  }

  /** Hearing the full state of `s`: all its members are members here too, those not known before under incarnation
      0, and all with the flags `s` gives them; other entries and flags stay. */
  lemma FullStateAchieves(r: State, s: State, sts: seq<Status>, a: Addr)
    requires IsFullState(s, sts)
    ensures var t := Step(r, HearFullState(sts)).state;
            && t.suspects == r.suspects
            && (a in t.members <==> a in r.members || a in s.members)
            && (a in r.members ==> t.members[a] == r.members[a])
            && (a in t.members && a !in r.members ==> t.members[a] == Entry("", 0))
            && (a in s.members ==> IsUp(t.actorSystems, a) == IsUp(s.actorSystems, a))
            && (a !in s.members ==> Untouched(r, t, a))
  {
    StatusesAt(r, sts, a);
    StatusesKeepSelf(r, sts);
    if Listed(sts, a) {
      LastStatusIsListed(sts, a);
      assert StatusOf(s, LastStatus(sts, a));
    }
    if a in UpdateStatuses(r, sts).members && a !in r.members {
      var st :| st in sts && st.member == Member(a, UpdateStatuses(r, sts).members[a].uid);
      assert StatusOf(s, st);
    }
  }

  // --- one's own actor system and announcements --------------------------------------------------------

  // Brought up, and not down again since.
  ghost predicate UpSince(es: seq<Event>) {
    exists i :: 0 <= i < |es| && es[i].ActorSystemUpCall? && forall j | i < j < |es| :: !es[j].ActorSystemDownCall?
  }

  /** A node takes its actor system for up exactly if it was brought up and not down again since. */
  lemma {:induction false} SelfUpExact(self: Member, relayPing: bool, es: seq<Event>)
    ensures Run(Initial(self, relayPing), es).selfUp <==> UpSince(es)
    decreases |es|
  {
    if es != [] {
      var init, e := es[..|es| - 1], es[|es| - 1];
      assert es == init + [e];
      SelfUpExact(self, relayPing, init);
      SelfUpStep(Run(Initial(self, relayPing), init), e);
      UpSinceSnoc(init, e);
    }
  }

  lemma SelfUpStep(s: State, e: Event)
    ensures Step(s, e).state.selfUp == if e.ActorSystemUpCall? then true else if e.ActorSystemDownCall? then false else s.selfUp
  {
    if e.HearFullState? {
      StatusesKeepSelf(s, e.statuses);
    }
  }

  lemma UpSinceSnoc(es: seq<Event>, e: Event)
    ensures UpSince(es + [e]) <==> e.ActorSystemUpCall? || (UpSince(es) && !e.ActorSystemDownCall?)
  {
    var all := es + [e];
    assert all[|es|] == e;
    if UpSince(es) && !e.ActorSystemDownCall? {
      var i :| 0 <= i < |es| && es[i].ActorSystemUpCall? && forall j | i < j < |es| :: !es[j].ActorSystemDownCall?;
      assert all[i].ActorSystemUpCall? && forall j | i < j < |all| :: !all[j].ActorSystemDownCall?;
    }
    if UpSince(all) && !e.ActorSystemUpCall? {
      var i :| 0 <= i < |all| && all[i].ActorSystemUpCall? && forall j | i < j < |all| :: !all[j].ActorSystemDownCall?;
      assert es[i] == all[i] && forall j | i < j < |es| :: es[j] == all[j];
    }
  }

  /** The calls for the own actor system raise and drop the own flag and leave all other nodes alone. */
  lemma OwnFlagCalls(s: State, a: Addr)
    ensures var t := Step(s, ActorSystemUpCall).state; a == s.self.addr ==> IsUp(t.actorSystems, a)
    ensures var t := Step(s, ActorSystemDownCall).state; a == s.self.addr ==> !IsUp(t.actorSystems, a)
    ensures a != s.self.addr ==> Untouched(s, Step(s, ActorSystemUpCall).state, a) && Untouched(s, Step(s, ActorSystemDownCall).state, a)
    ensures Step(s, ActorSystemUpCall).state.members == Step(s, ActorSystemDownCall).state.members == s.members
  {
  }

  // The announcements a node has started in a run, in order.
  function Announced(s: State, es: seq<Event>): seq<Gossip>
    decreases |es|
  {
    if es == [] then []
    else Announced(s, es[..|es| - 1]) + if SpeaksForSelf(es[|es| - 1]) then Step(Run(s, es[..|es| - 1]), es[|es| - 1]).queued else []
  }

  /** Over a run from the start a node numbers its own announcements 1, 2, 3 and so on; its counter is their number. */
  lemma {:induction false} AnnouncementsNumbered(self: Member, relayPing: bool, es: seq<Event>)
    ensures var gs := Announced(Initial(self, relayPing), es);
            && |gs| == Run(Initial(self, relayPing), es).incarnation
            && forall i | 0 <= i < |gs| :: gs[i].member == self && gs[i].inc == i + 1
    decreases |es|
  {
    if es != [] {
      var s := Run(Initial(self, relayPing), es[..|es| - 1]);
      AnnouncementsNumbered(self, relayPing, es[..|es| - 1]);
      RunKeepsSelf(Initial(self, relayPing), es[..|es| - 1]);
      OneStampPerAnnouncement(s, es[|es| - 1]);
    }
  }
}
