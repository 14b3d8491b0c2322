// Merging does not depend on order: what a node holds about another one is the largest news it has had.
module Merging {
  import opened Addresses
  import opened Membership
  import opened NodeRuns
  import Steps

  // --- up gossip and pings: the incarnation ------------------------------------------------------

  predicate IsUpOrPing(e: Event) {
    e.HearPing? || (e.Hear? && e.g.kind == Up)
  }

  // The event carries an incarnation of `a`.
  predicate Stamps(self: Addr, e: Event, a: Addr) {
    (e.HearPing? && a in e.ping.members) || (e.Hear? && e.g.kind == Up && e.g.member.addr == a && a != self)
  }

  // The incarnation it carries, and the uid.
  function Stamp(self: Addr, e: Event, a: Addr): Entry
    requires Stamps(self, e, a)
  {
    if e.HearPing? then e.ping.members[a] else Entry(e.g.member.uid, e.g.inc)
  }

  // `inc` is the largest of the incarnation held at the start and those carried by `es`.
  ghost predicate IsLargest(s: State, es: seq<Event>, a: Addr, inc: nat) {
    && (a in s.members ==> s.members[a].inc <= inc)
    && (forall i | 0 <= i < |es| && Stamps(s.self.addr, es[i], a) :: Stamp(s.self.addr, es[i], a).inc <= inc)
    && ((a in s.members && s.members[a].inc == inc) || Carried(s.self.addr, es, a, inc))
  }

  ghost predicate Carried(self: Addr, es: seq<Event>, a: Addr, inc: nat) {
    exists i :: 0 <= i < |es| && Stamps(self, es[i], a) && Stamp(self, es[i], a).inc == inc
  }

  ghost predicate Mentioned(self: Addr, es: seq<Event>, a: Addr) {
    exists i :: 0 <= i < |es| && Stamps(self, es[i], a)
  }

  // After `es`, `a` is a member if it was one or has been mentioned, and then with the largest incarnation.
  ghost predicate Newest(s: State, es: seq<Event>, a: Addr) {
    var t := Run(s, es);
    && (a in t.members <==> a in s.members || Mentioned(s.self.addr, es, a))
    && (a in t.members ==> IsLargest(s, es, a, t.members[a].inc))
  }

  lemma IsLargestSnoc(s: State, es: seq<Event>, e: Event, a: Addr, inc: nat)
    ensures !Stamps(s.self.addr, e, a) ==> (IsLargest(s, es + [e], a, inc) <==> IsLargest(s, es, a, inc))
    ensures Stamps(s.self.addr, e, a) && !(a in s.members) && !Mentioned(s.self.addr, es, a) ==>
              (IsLargest(s, es + [e], a, inc) <==> inc == Stamp(s.self.addr, e, a).inc)
    ensures forall before: nat :: IsLargest(s, es, a, before) && Stamps(s.self.addr, e, a) ==>
              (IsLargest(s, es + [e], a, inc) <==> inc == Larger(before, Stamp(s.self.addr, e, a).inc))
    ensures Mentioned(s.self.addr, es + [e], a) <==> Mentioned(s.self.addr, es, a) || Stamps(s.self.addr, e, a)
  {
    var self, all := s.self.addr, es + [e];
    assert all[|es|] == e && forall i | 0 <= i < |es| :: all[i] == es[i];
    forall n: nat
      ensures Carried(self, all, a, n) <==> Carried(self, es, a, n) || (Stamps(self, e, a) && Stamp(self, e, a).inc == n)
    {
      CarriedSnoc(self, es, e, a, n);
    }
    if Mentioned(self, es, a) {
      var i :| 0 <= i < |es| && Stamps(self, es[i], a);
      assert Stamps(self, all[i], a);
    }
    if Stamps(self, e, a) {
      assert Stamps(self, all[|es|], a);
    }
    forall before: nat | IsLargest(s, es, a, before) && Stamps(self, e, a)
      ensures IsLargest(s, all, a, inc) <==> inc == Larger(before, Stamp(self, e, a).inc)
    {
      LargestOfMore(s, es, e, a, inc, before);
    }
  }

  function Larger(m: nat, n: nat): nat {
    if m >= n then m else n
  }

  lemma CarriedSnoc(self: Addr, es: seq<Event>, e: Event, a: Addr, n: nat)
    ensures Carried(self, es + [e], a, n) <==> Carried(self, es, a, n) || (Stamps(self, e, a) && Stamp(self, e, a).inc == n)
  {
    var all := es + [e];
    assert all[|es|] == e;
    if Carried(self, es, a, n) {
      var i :| 0 <= i < |es| && Stamps(self, es[i], a) && Stamp(self, es[i], a).inc == n;
      assert all[i] == es[i];
    }
  }

  lemma LargestOfMore(s: State, es: seq<Event>, e: Event, a: Addr, inc: nat, before: nat)
    requires IsLargest(s, es, a, before) && Stamps(s.self.addr, e, a)
    ensures IsLargest(s, es + [e], a, inc) <==> inc == Larger(before, Stamp(s.self.addr, e, a).inc)
  {
    var self, all := s.self.addr, es + [e];
    assert all[|es|] == e && forall i | 0 <= i < |es| :: all[i] == es[i];
    CarriedSnoc(self, es, e, a, inc);
    CarriedSnoc(self, es, e, a, before);
    if IsLargest(s, all, a, inc) {
      assert Stamp(self, all[|es|], a).inc <= inc;
      if Carried(self, es, a, before) {
        var i :| 0 <= i < |es| && Stamps(self, es[i], a) && Stamp(self, es[i], a).inc == before;
        assert Stamps(self, all[i], a);
      }
      if Carried(self, es, a, inc) {
        var i :| 0 <= i < |es| && Stamps(self, es[i], a) && Stamp(self, es[i], a).inc == inc;
      }
    }
  }

  // What one up gossip or ping does to the entry of a node that is not suspected.
  lemma UpOrPingStep(s: State, e: Event, a: Addr)
    requires IsUpOrPing(e) && a !in s.suspects
    ensures var t := Step(s, e).state;
            && a !in t.suspects
            && (a in t.members <==> a in s.members || Stamps(s.self.addr, e, a))
            && (!Stamps(s.self.addr, e, a) && a in s.members ==> t.members[a] == s.members[a])
            && (Stamps(s.self.addr, e, a) ==>
                  t.members[a].inc == if a in s.members && !ReplacesNewer(s, e, a)
                                      then Larger(s.members[a].inc, Stamp(s.self.addr, e, a).inc) else Stamp(s.self.addr, e, a).inc)
  {
    if e.HearPing? {
      MergePingAt(s, e.ping, a);
    }
  }

  // --- the exact condition ---------------------------------------------------------------------------

  lemma NewestStep(s: State, es: seq<Event>, e: Event, a: Addr)
    requires IsUpOrPing(e) && a !in Run(s, es).suspects && Newest(s, es, a)
    ensures Newest(s, es + [e], a) <==> !ReplacesNewer(Run(s, es), e, a)
  {
    var t := Run(s, es);
    assert (es + [e])[..|es + [e]| - 1] == es;
    assert Run(s, es + [e]) == Step(t, e).state;
    RunKeepsSelf(s, es);
    UpOrPingStep(t, e, a);
    var u := Step(t, e).state;
    if a in u.members {
      IsLargestSnoc(s, es, e, a, u.members[a].inc);
    } else {
      IsLargestSnoc(s, es, e, a, 0);
    }
  }

  lemma {:induction false} StaysUnsuspected(s: State, es: seq<Event>, a: Addr)
    requires (forall e | e in es :: IsUpOrPing(e)) && a !in s.suspects
    ensures a !in Run(s, es).suspects
    decreases |es|
  {
    if es != [] {
      assert es[|es| - 1] in es;
      StaysUnsuspected(s, es[..|es| - 1], a);
      UpOrPingStep(Run(s, es[..|es| - 1]), es[|es| - 1], a);
    }
  }

  lemma NewestAt(s: State, es: seq<Event>, k: nat, a: Addr)
    requires (forall e | e in es :: IsUpOrPing(e)) && a !in s.suspects
    requires k < |es| && Newest(s, es[..k], a)
    ensures Newest(s, es[..k + 1], a) <==> !ReplacesNewer(Run(s, es[..k]), es[k], a)
  {
    assert es[k] in es && es[..k + 1] == es[..k] + [es[k]];
    assert forall e :: e in es[..k] ==> e in es;
    StaysUnsuspected(s, es[..k], a);
    NewestStep(s, es[..k], es[k], a);
  }

  /** Over any run of up gossip and pings, in any order and with any repetition, an address that is not
      suspected always holds the largest incarnation mentioned so far, exactly when no step is an up
      gossip that carries less than what is held, and another uid than it is stored under. */
  lemma LargestExact(s: State, es: seq<Event>, a: Addr)
    requires (forall e | e in es :: IsUpOrPing(e)) && a !in s.suspects
    ensures (forall k: nat | k <= |es| :: Newest(s, es[..k], a)) <==>
            (forall k: nat | k < |es| :: !ReplacesNewer(Run(s, es[..k]), es[k], a))
  {
    var holds := (k: nat) => k <= |es| && Newest(s, es[..k], a);
    var fine := (k: nat) => k < |es| && !ReplacesNewer(Run(s, es[..k]), es[k], a);
    forall k: nat | k < |es| && holds(k)
      ensures holds(k + 1) <==> fine(k)
    {
      NewestAt(s, es, k, a);
    }
    assert es[..0] == [];
    Steps.Stepwise(holds, fine, |es|);
    assert forall k: nat | k <= |es| :: holds(k) == Newest(s, es[..k], a);
    assert forall k: nat | k < |es| :: fine(k) == !ReplacesNewer(Run(s, es[..k]), es[k], a);
  }

  // --- one life, hence no order ------------------------------------------------------------------------

  // Every copy of `a`, held or carried, is of the life `uid`. Pings about a stored member may omit it.
  ghost predicate OneLife(s: State, es: seq<Event>, a: Addr, uid: string) {
    && (a in s.members ==> s.members[a].uid == uid)
    && (forall e | e in es && Stamps(s.self.addr, e, a) :: Stamp(s.self.addr, e, a).uid == uid || (e.HearPing? && a in s.members))
  }

  lemma OneLifeStep(s: State, e: Event, a: Addr, uid: string)
    requires IsUpOrPing(e) && a !in s.suspects && (a in s.members ==> s.members[a].uid == uid)
    requires Stamps(s.self.addr, e, a) ==> Stamp(s.self.addr, e, a).uid == uid || (e.HearPing? && a in s.members)
    ensures !ReplacesNewer(s, e, a)
    ensures var t := Step(s, e).state; (a in s.members ==> a in t.members) && (a in t.members ==> t.members[a].uid == uid)
  {
    if e.HearPing? {
      MergePingAt(s, e.ping, a);
    }
  }

  lemma {:induction false} OneLifeNewest(s: State, es: seq<Event>, a: Addr, uid: string)
    requires (forall e | e in es :: IsUpOrPing(e)) && a !in s.suspects && OneLife(s, es, a, uid)
    ensures Newest(s, es, a)
    ensures (a in s.members ==> a in Run(s, es).members) && (a in Run(s, es).members ==> Run(s, es).members[a].uid == uid)
    decreases |es|
  {
    if es != [] {
      var init, e := es[..|es| - 1], es[|es| - 1];
      assert e in es && es == init + [e];
      assert forall d :: d in init ==> d in es;
      OneLifeNewest(s, init, a, uid);
      StaysUnsuspected(s, init, a);
      RunKeepsSelf(s, init);
      OneLifeStep(Run(s, init), e, a, uid);
      NewestStep(s, init, e, a);
    }
  }

  // The two runs carry the same incarnations of `a`.
  ghost predicate SameNews(self: Addr, es: seq<Event>, fs: seq<Event>, a: Addr) {
    forall inc: nat :: Carried(self, es, a, inc) <==> Carried(self, fs, a, inc)
  }

  /** Order independence: within one life, two runs that carry the same incarnations, in any order and
      repeated any number of times, leave the same entry. */
  lemma OrderIndependent(s: State, es: seq<Event>, fs: seq<Event>, a: Addr, uid: string)
    requires (forall e | e in es :: IsUpOrPing(e)) && (forall f | f in fs :: IsUpOrPing(f)) && a !in s.suspects
    requires OneLife(s, es, a, uid) && OneLife(s, fs, a, uid) && SameNews(s.self.addr, es, fs, a)
    ensures a in Run(s, es).members <==> a in Run(s, fs).members
    ensures a in Run(s, es).members ==> Run(s, es).members[a] == Run(s, fs).members[a]
  {
    OneLifeNewest(s, es, a, uid);
    OneLifeNewest(s, fs, a, uid);
    MentionedIsCarried(s.self.addr, es, a);
    MentionedIsCarried(s.self.addr, fs, a);
    if a in Run(s, es).members {
      LargestIsUnique(s, es, fs, a, Run(s, es).members[a].inc, Run(s, fs).members[a].inc);
    }
  }

  lemma MentionedIsCarried(self: Addr, es: seq<Event>, a: Addr)
    ensures Mentioned(self, es, a) <==> exists inc: nat :: Carried(self, es, a, inc)
  {
    if Mentioned(self, es, a) {
      var i :| 0 <= i < |es| && Stamps(self, es[i], a);
      assert Carried(self, es, a, Stamp(self, es[i], a).inc);
    }
  }

  lemma LargestIsUnique(s: State, es: seq<Event>, fs: seq<Event>, a: Addr, m: nat, n: nat)
    requires SameNews(s.self.addr, es, fs, a) && IsLargest(s, es, a, m) && IsLargest(s, fs, a, n)
    ensures m == n
  {
    if Carried(s.self.addr, es, a, m) {
      assert Carried(s.self.addr, fs, a, m);
    }
    if Carried(s.self.addr, fs, a, n) {
      assert Carried(s.self.addr, es, a, n);
    }
  }

  /** Without one life the order matters: a ping that introduces a node does not carry its uid, so an
      older up gossip that follows replaces the entry instead of losing to it. */
  lemma PingThenUp(self: Member, relayPing: bool, m: Member)
    requires m.addr != self.addr && m.uid != ""
    ensures var s := Initial(self, relayPing);
            var ping, up := HearPing(Ping(map[m.addr := Entry("", 2)], map[m.addr := false])), Hear(Gossip(Up, m, 1));
            && m.addr in Run(s, [ping, up]).members && Run(s, [ping, up]).members[m.addr] == Entry(m.uid, 1)
            && m.addr in Run(s, [up, ping]).members && Run(s, [up, ping]).members[m.addr] == Entry(m.uid, 2)
            && !Newest(s, [ping, up], m.addr)
  {
    var s, a := Initial(self, relayPing), m.addr;
    var ping, up := HearPing(Ping(map[a := Entry("", 2)], map[a := false])), Hear(Gossip(Up, m, 1));
    TwoSteps(s, ping, up);
    TwoSteps(s, up, ping);
    assert a !in s.members && a !in s.suspects;
    MergePingAt(s, ping.ping, a);
    UpAfter(Step(s, ping).state, m, "", 2);
    var u := Step(s, up).state;
    assert u.members[a] == Entry(m.uid, 1);
    MergePingAt(u, ping.ping, a);
    assert Stamps(self.addr, [ping, up][0], a) && Stamp(self.addr, [ping, up][0], a).inc == 2;
  }

  // An up gossip with another uid replaces the entry.
  lemma UpAfter(s: State, m: Member, uid: string, inc: nat)
    requires m.addr != s.self.addr && m.addr in s.members && s.members[m.addr] == Entry(uid, inc) && uid != m.uid
    requires m.addr !in s.suspects
    ensures var t := Step(s, Hear(Gossip(Up, m, 1))).state; m.addr in t.members && t.members[m.addr] == Entry(m.uid, 1)
  {
  }

  lemma TwoSteps(s: State, d: Event, e: Event)
    ensures Run(s, [d, e]) == Step(Step(s, d).state, e).state
  {
    assert [d, e][..1] == [d] && [d][..0] == [];
    assert Run(s, [d]) == Step(s, d).state;
  }

  // --- pings and actor-system gossip: incarnation and flag ---------------------------------------------

  // A ping lists a flag for each member.
  predicate IsPingOrActorSystem(e: Event) {
    match e
    case HearPing(p) => p.flags.Keys == p.members.Keys
    case Hear(g) => g.kind == ActorSystemUp || g.kind == ActorSystemDown
    case _ => false
  }

  // The event carries the pair (`inc`, `up`) for `a`.
  predicate Tells(e: Event, a: Addr, inc: nat, up: bool) {
    || (e.HearPing? && a in e.ping.members && a in e.ping.flags && e.ping.members[a].inc == inc && e.ping.flags[a] == up)
    || (e.Hear? && e.g.member.addr == a && e.g.inc == inc && e.g.kind == if up then ActorSystemUp else ActorSystemDown)
  }

  // A ping that lists `a` makes it a member.
  predicate Introduces(e: Event, a: Addr) {
    e.HearPing? && a in e.ping.members
  }

  ghost predicate Introduced(es: seq<Event>, a: Addr) {
    exists i :: 0 <= i < |es| && Introduces(es[i], a)
  }

  // The pair was told once `a` was a member: from the start, or from the first ping that lists it.
  ghost predicate Told(s: State, es: seq<Event>, a: Addr, inc: nat, up: bool) {
    exists i :: 0 <= i < |es| && ToldAt(s, es, i, a, inc, up)
  }

  ghost predicate ToldAt(s: State, es: seq<Event>, i: nat, a: Addr, inc: nat, up: bool) {
    i < |es| && Tells(es[i], a, inc, up) && (a in s.members || Introduced(es[..i + 1], a))
  }

  // The pair held, at the start or told since.
  ghost predicate Source(s: State, es: seq<Event>, a: Addr, inc: nat, up: bool) {
    (a in s.members && s.members[a].inc == inc && IsUp(s.actorSystems, a) == up) || Told(s, es, a, inc, up)
  }

  // The state holds a pair with the largest stamp.
  ghost predicate HoldsLatest(s: State, es: seq<Event>, a: Addr) {
    var t := Run(s, es);
    && a in t.members
    && Source(s, es, a, t.members[a].inc, IsUp(t.actorSystems, a))
    && forall inc: nat, up | Source(s, es, a, inc, up) :: inc <= t.members[a].inc
  }

  // One step: what the event tells is taken over if it is newer, or if the node is met through it.
  lemma RegisterStep(s: State, e: Event, a: Addr)
    requires IsPingOrActorSystem(e)
    ensures var t := Step(s, e).state;
            && (a in t.members <==> a in s.members || Introduces(e, a))
            && (a in t.members ==>
                  && (a in s.members ==> t.members[a].inc >= s.members[a].inc)
                  && ((a in s.members && t.members[a].inc == s.members[a].inc && IsUp(t.actorSystems, a) == IsUp(s.actorSystems, a))
                      || Tells(e, a, t.members[a].inc, IsUp(t.actorSystems, a)))
                  && (forall inc: nat, up | Tells(e, a, inc, up) :: inc <= t.members[a].inc))
  {
    if e.HearPing? {
      MergePingAt(s, e.ping, a);
    }
  }

  lemma IntroducedSnoc(es: seq<Event>, e: Event, a: Addr)
    ensures Introduced(es + [e], a) <==> Introduced(es, a) || Introduces(e, a)
  {
    var all := es + [e];
    assert all[|es|] == e;
    if Introduced(es, a) {
      var i :| 0 <= i < |es| && Introduces(es[i], a);
      assert all[i] == es[i];
    }
  }

  lemma ToldSnoc(s: State, es: seq<Event>, e: Event, a: Addr, inc: nat, up: bool)
    ensures Told(s, es + [e], a, inc, up) <==>
            Told(s, es, a, inc, up) || (Tells(e, a, inc, up) && (a in s.members || Introduced(es + [e], a)))
  {
    var all := es + [e];
    assert all[|es|] == e && all[..|es| + 1] == all;
    forall i: nat | i < |es|
      ensures ToldAt(s, all, i, a, inc, up) <==> ToldAt(s, es, i, a, inc, up)
    {
      assert all[i] == es[i] && all[..i + 1] == es[..i + 1];
    }
    if Told(s, all, a, inc, up) {
      var i :| 0 <= i < |all| && ToldAt(s, all, i, a, inc, up);
      assert i == |es| || ToldAt(s, es, i, a, inc, up);
    }
    if Told(s, es, a, inc, up) {
      var i :| 0 <= i < |es| && ToldAt(s, es, i, a, inc, up);
      assert ToldAt(s, all, i, a, inc, up);
    }
    if Tells(e, a, inc, up) && (a in s.members || Introduced(all, a)) {
      assert ToldAt(s, all, |es|, a, inc, up);
    }
  }

  /** After any pings and actor-system gossip in any order: a node is a member if it was one or a ping has listed
      it, and then incarnation and flag are together those of one piece of news with the largest stamp,
      among what was held and what was told since the node is a member. */
  lemma {:induction false} LatestWins(s: State, es: seq<Event>, a: Addr)
    requires forall e | e in es :: IsPingOrActorSystem(e)
    ensures a in Run(s, es).members <==> a in s.members || Introduced(es, a)
    ensures a in Run(s, es).members ==> HoldsLatest(s, es, a)
    decreases |es|
  {
    if es != [] {
      var init, e := es[..|es| - 1], es[|es| - 1];
      assert e in es && es == init + [e];
      LatestWins(s, init, a);
      IntroducedSnoc(init, e, a);
      RegisterStep(Run(s, init), e, a);
      if a in Run(s, es).members {
        LatestSnoc(s, init, e, a, Run(s, es));
      }
    }
  }

  lemma LatestSnoc(s: State, init: seq<Event>, e: Event, a: Addr, t: State)
    requires IsPingOrActorSystem(e) && t == Step(Run(s, init), e).state && t == Run(s, init + [e]) && a in t.members
    requires a in Run(s, init).members <==> a in s.members || Introduced(init, a)
    requires a in Run(s, init).members ==> HoldsLatest(s, init, a)
    ensures HoldsLatest(s, init + [e], a)
  {
    RegisterStep(Run(s, init), e, a);
    IntroducedSnoc(init, e, a);
    ToldSnoc(s, init, e, a, t.members[a].inc, IsUp(t.actorSystems, a));
    forall inc: nat, up | Source(s, init + [e], a, inc, up)
      ensures inc <= t.members[a].inc
    {
      ToldSnoc(s, init, e, a, inc, up);
      if !Tells(e, a, inc, up) {
        assert Source(s, init, a, inc, up);
        ToldMeansMember(s, init, a, inc, up);
      }
    }
  }

  lemma ToldMeansMember(s: State, es: seq<Event>, a: Addr, inc: nat, up: bool)
    requires Source(s, es, a, inc, up)
    ensures a in s.members || Introduced(es, a)
  {
    if a !in s.members {
      var i :| 0 <= i < |es| && ToldAt(s, es, i, a, inc, up);
      var j :| 0 <= j < |es[..i + 1]| && Introduces(es[..i + 1][j], a);
      assert Introduces(es[j], a);
    }
  }

  // A ping that lists a node tells its pair.
  lemma IntroductionTells(s: State, es: seq<Event>, a: Addr)
    requires forall e | e in es :: IsPingOrActorSystem(e)
    requires Introduced(es, a)
    ensures exists inc: nat, up :: Told(s, es, a, inc, up)
  {
    var i: nat :| i < |es| && Introduces(es[i], a);
    assert es[i] in es;
    var p := es[i].ping;
    assert es[..i + 1][i] == es[i];
    assert ToldAt(s, es, i, a, p.members[a].inc, p.flags[a]);
    assert Told(s, es, a, p.members[a].inc, p.flags[a]);
  }

  // One flag for each stamp of `a`, among what is held and what is told.
  ghost predicate OneFlagPerStamp(s: State, es: seq<Event>, a: Addr) {
    forall inc: nat :: !(Source(s, es, a, inc, true) && Source(s, es, a, inc, false))
  }

  // The runs leave `a` with the same incarnation and flag, if they leave it a member at all.
  predicate SamePair(t: State, u: State, a: Addr) {
    && (a in t.members <==> a in u.members)
    && (a in t.members ==> t.members[a].inc == u.members[a].inc && IsUp(t.actorSystems, a) == IsUp(u.actorSystems, a))
  }

  /** Order independence of the pair, for members and for nodes first met on the way: two runs that tell the same
      pairs, in any order and with any repetition, leave the same incarnation and the same flag. */
  lemma PairOrderIndependent(s: State, es: seq<Event>, fs: seq<Event>, a: Addr)
    requires (forall e | e in es :: IsPingOrActorSystem(e)) && (forall f | f in fs :: IsPingOrActorSystem(f))
    requires OneFlagPerStamp(s, es, a)
    requires forall inc: nat, up :: Told(s, es, a, inc, up) <==> Told(s, fs, a, inc, up)
    ensures SamePair(Run(s, es), Run(s, fs), a)
  {
    LatestWins(s, es, a);
    LatestWins(s, fs, a);
    var t, u := Run(s, es), Run(s, fs);
    MetAlike(s, es, fs, a);
    MetAlike(s, fs, es, a);
    if a in t.members {
      assert Source(s, es, a, u.members[a].inc, IsUp(u.actorSystems, a));
      assert Source(s, fs, a, t.members[a].inc, IsUp(t.actorSystems, a));
      assert t.members[a].inc == u.members[a].inc;
      assert !(Source(s, es, a, t.members[a].inc, true) && Source(s, es, a, t.members[a].inc, false));
    }
  }

  lemma MetAlike(s: State, es: seq<Event>, fs: seq<Event>, a: Addr)
    requires forall e | e in es :: IsPingOrActorSystem(e)
    requires forall inc: nat, up :: Told(s, es, a, inc, up) <==> Told(s, fs, a, inc, up)
    ensures Introduced(es, a) ==> a in s.members || Introduced(fs, a)
  {
    if Introduced(es, a) {
      IntroductionTells(s, es, a);
      var inc: nat, up :| Told(s, es, a, inc, up);
      ToldMeansMember(s, fs, a, inc, up);
    }
  }

  // --- first met through a ping --------------------------------------------------------------------

  // Said at any time, before or after the node is met.
  ghost predicate Said(es: seq<Event>, a: Addr, inc: nat, up: bool) {
    exists i :: 0 <= i < |es| && Tells(es[i], a, inc, up)
  }

  // No actor-system gossip about `a` comes before the first ping that lists it.
  ghost predicate PingFirst(es: seq<Event>, a: Addr) {
    forall i | 0 <= i < |es| && es[i].Hear? && es[i].g.member.addr == a :: Introduced(es[..i], a)
  }

  // For members, and for nodes whose first mention is a ping, everything said counts.
  lemma EverythingCounts(s: State, es: seq<Event>, a: Addr, inc: nat, up: bool)
    requires a in s.members || PingFirst(es, a)
    ensures Told(s, es, a, inc, up) <==> Said(es, a, inc, up)
  {
    if Said(es, a, inc, up) {
      var i: nat :| i < |es| && Tells(es[i], a, inc, up);
      if a !in s.members {
        assert es[..i + 1] == es[..i] + [es[i]];
        IntroducedSnoc(es[..i], es[i], a);
      }
      assert ToldAt(s, es, i, a, inc, up);
    }
  }

  /** So for known members, and for nodes whose first mention is a ping, two runs in which the same is said leave the
      same pair. */
  lemma FirstPingOrderIndependent(s: State, es: seq<Event>, fs: seq<Event>, a: Addr)
    requires (forall e | e in es :: IsPingOrActorSystem(e)) && (forall f | f in fs :: IsPingOrActorSystem(f))
    requires a in s.members || (PingFirst(es, a) && PingFirst(fs, a))
    requires OneFlagPerStamp(s, es, a)
    requires forall inc: nat, up :: Said(es, a, inc, up) <==> Said(fs, a, inc, up)
    ensures SamePair(Run(s, es), Run(s, fs), a)
  {
    forall inc: nat, up
      ensures Told(s, es, a, inc, up) <==> Told(s, fs, a, inc, up)
    {
      EverythingCounts(s, es, a, inc, up);
      EverythingCounts(s, fs, a, inc, up);
    }
    PairOrderIndependent(s, es, fs, a);
  }
}
