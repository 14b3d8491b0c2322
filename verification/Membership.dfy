// One node of the gossip membership protocol: its tables, its handlers, and the gossip they queue.
module Membership {
  import opened Addresses

  // A member as it travels in messages. Two members are the same if their addresses are.
  datatype Member = Member(addr: Addr, uid: string)

  // What a table keeps under an address: the uid of the key object first stored there, and the
  // incarnation.
  datatype Entry = Entry(uid: string, inc: nat)

  type Table = map<Addr, Entry>

  datatype Kind = Up | Down | Suspected | Recovered | ActorSystemDown | ActorSystemUp

  datatype Gossip = Gossip(kind: Kind, member: Member, inc: nat)

  datatype Status = Status(member: Member, actorSystemUp: bool)

  // What a ping carries: the sender's members and actor-system flags.
  datatype Ping = Ping(members: Table, flags: Flags)

  datatype State = State(
    self: Member,
    members: Table,
    suspects: Table,
    actorSystems: Flags,
    incarnation: nat,
    selfUp: bool,
    relayPing: bool)

  // A handler's effect: the new tables and the gossip it puts on the queue.
  datatype Outcome = Outcome(state: State, queued: seq<Gossip>)

  function Initial(self: Member, relayPing: bool): State {
    State(self, map[self.addr := Entry(self.uid, 0)], map[], map[], 0, false, relayPing)
  }

  // Assignment through `operator[]`: an existing key object stays.
  function Put(t: Table, m: Member, inc: nat): Table {
    t[m.addr := Entry(if m.addr in t then t[m.addr].uid else m.uid, inc)]
  }

  // The local incarnation, 0 for an unknown member.
  function Inc(t: Table, a: Addr): nat {
    if a in t then t[a].inc else 0
  }

  // --- the handlers as functions -----------------------------------------------------------

  // Stored under another uid: a previous life of the same address.
  predicate Expired(t: Table, m: Member) {
    m.addr in t && t[m.addr].uid != m.uid
  }

  function EraseExpired(s: State, m: Member): State {
    s.(members := if Expired(s.members, m) then s.members - {m.addr} else s.members,
       suspects := if Expired(s.suspects, m) then s.suspects - {m.addr} else s.suspects,
       actorSystems := if Expired(s.members, m) || Expired(s.suspects, m) then s.actorSystems[m.addr := false] else s.actorSystems)
  }

  // A table already holds an incarnation at least as large.
  predicate Outdated(t: Table, a: Addr, inc: nat) {
    a in t && t[a].inc >= inc
  }

  function ReceiveUp(s: State, g: Gossip): Outcome {
    if g.member.addr == s.self.addr then Outcome(s, [])
    else
      var e := EraseExpired(s, g.member);
      if Outdated(e.suspects, g.member.addr, g.inc) || Outdated(e.members, g.member.addr, g.inc) then Outcome(e, [])
      else Outcome(e.(members := Put(e.members, g.member, g.inc)), [g])
  }

  function ReceiveDown(s: State, g: Gossip): Outcome {
    var a := g.member.addr;
    if a !in s.members && a !in s.suspects then Outcome(s, [])
    else if a == s.self.addr then Outcome(s, [g])
    else Outcome(s.(members := s.members - {a}, suspects := s.suspects - {a}, actorSystems := s.actorSystems[a := false]), [g])
  }

  // From the members to the suspects.
  function Suspect(s: State, m: Member, inc: nat): Outcome {
    if m.addr !in s.members then Outcome(s, [])
    else Outcome(s.(members := s.members - {m.addr}, suspects := Put(s.suspects, m, inc),
                    actorSystems := s.actorSystems[m.addr := false]),
                 [Gossip(Suspected, m, inc)])
  }

  function SuspectLocally(s: State, m: Member): Outcome {
    Suspect(s, m, Inc(s.members, m.addr))
  }

  function ReceiveSuspect(s: State, g: Gossip): Outcome {
    var a := g.member.addr;
    if a in s.suspects then
      Outcome(if s.suspects[a].inc < g.inc then s.(suspects := Put(s.suspects, g.member, g.inc)) else s, [])
    else if a in s.members && g.inc >= s.members[a].inc then Suspect(s, g.member, g.inc)
    else Outcome(s, [])
  }

  // From the suspects back to the members, under the suspected incarnation.
  function Recover(s: State, m: Member): Outcome {
    var inc := Inc(s.suspects, m.addr);
    Outcome(s.(members := Put(s.members, m, inc), suspects := s.suspects - {m.addr}), [Gossip(Recovered, m, inc)])
  }

  function ReceiveRecovery(s: State, g: Gossip): Outcome {
    if g.member.addr !in s.suspects || g.inc < s.suspects[g.member.addr].inc then Outcome(s, [])
    else Recover(s, g.member)
  }

  function ReceiveActorSystem(s: State, g: Gossip, up: bool): Outcome {
    var a := g.member.addr;
    if a !in s.members || s.members[a].inc >= g.inc then Outcome(s, [])
    else Outcome(s.(members := Put(s.members, g.member, g.inc), actorSystems := s.actorSystems[a := up]), [g])
  }

  function Receive(s: State, g: Gossip): Outcome {
    match g.kind
    case Up => ReceiveUp(s, g)
    case Down => ReceiveDown(s, g)
    case Suspected => ReceiveSuspect(s, g)
    case Recovered => ReceiveRecovery(s, g)
    case ActorSystemDown => ReceiveActorSystem(s, g, false)
    case ActorSystemUp => ReceiveActorSystem(s, g, true)
  }

  // The ping brings something new about `a`.
  predicate Newer(t: Table, p: Ping, a: Addr) {
    a in p.members && (a in t ==> p.members[a].inc > t[a].inc)
  }

  function MergePing(s: State, p: Ping): State {
    s.(members := map a | a in s.members.Keys + p.members.Keys ::
                    if Newer(s.members, p, a) then Entry(if a in s.members then s.members[a].uid else p.members[a].uid, p.members[a].inc)
                    else s.members[a],
       actorSystems := map a | a in s.actorSystems.Keys + (set b | b in p.members && Newer(s.members, p, b) && b in p.flags) ::
                         if Newer(s.members, p, a) && a in p.flags then p.flags[a] else s.actorSystems[a])
  }

  // One entry of a ping.
  function MergeEntry(s: State, m: Member, inc: nat, flags: Flags): State {
    if Outdated(s.members, m.addr, inc) then s
    else s.(members := Put(s.members, m, inc),
            actorSystems := if m.addr in flags then s.actorSystems[m.addr := flags[m.addr]] else s.actorSystems)
  }

  function UpdateStatus(s: State, st: Status): State {
    var a := st.member.addr;
    s.(members := if a in s.members then s.members else s.members[a := Entry(st.member.uid, 0)],
       actorSystems := s.actorSystems[a := st.actorSystemUp])
  }

  function UpdateStatuses(s: State, sts: seq<Status>): State
    decreases |sts|
  {
    if sts == [] then s else UpdateStatus(UpdateStatuses(s, sts[..|sts| - 1]), sts[|sts| - 1])
  }

  // A full state was pulled from a seed: merge it and announce oneself.
  function TakeFullState(s: State, sts: seq<Status>): Outcome {
    var r := UpdateStatuses(s, sts);
    var up := Gossip(Up, s.self, s.incarnation + 1);
    if s.selfUp then Outcome(r.(incarnation := s.incarnation + 2), [up, Gossip(ActorSystemUp, s.self, s.incarnation + 2)])
    else Outcome(r.(incarnation := s.incarnation + 1), [up])
  }

  function PingAnswered(s: State, target: Member): Outcome {
    if target.addr in s.suspects then Recover(s, target) else Outcome(s, [])
  }

  // Without relays the target is suspected at once; with relays, when the last one has failed.
  function PingFailed(s: State, target: Member): Outcome {
    if s.relayPing then Outcome(s, []) else SuspectLocally(s, target)
  }

  function BringActorSystemUp(s: State): Outcome {
    Outcome(s.(selfUp := true, actorSystems := s.actorSystems[s.self.addr := true], incarnation := s.incarnation + 1),
            [Gossip(ActorSystemUp, s.self, s.incarnation + 1)])
  }

  function BringActorSystemDown(s: State): Outcome {
    Outcome(s.(selfUp := false, actorSystems := s.actorSystems - {s.self.addr}, incarnation := s.incarnation + 1),
            [Gossip(ActorSystemDown, s.self, s.incarnation + 1)])
  }

  function Leave(s: State): Outcome {
    if |s.members| > 1 then Outcome(s.(incarnation := s.incarnation + 1), [Gossip(Down, s.self, s.incarnation + 1)])
    else Outcome(s, [])
  }

  // Everything that can happen to a node; targets and orders are free choices of the environment.
  datatype Event =
    | Hear(g: Gossip)
    | HearPing(ping: Ping)
    | HearFullState(statuses: seq<Status>)
    | PingOk(target: Member)
    | PingFail(target: Member)
    | RelaysFailed(target: Member)
    | PushFail(target: Member)
    | ActorSystemUpCall
    | ActorSystemDownCall
    | LeaveCall

  function Step(s: State, e: Event): Outcome {
    match e
    case Hear(g) => Receive(s, g)
    case HearPing(p) => Outcome(MergePing(s, p), [])
    case HearFullState(sts) => TakeFullState(s, sts)
    case PingOk(m) => PingAnswered(s, m)
    case PingFail(m) => PingFailed(s, m)
    case RelaysFailed(m) => SuspectLocally(s, m)
    case PushFail(m) => SuspectLocally(s, m)
    case ActorSystemUpCall => BringActorSystemUp(s)
    case ActorSystemDownCall => BringActorSystemDown(s)
    case LeaveCall => Leave(s)
  }

  // What a node sends without changing: the body of its pings and its full state. Neither carries uids.
  function PingBody(s: State): Ping {
    Ping(map a | a in s.members :: Entry("", s.members[a].inc), map a | a in s.members :: IsUp(s.actorSystems, a))
  }

  // One entry of a full state.
  predicate StatusOf(s: State, st: Status) {
    st.member.addr in s.members && st.member.uid == "" && st.actorSystemUp == IsUp(s.actorSystems, st.member.addr)
  }

  // Each member is listed once, in key order.
  ghost predicate IsFullState(s: State, sts: seq<Status>) {
    && (forall st | st in sts :: StatusOf(s, st))
    && (forall a | a in s.members :: Listed(sts, a))
    && (forall i, j | 0 <= i < j < |sts| :: Less(sts[i].member.addr, sts[j].member.addr))
  }

  predicate Listed(sts: seq<Status>, a: Addr) {
    exists i :: 0 <= i < |sts| && sts[i].member.addr == a
  }

  // --- the node object -----------------------------------------------------------------------

  class Node {
    const self: Member
    const relayPing: bool
    var members: Table
    var suspects: Table
    var actorSystems: Flags
    var incarnation: nat
    var selfUp: bool
    var queue: seq<Gossip>

    ghost function Value(): State
      reads this
    {
      State(self, members, suspects, actorSystems, incarnation, selfUp, relayPing)
    }

    // The state is that of the outcome, and its gossip has been queued.
    twostate predicate Became(o: Outcome)
      reads this
    {
      Value() == o.state && queue == old(queue) + o.queued
    }

    constructor (self: Member, relayPing: bool)
      ensures Value() == Initial(self, relayPing) && queue == []
    {
      this.self := self;
      this.relayPing := relayPing;
      members := map[self.addr := Entry(self.uid, 0)];
      suspects := map[];
      actorSystems := map[];
      incarnation := 0;
      selfUp := false;
      queue := [];
    }

    method IncreaseIncarnation() returns (inc: nat)
      modifies this`incarnation
      ensures inc == incarnation == old(incarnation) + 1
    {
      incarnation := incarnation + 1;
      inc := incarnation;
    }

    method EraseExpiredMember(m: Member)
      modifies this`members, this`suspects, this`actorSystems
      ensures Value() == EraseExpired(old(Value()), m)
    {
      var clearOld := false;
      if m.addr in members && members[m.addr].uid != m.uid {
        members := members - {m.addr};
        clearOld := true;
      }
      if m.addr in suspects && suspects[m.addr].uid != m.uid {
        suspects := suspects - {m.addr};
        clearOld := true;
      }
      if clearOld {
        actorSystems := actorSystems[m.addr := false];
      }
    }

    method MergeUpUpdate(m: Member, inc: nat)
      modifies this`members
      ensures members == if Outdated(old(members), m.addr, inc) then old(members) else Put(old(members), m, inc)
    {
      if m.addr in members && members[m.addr].inc >= inc {
        return;
      }
      members := Put(members, m, inc);
    }

    method MergeDownUpdate(m: Member)
      modifies this`members, this`suspects, this`actorSystems
      ensures Value() == if m.addr == self.addr then old(Value())
                         else old(Value()).(members := old(members) - {m.addr}, suspects := old(suspects) - {m.addr},
                                            actorSystems := old(actorSystems)[m.addr := false])
    {
      if m.addr == self.addr {
        return;
      }
      if m.addr in members {
        members := members - {m.addr};
      } else {
        assert members - {m.addr} == members;
      }
      if m.addr in suspects {
        suspects := suspects - {m.addr};
      } else {
        assert suspects - {m.addr} == suspects;
      }
      actorSystems := actorSystems[m.addr := false];
    }

    method MergeActorSystem(m: Member, inc: nat, up: bool)
      modifies this`members, this`actorSystems
      ensures Value() == if Outdated(old(members), m.addr, inc) then old(Value())
                         else old(Value()).(members := Put(old(members), m, inc), actorSystems := old(actorSystems)[m.addr := up])
    {
      if m.addr in members && members[m.addr].inc >= inc {
        return;
      }
      members := Put(members, m, inc);
      actorSystems := actorSystems[m.addr := up];
    }

    method SuspectMember(m: Member, inc: nat)
      modifies this`members, this`suspects, this`actorSystems, this`queue
      ensures Became(Suspect(old(Value()), m, inc))
    {
      if m.addr in members {
        suspects := Put(suspects, m, inc);
        members := members - {m.addr};
        actorSystems := actorSystems[m.addr := false];
        queue := queue + [Gossip(Suspected, m, inc)];
      } else {
        assert queue + [] == queue;
      }
    }

    method RecoverySuspect(m: Member)
      modifies this`members, this`suspects, this`queue
      ensures Became(Recover(old(Value()), m))
    {
      if m.addr !in suspects {
        suspects := Put(suspects, m, 0);
      }
      members := Put(members, m, suspects[m.addr].inc);
      var inc := members[m.addr].inc;
      suspects := suspects - {m.addr};
      queue := queue + [Gossip(Recovered, m, inc)];
    }

    method HandleUp(g: Gossip)
      modifies this`members, this`suspects, this`actorSystems, this`queue
      ensures Became(ReceiveUp(old(Value()), g))
    {
      assert queue + [] == queue;
      if g.member.addr == self.addr {
        return;
      }
      EraseExpiredMember(g.member);
      if g.member.addr in suspects && suspects[g.member.addr].inc >= g.inc {
        return;
      }
      if g.member.addr in members && members[g.member.addr].inc >= g.inc {
        return;
      }
      queue := queue + [g];
      MergeUpUpdate(g.member, g.inc);
    }

    method HandleDown(g: Gossip)
      modifies this`members, this`suspects, this`actorSystems, this`queue
      ensures Became(ReceiveDown(old(Value()), g))
    {
      assert queue + [] == queue;
      if g.member.addr !in members && g.member.addr !in suspects {
        return;
      }
      queue := queue + [g];
      MergeDownUpdate(g.member);
    }

    method HandleSuspect(g: Gossip)
      modifies this`members, this`suspects, this`actorSystems, this`queue
      ensures Became(ReceiveSuspect(old(Value()), g))
    {
      assert queue + [] == queue;
      var a := g.member.addr;
      if a in suspects {
        if suspects[a].inc < g.inc {
          suspects := Put(suspects, g.member, g.inc);
        }
        return;
      }
      if a in members && g.inc >= members[a].inc {
        SuspectMember(g.member, g.inc);
      }
    }

    method HandleActorSystem(g: Gossip, up: bool)
      modifies this`members, this`actorSystems, this`queue
      ensures Became(ReceiveActorSystem(old(Value()), g, up))
    {
      assert queue + [] == queue;
      var a := g.member.addr;
      if a !in members {
        return;
      }
      if members[a].inc >= g.inc {
        return;
      }
      queue := queue + [g];
      MergeActorSystem(g.member, g.inc, up);
    }

    method HandleGossip(g: Gossip)
      modifies this`members, this`suspects, this`actorSystems, this`queue
      ensures Became(Receive(old(Value()), g))
    {
      assert queue + [] == queue;
      match g.kind {
        case Up => HandleUp(g);
        case Down => HandleDown(g);
        case Suspected => HandleSuspect(g);
        case Recovered =>
          if g.member.addr !in suspects {
            return;
          }
          if g.inc < suspects[g.member.addr].inc {
            return;
          }
          RecoverySuspect(g.member);
        case ActorSystemDown => HandleActorSystem(g, false);
        case ActorSystemUp => HandleActorSystem(g, true);
      }
    }

    // One entry of a ping.
    method MergeMember(m: Member, inc: nat, flags: Flags)
      modifies this`members, this`actorSystems
      ensures Value() == MergeEntry(old(Value()), m, inc, flags)
    {
      if m.addr in members {
        if inc > members[m.addr].inc {
          members := Put(members, m, inc);
          if m.addr in flags {
            actorSystems := actorSystems[m.addr := flags[m.addr]];
          }
        }
      } else {
        members := Put(members, m, inc);
        if m.addr in flags {
          actorSystems := actorSystems[m.addr := flags[m.addr]];
        }
      }
    }

    /** The merge loop of a ping, over its entries in any order. */
    method MergeMembers(p: Ping)
      modifies this`members, this`actorSystems
      ensures Value() == MergePing(old(Value()), p)
    {
      ghost var before := Value();
      var rest := p.members.Keys;
      while rest != {}
        invariant rest <= p.members.Keys && MergedExcept(before, p, rest, Value())
        decreases |rest|
      {
        var a :| a in rest;
        ghost var s := Value();
        MergeMember(Member(a, p.members[a].uid), p.members[a].inc, p.flags);
        MergeOne(before, p, rest, a, s, Value());
        rest := rest - {a};
      }
      MergedAll(before, p, Value());
    }

    method UpdateActorSystemStatus(sts: seq<Status>)
      modifies this`members, this`actorSystems
      ensures Value() == UpdateStatuses(old(Value()), sts)
    {
      var i := 0;
      while i < |sts|
        invariant 0 <= i <= |sts| && Value() == UpdateStatuses(old(Value()), sts[..i])
      {
        assert sts[..i + 1][..i] == sts[..i];
        var st := sts[i];
        if st.member.addr !in members {
          members := members[st.member.addr := Entry(st.member.uid, 0)];
        }
        actorSystems := actorSystems[st.member.addr := st.actorSystemUp];
        i := i + 1;
      }
      assert sts[..i] == sts;
    }

    method SendSelfActorSystemUpGossip()
      modifies this`incarnation, this`queue
      ensures incarnation == old(incarnation) + 1
      ensures queue == old(queue) + [Gossip(ActorSystemUp, self, incarnation)]
    {
      var inc := IncreaseIncarnation();
      queue := queue + [Gossip(ActorSystemUp, self, inc)];
    }

    // The states a ping carries, filled in one member at a time.
    method MakePing() returns (p: Ping)
      ensures p == PingBody(Value())
    {
      var states: Table, flags: Flags := map[], map[];
      var rest := members.Keys;
      while rest != {}
        invariant rest <= members.Keys && states.Keys == flags.Keys == members.Keys - rest
        invariant forall a | a in states :: states[a] == Entry("", members[a].inc) && flags[a] == IsUp(actorSystems, a)
        decreases |rest|
      {
        var a :| a in rest;
        states := states[a := Entry("", members[a].inc)];
        if a in actorSystems {
          flags := flags[a := actorSystems[a]];
        } else {
          flags := flags[a := false];
        }
        rest := rest - {a};
      }
      p := Ping(states, flags);
      assert states == PingBody(Value()).members && flags == PingBody(Value()).flags;
    }

    method GetMembersWithStatus() returns (sts: seq<Status>)
      ensures IsFullState(Value(), sts)
    {
      sts := [];
      var rest := members.Keys;
      while rest != {}
        invariant rest <= members.Keys
        invariant forall st | st in sts :: StatusOf(Value(), st)
        invariant forall a | a in members && a !in rest :: Listed(sts, a)
        invariant forall i, b | 0 <= i < |sts| && b in rest :: Less(sts[i].member.addr, b)
        invariant forall i, j | 0 <= i < j < |sts| :: Less(sts[i].member.addr, sts[j].member.addr)
        decreases |rest|
      {
        LeastExists(rest);
        var a :| a in rest && IsLeast(a, rest);
        ghost var before := sts;
        sts := sts + [Status(Member(a, ""), a in actorSystems && actorSystems[a])];
        ListedSnoc(before, sts[|before|]);
        rest := rest - {a};
      }
    }

    method HandleDidPull(sts: seq<Status>)
      modifies this`members, this`actorSystems, this`incarnation, this`queue
      ensures Became(TakeFullState(old(Value()), sts))
    {
      ghost var before := Value();
      UpdateActorSystemStatus(sts);
      StatusesKeepSelf(before, sts);
      var inc := IncreaseIncarnation();
      queue := queue + [Gossip(Up, self, inc)];
      if selfUp {
        SendSelfActorSystemUpGossip();
      }
    }

    /** The callback of a ping, once its pull has ended. With relays a failure changes nothing yet: the relay ping
        starts, and neither oneself nor the target may be asked. */
    method PingCallback(target: Member, ok: bool) returns (relays: bool, exclude: set<Addr>)
      modifies this`members, this`suspects, this`actorSystems, this`queue
      ensures Became(if ok then PingAnswered(old(Value()), target) else PingFailed(old(Value()), target))
      ensures relays <==> !ok && target.addr in old(members) && relayPing
      ensures relays ==> exclude == {self.addr, target.addr}
    {
      assert queue + [] == queue;
      relays, exclude := false, {};
      if ok && target.addr in suspects {
        RecoverySuspect(target);
        return;
      }
      if !ok && target.addr in members {
        if relayPing {
          relays, exclude := true, {self.addr, target.addr};
        } else {
          SuspectMember(target, members[target.addr].inc);
        }
      }
    }

    // The relay reports that the target did not answer.
    method HandlePush(target: Member)
      modifies this`members, this`suspects, this`actorSystems, this`queue
      ensures Became(SuspectLocally(old(Value()), target))
    {
      var inc := if target.addr in members then members[target.addr].inc else 0;
      SuspectMember(target, inc);
    }

    method HandleActorSystemUp()
      modifies this`selfUp, this`actorSystems, this`incarnation, this`queue
      ensures Became(BringActorSystemUp(old(Value())))
    {
      selfUp := true;
      actorSystems := actorSystems[self.addr := true];
      SendSelfActorSystemUpGossip();
    }

    method NotifyActorSystemDown()
      modifies this`selfUp, this`actorSystems, this`incarnation, this`queue
      ensures Became(BringActorSystemDown(old(Value())))
    {
      selfUp := false;
      actorSystems := actorSystems - {self.addr};
      var inc := IncreaseIncarnation();
      queue := queue + [Gossip(ActorSystemDown, self, inc)];
    }

    method NotifyLeave()
      modifies this`incarnation, this`queue
      ensures Became(Leave(old(Value())))
    {
      assert queue + [] == queue;
      if |members| > 1 {
        var inc := IncreaseIncarnation();
        queue := queue + [Gossip(Down, self, inc)];
      }
    }

    // --- relays ----------------------------------------------------------------------------

    // In ascending order over the members, the last one that is not excluded.
    method GetRelayMember(exclude: set<Addr>) returns (found: bool, relay: Addr)
      ensures found <==> |members| > 2 && members.Keys - exclude != {}
      ensures found ==> IsGreatest(relay, members.Keys - exclude)
    {
      found, relay := false, self.addr;
      if |members| <= 2 {
        return;
      }
      var rest := members.Keys;
      while rest != {}
        invariant Scanned(members.Keys, rest, exclude, found, relay)
        decreases |rest|
      {
        LeastExists(rest);
        var a :| a in rest && IsLeast(a, rest);
        ScanOne(members.Keys, rest, exclude, found, relay, a);
        if a !in exclude {
          relay, found := a, true;
        }
        rest := rest - {a};
      }
      assert members.Keys - rest == members.Keys;
    }

    /** Relay ping with the members fixed: `answering` are the relays whose pull succeeds. The relays are
        asked one at a time in strictly descending order down to the first that answers, each at
        most once; if none answers, all were asked and the target becomes a suspect. */
    method RelayPing(target: Member, exclude: set<Addr>, answering: set<Addr>) returns (asked: seq<Addr>)
      modifies this`members, this`suspects, this`actorSystems, this`queue
      decreases members.Keys - exclude
      ensures Descending(asked)
      ensures var others := Relays(old(members), exclude);
              && (forall a :: a in asked <==> a in others && forall b | b in others * answering && b != a :: Less(b, a))
              && (if others * answering == {} then Became(SuspectLocally(old(Value()), target)) else Became(Outcome(old(Value()), [])))
    {
      assert queue + [] == queue;
      ghost var others := Relays(members, exclude);
      var found, relay := GetRelayMember(exclude);
      if found {
        if relay in answering {
          asked := [relay];
          GreatestAnswers(relay, others, answering);
        } else {
          ghost var fewer := Relays(members, exclude + {relay});
          assert fewer == others - {relay};
          assert fewer * answering == others * answering;
          var more := RelayPing(target, exclude + {relay}, answering);
          asked := [relay] + more;
          GreatestFirst(relay, others, answering, more);
        }
      } else {
        assert others == {};
        HandlePush(target);
        asked := [];
      }
    }
  }

  // --- small facts about the handlers --------------------------------------------------------

  lemma {:induction false} StatusesKeepSelf(s: State, sts: seq<Status>)
    ensures var r := UpdateStatuses(s, sts);
            && r.self == s.self && r.suspects == s.suspects && r.incarnation == s.incarnation
            && r.selfUp == s.selfUp && r.relayPing == s.relayPing
    decreases |sts|
  {
    if sts != [] {
      StatusesKeepSelf(s, sts[..|sts| - 1]);
    }
  }

  lemma ListedSnoc(sts: seq<Status>, st: Status)
    ensures Listed(sts + [st], st.member.addr)
    ensures forall a | Listed(sts, a) :: Listed(sts + [st], a)
  {
    var all := sts + [st];
    assert all[|sts|] == st && forall i | 0 <= i < |sts| :: all[i] == sts[i];
    forall a | Listed(sts, a)
      ensures Listed(all, a)
    {
      var i :| 0 <= i < |sts| && sts[i].member.addr == a;
      assert all[i].member.addr == a;
    }
  }

  // The state while the entries in `rest` are still to be merged into `s`.
  ghost predicate MergedExcept(s: State, p: Ping, rest: set<Addr>, c: State) {
    && c == s.(members := c.members, actorSystems := c.actorSystems)
    && forall a :: MergedAt(Merged(s, p, rest, a), c, a)
  }

  // What `a` will hold: its own entry merged, or untouched.
  function Merged(s: State, p: Ping, rest: set<Addr>, a: Addr): State {
    if a in p.members && a !in rest then MergeEntry(s, Member(a, p.members[a].uid), p.members[a].inc, p.flags) else s
  }

  // The tables agree on `a`.
  predicate MergedAt(goal: State, c: State, a: Addr) {
    && (a in c.members <==> a in goal.members)
    && (a in c.members ==> c.members[a] == goal.members[a])
    && (a in c.actorSystems <==> a in goal.actorSystems)
    && (a in c.actorSystems ==> c.actorSystems[a] == goal.actorSystems[a])
  }

  // Merging an entry depends on, and changes, its own address only.
  lemma MergeEntryHere(s: State, c: State, m: Member, inc: nat, flags: Flags)
    requires MergedAt(s, c, m.addr)
    ensures MergedAt(MergeEntry(s, m, inc, flags), MergeEntry(c, m, inc, flags), m.addr)
  {
    assert Outdated(s.members, m.addr, inc) <==> Outdated(c.members, m.addr, inc);
    if !Outdated(s.members, m.addr, inc) {
      assert Put(s.members, m, inc)[m.addr] == Put(c.members, m, inc)[m.addr];
    }
  }

  lemma MergeEntryElsewhere(c: State, m: Member, inc: nat, flags: Flags, b: Addr)
    requires b != m.addr
    ensures MergedAt(c, MergeEntry(c, m, inc, flags), b)
  {
  }

  lemma MergeOne(s: State, p: Ping, rest: set<Addr>, a: Addr, c: State, d: State)
    requires a in rest && rest <= p.members.Keys && MergedExcept(s, p, rest, c)
    requires d == MergeEntry(c, Member(a, p.members[a].uid), p.members[a].inc, p.flags)
    ensures MergedExcept(s, p, rest - {a}, d)
  {
    forall b
      ensures MergedAt(Merged(s, p, rest - {a}, b), d, b)
    {
      assert MergedAt(Merged(s, p, rest, b), c, b);
      if b == a {
        MergeEntryHere(s, c, Member(a, p.members[a].uid), p.members[a].inc, p.flags);
      } else {
        MergeEntryElsewhere(c, Member(a, p.members[a].uid), p.members[a].inc, p.flags, b);
      }
    }
  }

  // The whole ping, seen from one address.
  lemma MergePingAt(s: State, p: Ping, a: Addr)
    ensures MergedAt(Merged(s, p, {}, a), MergePing(s, p), a)
  {
    PingMembersAt(s, p, a);
    PingFlagsAt(s, p, a);
  }

  lemma PingMembersAt(s: State, p: Ping, a: Addr)
    ensures var c, goal := MergePing(s, p).members, Merged(s, p, {}, a).members;
            (a in c <==> a in goal) && (a in c ==> c[a] == goal[a])
  {
  }

  lemma PingFlagsAt(s: State, p: Ping, a: Addr)
    ensures var c, goal := MergePing(s, p).actorSystems, Merged(s, p, {}, a).actorSystems;
            (a in c <==> a in goal) && (a in c ==> c[a] == goal[a])
  {
  }

  lemma MergedAll(s: State, p: Ping, c: State)
    requires MergedExcept(s, p, {}, c)
    ensures c == MergePing(s, p)
  {
    var r := MergePing(s, p);
    forall a
      ensures MergedAt(r, c, a)
    {
      assert MergedAt(Merged(s, p, {}, a), c, a);
      MergePingAt(s, p, a);
    }
    SameEverywhere(c, r);
  }

  lemma SameEverywhere(c: State, r: State)
    requires forall a :: MergedAt(r, c, a)
    ensures c.members == r.members && c.actorSystems == r.actorSystems
  {
    forall a: Addr
      ensures a in c.members <==> a in r.members
      ensures a in c.actorSystems <==> a in r.actorSystems
      ensures a in c.members ==> c.members[a] == r.members[a]
      ensures a in c.actorSystems ==> c.actorSystems[a] == r.actorSystems[a]
    {
      assert MergedAt(r, c, a);
    }
  }

  // The candidates for relaying: none unless there are at least three members.
  function Relays(members: Table, exclude: set<Addr>): set<Addr> {
    if |members| <= 2 then {} else members.Keys - exclude
  }

  ghost predicate IsGreatest(a: Addr, s: set<Addr>) {
    a in s && forall b | b in s && b != a :: Less(b, a)
  }

  // A scan in ascending order that has `rest` before it: `relay` is the last candidate passed.
  ghost predicate Scanned(all: set<Addr>, rest: set<Addr>, exclude: set<Addr>, found: bool, relay: Addr) {
    && rest <= all
    && (forall a, b | a in all - rest && b in rest :: Less(a, b))
    && (found <==> all - rest - exclude != {})
    && (found ==> IsGreatest(relay, all - rest - exclude))
  }

  lemma ScanOne(all: set<Addr>, rest: set<Addr>, exclude: set<Addr>, found: bool, relay: Addr, a: Addr)
    requires Scanned(all, rest, exclude, found, relay) && a in rest && IsLeast(a, rest)
    ensures Scanned(all, rest - {a}, exclude, found || a !in exclude, if a !in exclude then a else relay)
  {
    var seen := all - rest;
    assert all - (rest - {a}) == seen + {a};
    if a in exclude {
      assert seen + {a} - exclude == seen - exclude;
    } else {
      assert seen + {a} - exclude == (seen - exclude) + {a};
    }
  }

  ghost predicate Descending(s: seq<Addr>) {
    forall i, j | 0 <= i < j < |s| :: Less(s[j], s[i])
  }

  lemma GreatestAnswers(relay: Addr, others: set<Addr>, answering: set<Addr>)
    requires IsGreatest(relay, others) && relay in answering
    ensures relay in others * answering
    ensures forall a :: a == relay <==> a in others && forall b | b in others * answering && b != a :: Less(b, a)
  {
    forall a | a in others && a != relay
      ensures !(forall b | b in others * answering && b != a :: Less(b, a))
    {
      LessTotal(a, relay);
      assert relay in others * answering;
    }
  }

  lemma GreatestFirst(relay: Addr, others: set<Addr>, answering: set<Addr>, more: seq<Addr>)
    requires IsGreatest(relay, others) && relay !in answering && Descending(more)
    requires forall a :: a in more <==> a in others - {relay} && forall b | b in (others - {relay}) * answering && b != a :: Less(b, a)
    ensures Descending([relay] + more)
    ensures forall a :: a in [relay] + more <==> a in others && forall b | b in others * answering && b != a :: Less(b, a)
  {
    assert (others - {relay}) * answering == others * answering;
    forall i, j | 0 <= i < j < |[relay] + more|
      ensures Less(([relay] + more)[j], ([relay] + more)[i])
    {
      assert ([relay] + more)[j] == more[j - 1] && more[j - 1] in more;
    }
  }

  /** A ping target that stays a member is relayed through every other member but oneself. */
  lemma RelaysOfPing(s: State, target: Addr)
    requires s.self.addr in s.members && target in s.members && target != s.self.addr
    ensures Relays(s.members, {s.self.addr, target}) == s.members.Keys - {s.self.addr, target}
  {
    var both := {s.self.addr, target};
    if |s.members| <= 2 {
      assert both <= s.members.Keys && |both| == 2;
      assert |s.members.Keys - both| == |s.members.Keys| - |both|;
    }
  }
}
