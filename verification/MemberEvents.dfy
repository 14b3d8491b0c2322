// The snapshot diff that turns membership snapshots into events, and the consumer that
// replays the events into its own member set.
module MemberEvents {
  import opened Addresses
  import Steps

  datatype Event = MemberUp(at: Addr) | MemberDown(at: Addr) | ActorSystemUp(at: Addr) | ActorSystemDown(at: Addr)

  // A snapshot lists the keys of a `std::map`, hence strictly ascending.
  predicate Ascending(s: seq<Addr>) {
    forall i, j | 0 <= i < j < |s| :: Less(s[i], s[j])
  }

  type Snapshot = s: seq<Addr> | Ascending(s)

  ghost function Elements(s: seq<Addr>): set<Addr> {
    set a | a in s
  }

  ghost predicate SameReading(f: Flags, g: Flags) {
    forall a :: IsUp(f, a) == IsUp(g, a)
  }

  // What a subscriber holds after replaying events: members, and addresses whose actor system is up.
  datatype View = View(members: set<Addr>, up: set<Addr>)

  function Apply(v: View, e: Event): View {
    match e
    case MemberUp(a) => v.(members := v.members + {a})
    case MemberDown(a) => v.(members := v.members - {a})
    case ActorSystemUp(a) => v.(up := v.up + {a})
    case ActorSystemDown(a) => v.(up := v.up - {a})
  }

  function Replay(v: View, events: seq<Event>): View
    decreases |events|
  {
    if events == [] then v else Replay(Apply(v, events[0]), events[1..])
  }

  lemma {:induction false} ReplayAppend(v: View, es: seq<Event>, fs: seq<Event>)
    ensures Replay(v, es + fs) == Replay(Replay(v, es), fs)
    decreases |es|
  {
    if es == [] {
      assert es + fs == fs;
    } else {
      assert (es + fs)[1..] == es[1..] + fs;
      ReplayAppend(Apply(v, es[0]), es[1..], fs);
    }
  }

  // --- the member diff ------------------------------------------------------------------

  // std::set_difference with the generator's comparator, which looks at the ip address only.
  function Difference(a: seq<Addr>, b: seq<Addr>): (r: seq<Addr>)
    decreases |a| + |b|
  {
    if a == [] then []
    else if b == [] then a
    else if IpLess(a[0].ip, b[0].ip) then [a[0]] + Difference(a[1..], b)
    else if !IpLess(b[0].ip, a[0].ip) then Difference(a[1..], b[1..])
    else Difference(a, b[1..])
  }

  // The members of a snapshot that share one ip address, in order.
  function Group(s: seq<Addr>, ip: string): seq<Addr>
    decreases |s|
  {
    if s == [] then [] else (if s[0].ip == ip then [s[0]] else []) + Group(s[1..], ip)
  }

  function Min(a: nat, b: nat): nat {
    if a < b then a else b
  }

  lemma {:induction false} GroupMembers(s: seq<Addr>, ip: string)
    ensures forall x :: x in Group(s, ip) <==> x in s && x.ip == ip
    ensures Ascending(s) ==> Ascending(Group(s, ip))
    decreases |s|
  {
    if s != [] {
      GroupMembers(s[1..], ip);
      assert forall x :: x in s <==> x == s[0] || x in s[1..];
      if Ascending(s) && s[0].ip == ip {
        var g := Group(s[1..], ip);
        assert forall i | 0 <= i < |g| :: g[i] in s[1..] && Less(s[0], g[i]);
      }
    }
  }

  // Sorted by Less means sorted by ip, so a group is gone once a greater ip comes first.
  lemma {:induction false} GroupAbsent(s: Snapshot, ip: string)
    requires s == [] || IpLess(ip, s[0].ip)
    ensures Group(s, ip) == []
    decreases |s|
  {
    if s != [] {
      IpTrichotomy(ip, s[0].ip);
      TailAscending(s);
      if |s| > 1 && s[0].ip != s[1].ip {
        assert Less(s[0], s[1]);
        IpTransitive(ip, s[0].ip, s[1].ip);
      }
      GroupAbsent(s[1..], ip);
    }
  }

  lemma HeadLeast(s: Snapshot, x: Addr)
    requires x in s
    ensures x == s[0] || Less(s[0], x)
  {
  }

  lemma TailAscending(s: Snapshot)
    requires s != []
    ensures Ascending(s[1..])
  {
  }

  lemma BothDrop(x: Addr, s: seq<Addr>, y: Addr, t: seq<Addr>)
    ensures ([x] + s)[Min(|[x] + s|, |[y] + t|)..] == s[Min(|s|, |t|)..]
  {
  }

  /** Two-pointer difference of sorted snapshots: of each ip's members the first ones are
      cancelled, as many as the other side has. */
  lemma {:induction false} DifferenceByGroup(a: Snapshot, b: Snapshot, ip: string)
    ensures Group(Difference(a, b), ip) == Group(a, ip)[Min(|Group(a, ip)|, |Group(b, ip)|)..]
    decreases |a| + |b|
  {
    if a == [] || b == [] {
    } else {
      TailAscending(a);
      TailAscending(b);
      IpTrichotomy(a[0].ip, b[0].ip);
      if IpLess(a[0].ip, b[0].ip) {
        DifferenceByGroup(a[1..], b, ip);
        if ip == a[0].ip {
          GroupAbsent(b, ip);
        }
        var d := Difference(a[1..], b);
        assert ([a[0]] + d)[1..] == d;
      } else if !IpLess(b[0].ip, a[0].ip) {
        DifferenceByGroup(a[1..], b[1..], ip);
        if ip == a[0].ip {
          BothDrop(a[0], Group(a[1..], ip), b[0], Group(b[1..], ip));
        }
      } else {
        DifferenceByGroup(a, b[1..], ip);
        if ip == b[0].ip {
          GroupAbsent(a, ip);
        }
      }
    }
  }

  function Ups(s: seq<Addr>): seq<Event> {
    seq(|s|, i requires 0 <= i < |s| => MemberUp(s[i]))
  }

  function Downs(s: seq<Addr>): seq<Event> {
    seq(|s|, i requires 0 <= i < |s| => MemberDown(s[i]))
  }

  function MemberDiff(old': Snapshot, new': Snapshot): seq<Event> {
    Ups(Difference(new', old')) + Downs(Difference(old', new'))
  }

  lemma {:induction false} ReplayUps(v: View, s: seq<Addr>)
    ensures Replay(v, Ups(s)) == v.(members := v.members + Elements(s))
    decreases |s|
  {
    if s == [] {
      assert v.members + Elements(s) == v.members;
    } else {
      assert Ups(s)[1..] == Ups(s[1..]);
      ReplayUps(Apply(v, MemberUp(s[0])), s[1..]);
      assert v.members + {s[0]} + Elements(s[1..]) == v.members + Elements(s);
    }
  }

  lemma {:induction false} ReplayDowns(v: View, s: seq<Addr>)
    ensures Replay(v, Downs(s)) == v.(members := v.members - Elements(s))
    decreases |s|
  {
    if s == [] {
      assert v.members - Elements(s) == v.members;
    } else {
      assert Downs(s)[1..] == Downs(s[1..]);
      ReplayDowns(Apply(v, MemberDown(s[0])), s[1..]);
      assert v.members - {s[0]} - Elements(s[1..]) == v.members - Elements(s);
    }
  }

  lemma ReplayMemberDiff(v: View, old': Snapshot, new': Snapshot)
    ensures Replay(v, MemberDiff(old', new')) ==
            v.(members := v.members + Elements(Difference(new', old')) - Elements(Difference(old', new')))
  {
    var up, down := Difference(new', old'), Difference(old', new');
    ReplayAppend(v, Ups(up), Downs(down));
    ReplayUps(v, up);
    ReplayDowns(Replay(v, Ups(up)), down);
  }

  lemma InTail(q: seq<Addr>, x: Addr)
    requires x in q && x != q[0]
    ensures x in q[1..]
  {
    var i :| 0 <= i < |q| && q[i] == x;
    assert q[1..][i - 1] == x;
  }

  // A sorted list inside another is no longer than it, and equal to it if equally long.
  lemma {:induction false} SortedSubset(p: Snapshot, q: Snapshot)
    requires forall x | x in p :: x in q
    ensures |p| <= |q| && (|p| == |q| ==> p == q)
    decreases |q|
  {
    if p != [] {
      assert p[0] in q;
      TailAscending(q);
      TailAscending(p);
      if p[0] == q[0] {
        forall x | x in p[1..]
          ensures x in q[1..]
        {
          var i :| 0 <= i < |p[1..]| && p[1..][i] == x;
          assert Less(p[0], p[i + 1]);
          LessTotal(p[0], x);
          InTail(q, x);
        }
        SortedSubset(p[1..], q[1..]);
        assert p == [p[0]] + p[1..] && q == [q[0]] + q[1..];
      } else {
        forall x | x in p
          ensures x in q[1..]
        {
          HeadLeast(q, p[0]);
          HeadLeast(p, x);
          LessTotal(q[0], x);
          if x != p[0] {
            LessTransitive(q[0], p[0], x);
          }
          InTail(q, x);
        }
        SortedSubset(p, q[1..]);
      }
    }
  }

  // The members of one ip after replaying a diff computed from groups `a` (old) and `b` (new).
  ghost predicate GroupReplayed(a: Snapshot, b: Snapshot, x: Addr) {
    var k := Min(|a|, |b|);
    (x in a || x in b[k..]) && x !in a[k..]
  }

  // Replaying the diff of one group is right exactly when one list is a prefix of the other.
  lemma GroupExact(a: Snapshot, b: Snapshot)
    ensures (forall x :: GroupReplayed(a, b, x) <==> x in b) <==> a <= b || b <= a
  {
    var k := Min(|a|, |b|);
    var a0, b0 := a[..k], b[..k];
    assert a == a0 + a[k..] && b == b0 + b[k..];
    Separate(a, k);
    Separate(b, k);
    if forall x :: GroupReplayed(a, b, x) <==> x in b {
      if k == |a| {
        assert a[k..] == [] && a0 == a;
        forall x | x in b0
          ensures x in a
        {
          assert x in b && GroupReplayed(a, b, x);
        }
        SortedSubset(b0, a);
        assert a <= b;
      } else {
        assert b[k..] == [] && b0 == b;
        forall x | x in b
          ensures x in a0
        {
          assert GroupReplayed(a, b, x);
        }
        SortedSubset(b, a0);
        assert b <= a;
      }
    }
    if a <= b || b <= a {
      assert a0 == b0;
      if k == |a| {
        assert a[k..] == [] && a0 == a;
      } else {
        assert b[k..] == [] && b0 == b;
      }
    }
  }

  // Cutting a strictly sorted list leaves two disjoint lists.
  lemma Separate(s: Snapshot, k: nat)
    requires k <= |s|
    ensures Ascending(s[..k]) && Ascending(s[k..])
    ensures forall x :: !(x in s[..k] && x in s[k..])
  {
    forall x | x in s[..k] && x in s[k..]
      ensures false
    {
      LessTotal(x, x);
    }
  }

  // The replay condition for one update, readable off the two snapshots.
  ghost predicate Replayable(old': Snapshot, new': Snapshot) {
    forall ip :: Group(old', ip) <= Group(new', ip) || Group(new', ip) <= Group(old', ip)
  }

  /** Event replay, exactly: a set equal to the old snapshot becomes equal to the new one
      if and only if, for every ip address, the ports listed before and after are prefixes
      of one another. */
  lemma ReplayExact(old': Snapshot, new': Snapshot, v: View)
    requires v.members == Elements(old')
    ensures Replay(v, MemberDiff(old', new')).members == Elements(new') <==> Replayable(old', new')
  {
    var after := Replay(v, MemberDiff(old', new')).members;
    forall x: Addr
      ensures x in after <==> GroupReplayed(Grouped(old', x.ip), Grouped(new', x.ip), x)
    {
      ReplayedByGroup(old', new', v, x);
    }
    if after == Elements(new') {
      ExactReplayable(old', new', after);
    }
    if Replayable(old', new') {
      forall x: Addr
        ensures x in after <==> x in Elements(new')
      {
        ReplayableGroup(old', new', x);
      }
    }
  }

  lemma ReplayedByGroup(old': Snapshot, new': Snapshot, v: View, x: Addr)
    requires v.members == Elements(old')
    ensures x in Replay(v, MemberDiff(old', new')).members <==> GroupReplayed(Grouped(old', x.ip), Grouped(new', x.ip), x)
  {
    ReplayMemberDiff(v, old', new');
    DifferenceByGroup(new', old', x.ip);
    DifferenceByGroup(old', new', x.ip);
    GroupMembers(old', x.ip);
    GroupMembers(Difference(new', old'), x.ip);
    GroupMembers(Difference(old', new'), x.ip);
  }

  lemma ReplayableGroup(old': Snapshot, new': Snapshot, x: Addr)
    requires Replayable(old', new')
    ensures GroupReplayed(Grouped(old', x.ip), Grouped(new', x.ip), x) <==> x in Elements(new')
  {
    assert Group(old', x.ip) <= Group(new', x.ip) || Group(new', x.ip) <= Group(old', x.ip);
    GroupExact(Grouped(old', x.ip), Grouped(new', x.ip));
    GroupMembers(new', x.ip);
  }

  lemma ExactReplayable(old': Snapshot, new': Snapshot, after: set<Addr>)
    requires forall x: Addr :: x in after <==> GroupReplayed(Grouped(old', x.ip), Grouped(new', x.ip), x)
    requires after == Elements(new')
    ensures Replayable(old', new')
  {
    forall ip: string
      ensures Group(old', ip) <= Group(new', ip) || Group(new', ip) <= Group(old', ip)
    {
      GroupMembers(old', ip);
      GroupMembers(new', ip);
      forall x
        ensures GroupReplayed(Grouped(old', ip), Grouped(new', ip), x) <==> x in Grouped(new', ip)
      {
        if x.ip == ip {
          assert x in after <==> x in Elements(new');
        } else {
          assert x !in Group(old', ip) && x !in Group(new', ip);
        }
      }
      GroupExact(Grouped(old', ip), Grouped(new', ip));
    }
  }

  // A group as a sorted list in its own right.
  function Grouped(s: Snapshot, ip: string): (g: Snapshot)
    ensures g == Group(s, ip)
  {
    GroupMembers(s, ip);
    Group(s, ip)
  }

  // One member per ip, with one port throughout.
  ghost predicate OnePort(old': Snapshot, new': Snapshot) {
    forall x, y | (x in old' || x in new') && (y in old' || y in new') && x.ip == y.ip :: x == y
  }

  lemma OnePortReplayable(old': Snapshot, new': Snapshot)
    requires OnePort(old', new')
    ensures Replayable(old', new')
  {
    forall ip: string
      ensures Group(old', ip) <= Group(new', ip) || Group(new', ip) <= Group(old', ip)
    {
      GroupMembers(old', ip);
      GroupMembers(new', ip);
      AtMostOne(Grouped(old', ip));
      AtMostOne(Grouped(new', ip));
      var a, b := Group(old', ip), Group(new', ip);
      if a != [] && b != [] {
        assert a[0] in old' && b[0] in new';
      }
    }
  }

  lemma AtMostOne(s: Snapshot)
    requires forall i, j | 0 <= i < |s| && 0 <= j < |s| :: s[i] == s[j]
    ensures |s| <= 1
  {
    if |s| > 1 {
      LessTotal(s[0], s[1]);
    }
  }

  // A member that moved to another port on the same ip is missed.
  lemma PortChangeIsMissed(ip: string)
    ensures var before: Snapshot, after: Snapshot := [Addr(ip, 1)], [Addr(ip, 2)];
            Replay(View({Addr(ip, 1)}, {}), MemberDiff(before, after)).members == {Addr(ip, 1)}
  {
    IpTrichotomy(ip, ip);
    var before: Snapshot, after: Snapshot := [Addr(ip, 1)], [Addr(ip, 2)];
    ReplayMemberDiff(View({Addr(ip, 1)}, {}), before, after);
  }

  // --- the actor-system diff --------------------------------------------------------------

  function FlagEvent(a: Addr, up: bool): Event {
    if up then ActorSystemUp(a) else ActorSystemDown(a)
  }

  // Changed flags among `keys`, in key order.
  ghost function FlagDiff(keys: set<Addr>, old': Flags, new': Flags): seq<Event>
    requires keys <= new'.Keys
    decreases |keys|
  {
    if keys == {} then [] else
      LeastExists(keys);
      var a :| IsLeast(a, keys);
      (if new'[a] != IsUp(old', a) then [FlagEvent(a, new'[a])] else []) + FlagDiff(keys - {a}, old', new')
  }

  lemma LeastUnique(a: Addr, b: Addr, s: set<Addr>)
    requires IsLeast(a, s) && IsLeast(b, s)
    ensures a == b
  {
    LessTotal(a, b);
  }

  lemma FlagDiffStep(a: Addr, keys: set<Addr>, old': Flags, new': Flags)
    requires keys <= new'.Keys && IsLeast(a, keys)
    ensures FlagDiff(keys, old', new') ==
            (if new'[a] != IsUp(old', a) then [FlagEvent(a, new'[a])] else []) + FlagDiff(keys - {a}, old', new')
  {
    var b :| IsLeast(b, keys) && FlagDiff(keys, old', new') ==
      (if new'[b] != IsUp(old', b) then [FlagEvent(b, new'[b])] else []) + FlagDiff(keys - {b}, old', new');
    LeastUnique(a, b, keys);
  }

  lemma {:induction false} ReplayFlagDiff(v: View, keys: set<Addr>, old': Flags, new': Flags)
    requires keys <= new'.Keys
    ensures Replay(v, FlagDiff(keys, old', new')).members == v.members
    ensures forall a :: a in Replay(v, FlagDiff(keys, old', new')).up <==>
                        if a in keys && new'[a] != IsUp(old', a) then new'[a] else a in v.up
    decreases |keys|
  {
    if keys != {} {
      LeastExists(keys);
      var a :| IsLeast(a, keys);
      var rest := FlagDiff(keys - {a}, old', new');
      var head := if new'[a] != IsUp(old', a) then [FlagEvent(a, new'[a])] else [];
      FlagDiffStep(a, keys, old', new');
      ReplayAppend(v, head, rest);
      ReplayFlagDiff(Replay(v, head), keys - {a}, old', new');
    }
  }

  /** Replayed flags, exactly: a subscriber that agrees with the old flag of `a` agrees with the
      new one unless `a` was dropped from the map while its actor system was up. */
  lemma FlagReplayExact(v: View, old': Flags, new': Flags, a: Addr)
    requires a in v.up <==> IsUp(old', a)
    ensures var after := Replay(v, FlagDiff(new'.Keys, old', new'));
            (a in after.up <==> IsUp(new', a)) <==> !(IsUp(old', a) && a !in new')
  {
    ReplayFlagDiff(v, new'.Keys, old', new');
  }

  // --- runs -----------------------------------------------------------------------------

  datatype Observation = Observation(members: Snapshot, flags: Flags)

  const NOTHING: Observation := Observation([], map[])

  ghost function UpdateEvents(old': Observation, new': Observation): seq<Event> {
    MemberDiff(old'.members, new'.members) + FlagDiff(new'.flags.Keys, old'.flags, new'.flags)
  }

  // The snapshot the generator remembers after a run of updates.
  function Latest(us: seq<Observation>): Observation {
    if us == [] then NOTHING else us[|us| - 1]
  }

  // What a consumer that starts empty has rebuilt after a run of updates.
  ghost function Rebuilt(us: seq<Observation>): View
    decreases |us|
  {
    if us == [] then View({}, {}) else
      var before := us[..|us| - 1];
      Replay(Rebuilt(before), UpdateEvents(Latest(before), Latest(us)))
  }

  lemma RebuiltStep(us: seq<Observation>)
    requires us != []
    ensures var before := us[..|us| - 1];
            var v := Rebuilt(before);
            && Rebuilt(us).members == Replay(v, MemberDiff(Latest(before).members, Latest(us).members)).members
            && Rebuilt(us).up == Replay(v, FlagDiff(Latest(us).flags.Keys, Latest(before).flags, Latest(us).flags)).up
  {
    var before := us[..|us| - 1];
    var v, o, n := Rebuilt(before), Latest(before), Latest(us);
    ReplayAppend(v, MemberDiff(o.members, n.members), FlagDiff(n.flags.Keys, o.flags, n.flags));
    ReplayMemberDiff(v, o.members, n.members);
    ReplayFlagDiff(v, n.flags.Keys, o.flags, n.flags);
    ReplayFlagDiff(Replay(v, MemberDiff(o.members, n.members)), n.flags.Keys, o.flags, n.flags);
  }

  // After `k` updates the rebuilt members are those of the latest snapshot.
  ghost predicate UpToDate(us: seq<Observation>, k: nat)
    requires k <= |us|
  {
    Rebuilt(us[..k]).members == Elements(Latest(us[..k]).members)
  }

  ghost predicate ReplayableAt(us: seq<Observation>, k: nat)
    requires k < |us|
  {
    Replayable(Latest(us[..k]).members, us[k].members)
  }

  /** Over a run: the rebuilt member set equals every snapshot as it comes in, if and only if
      every consecutive pair of snapshots is replayable. */
  lemma RebuiltExact(us: seq<Observation>, n: nat)
    requires n <= |us|
    ensures (forall k: nat | k <= n :: UpToDate(us, k)) <==> (forall k: nat | k < n :: ReplayableAt(us, k))
  {
    forall k: nat | k < n
      ensures UpToDate(us, k) ==> (UpToDate(us, k + 1) <==> ReplayableAt(us, k))
    {
      RebuiltStepExact(us, k);
    }
    var holds, fine := (k: nat) => k <= n && UpToDate(us, k), (k: nat) => k < n && ReplayableAt(us, k);
    Steps.Stepwise(holds, fine, n);
    assert forall k: nat | k <= n :: holds(k) == UpToDate(us, k);
    assert forall k: nat | k < n :: fine(k) == ReplayableAt(us, k);
  }

  lemma RebuiltStepExact(us: seq<Observation>, k: nat)
    requires k < |us|
    ensures UpToDate(us, k) ==> (UpToDate(us, k + 1) <==> ReplayableAt(us, k))
  {
    assert us[..k + 1][..k] == us[..k] && Latest(us[..k + 1]) == us[k];
    RebuiltStep(us[..k + 1]);
    if UpToDate(us, k) {
      ReplayExact(Latest(us[..k]).members, us[k].members, Rebuilt(us[..k]));
    }
  }

  // One member and one port per ip over the whole run.
  ghost predicate StablePorts(us: seq<Observation>) {
    forall i, j, x, y | 0 <= i < |us| && 0 <= j < |us| && x in us[i].members && y in us[j].members && x.ip == y.ip :: x == y
  }

  lemma StablePortsRebuilt(us: seq<Observation>)
    requires StablePorts(us)
    ensures Rebuilt(us).members == Elements(Latest(us).members)
  {
    forall k | 0 <= k < |us|
      ensures ReplayableAt(us, k)
    {
      if k > 0 {
        assert Latest(us[..k]) == us[k - 1];
      }
      OnePortReplayable(Latest(us[..k]).members, us[k].members);
    }
    RebuiltExact(us, |us|);
    assert us[..|us|] == us && UpToDate(us, |us|);
  }

  // After `k` updates the replayed flag of `a` is the current one.
  ghost predicate FlagUpToDate(us: seq<Observation>, k: nat, a: Addr)
    requires k <= |us|
  {
    a in Rebuilt(us[..k]).up <==> IsUp(Latest(us[..k]).flags, a)
  }

  // Update `k` drops `a` from the flag map while its actor system is up.
  ghost predicate DropsUp(us: seq<Observation>, k: nat, a: Addr)
    requires k < |us|
  {
    IsUp(Latest(us[..k]).flags, a) && a !in us[k].flags
  }

  /** Over a run: the replayed flag of `a` is right after every update if and only if no update
      drops `a` while its actor system is up. */
  lemma RebuiltFlagsExact(us: seq<Observation>, n: nat, a: Addr)
    requires n <= |us|
    ensures (forall k: nat | k <= n :: FlagUpToDate(us, k, a)) <==> (forall k: nat | k < n :: !DropsUp(us, k, a))
  {
    forall k: nat | k < n
      ensures FlagUpToDate(us, k, a) ==> (FlagUpToDate(us, k + 1, a) <==> !DropsUp(us, k, a))
    {
      RebuiltFlagStep(us, k, a);
    }
    var holds, fine := (k: nat) => k <= n && FlagUpToDate(us, k, a), (k: nat) => k < n && !DropsUp(us, k, a);
    Steps.Stepwise(holds, fine, n);
    assert forall k: nat | k <= n :: holds(k) == FlagUpToDate(us, k, a);
    assert forall k: nat | k < n :: fine(k) == !DropsUp(us, k, a);
  }

  lemma RebuiltFlagStep(us: seq<Observation>, k: nat, a: Addr)
    requires k < |us|
    ensures FlagUpToDate(us, k, a) ==> (FlagUpToDate(us, k + 1, a) <==> !DropsUp(us, k, a))
  {
    assert us[..k + 1][..k] == us[..k] && Latest(us[..k + 1]) == us[k];
    RebuiltStep(us[..k + 1]);
    if FlagUpToDate(us, k, a) {
      FlagReplayExact(Rebuilt(us[..k]), Latest(us[..k]).flags, us[k].flags, a);
    }
  }

  // --- the generator and the consumer -----------------------------------------------------

  class MemberEventGenerator {
    var members: Snapshot
    var actorSystems: Flags

    ghost function Value(): Observation
      reads this
    {
      Observation(members, actorSystems)
    }

    constructor ()
      ensures Value() == NOTHING
    {
      members := [];
      actorSystems := map[];
    }

    method Update(newMembers: Snapshot, newFlags: Flags) returns (events: seq<Event>)
      modifies this
      ensures events == UpdateEvents(old(Value()), Value())
      ensures members == newMembers && actorSystems == newFlags
    {
      ghost var before := Value();
      var memberEvents := GenerateEventForMember(newMembers);
      var flagEvents := GenerateEventForActorSystem(newFlags);
      events := memberEvents + flagEvents;
      members := newMembers;
      actorSystems := newFlags;
    }

    // Looking a flag up inserts a default false; the reading of every flag is unchanged by that.
    method GenerateEventForActorSystem(newFlags: Flags) returns (events: seq<Event>)
      modifies this`actorSystems
      ensures events == FlagDiff(newFlags.Keys, old(actorSystems), newFlags)
      ensures SameReading(actorSystems, old(actorSystems))
    {
      events := [];
      var rest := newFlags.Keys;
      ghost var before := actorSystems;
      while rest != {}
        invariant rest <= newFlags.Keys
        invariant SameReading(actorSystems, before)
        invariant events + FlagDiff(rest, before, newFlags) == FlagDiff(newFlags.Keys, before, newFlags)
        decreases |rest|
      {
        LeastExists(rest);
        var a :| a in rest && IsLeast(a, rest);
        FlagDiffStep(a, rest, before, newFlags);
        var up := ReadFlag(a);
        var changed := if newFlags[a] != up then [FlagEvent(a, newFlags[a])] else [];
        ghost var others := FlagDiff(rest - {a}, before, newFlags);
        assert events + (changed + others) == (events + changed) + others;
        events := events + changed;
        rest := rest - {a};
      }
    }

    // `operator[]`: a missing flag is inserted as false.
    method ReadFlag(a: Addr) returns (up: bool)
      modifies this`actorSystems
      ensures SameReading(actorSystems, old(actorSystems)) && up == IsUp(old(actorSystems), a)
    {
      if a !in actorSystems {
        actorSystems := actorSystems[a := false];
      }
      up := actorSystems[a];
    }

    method GenerateEventForMember(newMembers: Snapshot) returns (events: seq<Event>)
      ensures events == MemberDiff(members, newMembers)
    {
      var up := SetDifference(newMembers, members);
      var down := SetDifference(members, newMembers);
      events := Ups(up) + Downs(down);
    }

    static method SetDifference(a: seq<Addr>, b: seq<Addr>) returns (r: seq<Addr>)
      ensures r == Difference(a, b)
    {
      r := [];
      var i, j := 0, 0;
      while i < |a| && j < |b|
        invariant 0 <= i <= |a| && 0 <= j <= |b|
        invariant r + Difference(a[i..], b[j..]) == Difference(a, b)
        decreases |a| - i + |b| - j
      {
        assert a[i..][1..] == a[i + 1..] && b[j..][1..] == b[j + 1..];
        if IpLess(a[i].ip, b[j].ip) {
          r := r + [a[i]];
          i := i + 1;
        } else {
          if !IpLess(b[j].ip, a[i].ip) {
            i := i + 1;
          }
          j := j + 1;
        }
      }
      r := r + a[i..];
    }
  }

  // The member set kept by the gRPC service. Actor-system events leave it alone.
  class Consumer {
    var members: set<Addr>

    constructor ()
      ensures members == {}
    {
      members := {};
    }

    method Notify(events: seq<Event>, ghost up: set<Addr>)
      modifies this
      ensures members == Replay(View(old(members), up), events).members
    {
      var i := 0;
      assert events[0..] == events;
      ghost var flags := up;
      while i < |events|
        invariant 0 <= i <= |events|
        invariant Replay(View(members, flags), events[i..]) == Replay(View(old(members), up), events)
      {
        assert events[i..][1..] == events[i + 1..];
        flags := Apply(View(members, flags), events[i]).up;
        match events[i] {
          case MemberUp(a) => members := members + {a};
          case MemberDown(a) => members := members - {a};
          case ActorSystemDown(_) =>
          case ActorSystemUp(_) =>
        }
        i := i + 1;
      }
    }
  }
}
