// Node addresses and the order in which `std::map` and `std::set` keep them.
module Addresses {

  type Port = p: nat | p < 0x1_0000

  // Members compare equal, and are ordered, by ip address and port alone.
  datatype Addr = Addr(ip: string, port: Port)

  // Whose actor system is up. A missing flag reads as false, be it with a default or through `operator[]`.
  type Flags = map<Addr, bool>

  predicate IsUp(flags: Flags, a: Addr) {
    a in flags && flags[a]
  }

  // `operator<` of std::string: the first difference decides, a proper prefix is smaller.
  predicate IpLess(a: string, b: string)
    decreases |a|
  {
    if b == "" then false
    else if a == "" then true
    else if a[0] != b[0] then a[0] < b[0]
    else IpLess(a[1..], b[1..])
  }

  predicate Less(a: Addr, b: Addr) {
    IpLess(a.ip, b.ip) || (a.ip == b.ip && a.port < b.port)
  }

  // Equal up to position `k`, and there `a` ends first or has the smaller character.
  predicate SmallerAt(a: string, b: string, k: nat) {
    k <= |a| && k < |b| && a[..k] == b[..k] && (k < |a| ==> a[k] < b[k])
  }

  /** The order is lexicographic: by the first difference, and a proper prefix comes first. */
  lemma {:induction false} IpLessExact(a: string, b: string)
    ensures IpLess(a, b) <==> exists k: nat :: SmallerAt(a, b, k)
    decreases |a|
  {
    if a == "" || b == "" || a[0] != b[0] {
      assert b != "" && (a == "" || a[0] < b[0]) ==> SmallerAt(a, b, 0);
      forall k: nat
        ensures SmallerAt(a, b, k) ==> k == 0
      {
        if 0 < k <= |a| && k <= |b| {
          assert a[..k][0] == a[0] && b[..k][0] == b[0];
        }
      }
    } else {
      IpLessExact(a[1..], b[1..]);
      forall k: nat
        ensures SmallerAt(a, b, k + 1) <==> SmallerAt(a[1..], b[1..], k)
      {
        SmallerInTail(a, b, k);
      }
      if k: nat :| SmallerAt(a, b, k) {
        assert k > 0;
        assert SmallerAt(a[1..], b[1..], k - 1);
      }
      if k: nat :| SmallerAt(a[1..], b[1..], k) {
        assert SmallerAt(a, b, k + 1);
      }
    }
  }

  lemma SmallerInTail(a: string, b: string, k: nat)
    requires a != "" && b != "" && a[0] == b[0]
    ensures SmallerAt(a, b, k + 1) <==> SmallerAt(a[1..], b[1..], k)
  {
    if k + 1 <= |a| && k + 1 <= |b| {
      assert a[..k + 1] == [a[0]] + a[1..][..k] && b[..k + 1] == [b[0]] + b[1..][..k];
      assert a[1..][..k] == a[..k + 1][1..] && b[1..][..k] == b[..k + 1][1..];
    }
  }

  lemma {:induction false} IpTrichotomy(a: string, b: string)
    ensures IpLess(a, b) || IpLess(b, a) || a == b
    ensures !(IpLess(a, b) && IpLess(b, a))
    ensures IpLess(a, b) ==> a != b
    decreases |a|
  {
    if a != "" && b != "" && a[0] == b[0] {
      IpTrichotomy(a[1..], b[1..]);
      assert a == [a[0]] + a[1..] && b == [b[0]] + b[1..];
    }
  }

  lemma {:induction false} IpTransitive(a: string, b: string, c: string)
    requires IpLess(a, b) && IpLess(b, c)
    ensures IpLess(a, c)
    decreases |a|
  {
    if a != "" && a[0] == b[0] && b[0] == c[0] {
      IpTransitive(a[1..], b[1..], c[1..]);
    }
  }

  /** `Less` is a strict total order, so the containers' key order is well defined. */
  lemma LessTotal(a: Addr, b: Addr)
    ensures Less(a, b) || Less(b, a) || a == b
    ensures !(Less(a, b) && Less(b, a)) && !Less(a, a)
  {
    IpTrichotomy(a.ip, b.ip);
    IpTrichotomy(a.ip, a.ip);
  }

  /** Addresses are ordered by ip first and by port number within one ip. */
  lemma IpThenPort(a: Addr, b: Addr)
    ensures a.ip == b.ip ==> (Less(a, b) <==> a.port < b.port)
    ensures a.ip != b.ip ==> (Less(a, b) <==> exists k: nat :: SmallerAt(a.ip, b.ip, k))
  {
    IpTrichotomy(a.ip, b.ip);
    IpLessExact(a.ip, b.ip);
  }

  lemma LessTransitive(a: Addr, b: Addr, c: Addr)
    requires Less(a, b) && Less(b, c)
    ensures Less(a, c)
  {
    if IpLess(a.ip, b.ip) && IpLess(b.ip, c.ip) {
      IpTransitive(a.ip, b.ip, c.ip);
    }
  }

  predicate IsLeast(a: Addr, s: set<Addr>) {
    a in s && forall b | b in s && b != a :: Less(a, b)
  }

  // Iteration over a non-empty map can always find its first key.
  lemma {:induction false} LeastExists(s: set<Addr>)
    requires s != {}
    ensures exists a :: IsLeast(a, s)
  {
    var x :| x in s;
    if s == {x} {
      assert IsLeast(x, s);
    } else {
      LeastExists(s - {x});
      var y :| IsLeast(y, s - {x});
      LessTotal(x, y);
      if Less(x, y) {
        forall b | b in s && b != x
          ensures Less(x, b)
        {
          if b != y {
            LessTransitive(x, y, b);
          }
        }
        assert IsLeast(x, s);
      } else {
        assert IsLeast(y, s);
      }
    }
  }
}
