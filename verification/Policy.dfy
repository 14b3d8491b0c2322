// The minimum-load policy: a rotating pivot, a first-minimum pick and a FIFO of held mail.
module Policy {
  import opened Mailbox

  const SIZE_MODULUS := 0x1_0000_0000_0000_0000

  datatype State = State(rotated: nat, mails: seq<Mail>, threshold: nat)

  function Initial(threshold: nat): State {
    State(SIZE_MODULUS - 1, [], threshold)
  }

  // The pivot after one rotation: 64-bit increment, then reduction to a worker index.
  function NextPivot(rotated: nat, n: nat): (pivot: nat)
    requires n > 0
    ensures pivot < n
  {
    (rotated + 1) % SIZE_MODULUS % n
  }

  // Position `d` steps after the pivot, going round.
  function Around(pivot: nat, d: nat, n: nat): (i: nat)
    requires n > 0
    ensures i < n
  {
    (pivot + d) % n
  }

  // `d` steps from the pivot is the first minimum in cyclic order.
  ghost predicate FirstMinimum(loads: seq<nat>, pivot: nat, d: nat) {
    && d < |loads|
    && (forall i | 0 <= i < |loads| :: loads[Around(pivot, d, |loads|)] <= loads[i])
    && (forall e | 0 <= e < d :: loads[Around(pivot, d, |loads|)] < loads[Around(pivot, e, |loads|)])
  }

  lemma FirstMinimumUnique(loads: seq<nat>, pivot: nat, d: nat, e: nat)
    requires FirstMinimum(loads, pivot, d) && FirstMinimum(loads, pivot, e)
    ensures d == e
  {
    var atD, atE := loads[Around(pivot, d, |loads|)], loads[Around(pivot, e, |loads|)];
    assert d < e ==> atE < atD;
    assert e < d ==> atD < atE;
  }

  // std::min_element: the index of the first least element.
  function MinIndex(s: seq<nat>): (k: nat)
    requires s != []
    ensures k < |s|
    ensures forall i | 0 <= i < |s| :: s[k] <= s[i]
    ensures forall i | 0 <= i < k :: s[k] < s[i]
  {
    if |s| == 1 then 0
    else
      var k := MinIndex(s[..|s| - 1]);
      if s[|s| - 1] < s[k] then |s| - 1 else k
  }

  function RotatedCopy(loads: seq<nat>, pivot: nat): seq<nat>
    requires pivot < |loads|
  {
    loads[pivot..] + loads[..pivot]
  }

  // Going round once at most.
  lemma AroundOnce(pivot: nat, d: nat, n: nat)
    requires pivot < n && d < n
    ensures Around(pivot, d, n) == if pivot + d < n then pivot + d else pivot + d - n
  {
    if pivot + d < n {
      SmallModulo(pivot + d, n);
    } else {
      ModOfMultiple(1, n, pivot + d - n);
    }
  }

  lemma SmallModulo(x: nat, n: nat)
    requires x < n
    ensures x % n == x
  {
  }

  lemma RotatedAt(loads: seq<nat>, pivot: nat, d: nat)
    requires pivot < |loads| && d < |loads|
    ensures RotatedCopy(loads, pivot)[d] == loads[Around(pivot, d, |loads|)]
  {
    AroundOnce(pivot, d, |loads|);
  }

  // Every worker is some number of steps away from the pivot.
  lemma Reached(pivot: nat, i: nat, n: nat) returns (d: nat)
    requires pivot < n && i < n
    ensures d < n && Around(pivot, d, n) == i
  {
    d := if i >= pivot then i - pivot else i + n - pivot;
    AroundOnce(pivot, d, n);
  }

  // The offset chosen among the rotated loads.
  function Offset(loads: seq<nat>, pivot: nat): (d: nat)
    requires pivot < |loads|
    ensures d < |loads|
  {
    MinIndex(RotatedCopy(loads, pivot))
  }

  /** The pick is the first minimum-load worker in cyclic order from the pivot. */
  lemma OffsetIsFirstMinimum(loads: seq<nat>, pivot: nat)
    requires pivot < |loads|
    ensures FirstMinimum(loads, pivot, Offset(loads, pivot))
  {
    var s, n := RotatedCopy(loads, pivot), |loads|;
    var k := MinIndex(s);
    RotatedAt(loads, pivot, k);
    forall i | 0 <= i < n
      ensures loads[Around(pivot, k, n)] <= loads[i]
    {
      var d := Reached(pivot, i, n);
      RotatedAt(loads, pivot, d);
    }
    forall e | 0 <= e < k
      ensures loads[Around(pivot, k, n)] < loads[Around(pivot, e, n)]
    {
      RotatedAt(loads, pivot, e);
    }
  }

  // The mail, if any, that is placed on a worker, by index.
  datatype Choice = Choice(worker: nat, mail: Mail)

  datatype Placement = Placement(state: State, choice: Option<Choice>)

  // There is something to place: the new mail or held mail.
  predicate HasMail(s: State, mail: Option<Mail>) {
    mail.Some? || s.mails != []
  }

  function Place(s: State, loads: seq<nat>, mail: Option<Mail>): Placement
    requires HasMail(s, mail) ==> loads != []
  {
    if !HasMail(s, mail) then Placement(s, None)
    else
      var pivot := NextPivot(s.rotated, |loads|);
      var pick := Around(pivot, Offset(loads, pivot), |loads|);
      var queue := s.mails + Listed(mail);
      if loads[pick] >= s.threshold then Placement(s.(rotated := pivot, mails := queue), None)
      else Placement(s.(rotated := pivot, mails := queue[1..]), Some(Choice(pick, queue[0])))
  }

  /** Policy refinement: placed mail followed by held mail is held mail followed by the new mail;
      a placement goes to the first minimum from the new pivot and happens exactly when
      there is mail and that minimum is below the threshold. */
  lemma PlaceMeaning(s: State, loads: seq<nat>, mail: Option<Mail>)
    requires HasMail(s, mail) ==> loads != []
    ensures var p := Place(s, loads, mail);
            && (if p.choice.Some? then [p.choice.value.mail] else []) + p.state.mails == s.mails + Listed(mail)
            && p.state.threshold == s.threshold
            && (p.choice.Some? <==> HasMail(s, mail) && exists i | 0 <= i < |loads| :: loads[i] < s.threshold)
            && (HasMail(s, mail) ==> p.state.rotated == NextPivot(s.rotated, |loads|))
            && (!HasMail(s, mail) ==> p.state == s)
            && (p.choice.Some? ==> exists d :: FirstMinimum(loads, p.state.rotated, d) &&
                                               p.choice.value.worker == Around(p.state.rotated, d, |loads|))
  {
    if HasMail(s, mail) {
      var pivot := NextPivot(s.rotated, |loads|);
      OffsetIsFirstMinimum(loads, pivot);
      var queue := s.mails + Listed(mail);
      assert [queue[0]] + queue[1..] == queue;
    }
  }

  // The placement, spelled out for callers that only need load facts.
  lemma PlaceLeast(s: State, loads: seq<nat>, mail: Option<Mail>)
    requires HasMail(s, mail) ==> loads != []
    ensures var p := Place(s, loads, mail);
            p.choice.Some? ==> p.choice.value.worker < |loads| && loads[p.choice.value.worker] < s.threshold &&
                               forall i | 0 <= i < |loads| :: loads[p.choice.value.worker] <= loads[i]
  {
    if HasMail(s, mail) {
      OffsetIsFirstMinimum(loads, NextPivot(s.rotated, |loads|));
    }
  }

  // With all loads equal the pick is the pivot itself.
  lemma EqualLoadsPickPivot(loads: seq<nat>, pivot: nat)
    requires pivot < |loads|
    requires forall i | 0 <= i < |loads| :: loads[i] == loads[0]
    ensures Around(pivot, Offset(loads, pivot), |loads|) == pivot
  {
    OffsetIsFirstMinimum(loads, pivot);
    AroundNothing(pivot, |loads|);
    var d := Offset(loads, pivot);
    var atPick, atPivot := loads[Around(pivot, d, |loads|)], loads[Around(pivot, 0, |loads|)];
    assert atPick == loads[0] && atPivot == loads[0];
    assert d > 0 ==> atPick < atPivot;
  }

  lemma AroundNothing(pivot: nat, n: nat)
    requires pivot < n
    ensures Around(pivot, 0, n) == pivot
  {
  }

  // --- turns ----------------------------------------------------------------------------

  // With idle workers and no held mail a new mail goes to the new pivot.
  lemma IdlePlacement(s: State, n: nat, mail: Mail)
    requires n > 0 && s.threshold > 0 && s.mails == []
    ensures var idle := seq(n, _ => 0);
            var pivot := NextPivot(s.rotated, n);
            && Place(s, idle, Some(mail)) == Placement(State(pivot, [], s.threshold), Some(Choice(pivot, mail)))
            && Place(State(pivot, [], s.threshold), idle, None).state == State(pivot, [], s.threshold)
  {
    EqualLoadsPickPivot(seq(n, _ => 0), NextPivot(s.rotated, n));
  }

  lemma NextOfPivot(start: nat, n: nat)
    requires 0 < n <= SIZE_MODULUS
    ensures NextPivot(start % n, n) == (start + 1) % n
  {
    SuccessorModulo(start, n);
    TwiceModulo(start % n + 1, SIZE_MODULUS, n);
  }

  lemma TwiceModulo(x: nat, m: nat, n: nat)
    requires 0 < x <= n <= m
    ensures x % m % n == if x == n then 0 else x
  {
    if x < m {
      SmallModulo(x, m);
    } else {
      ModOfMultiple(1, m, 0);
      SmallModulo(0, n);
    }
    if x < n {
      SmallModulo(x, n);
    } else {
      ModOfMultiple(1, n, 0);
    }
  }

  lemma SuccessorModulo(start: nat, n: nat)
    requires n > 0
    ensures (start + 1) % n == if start % n + 1 == n then 0 else start % n + 1
  {
    var r, q := start % n, start / n;
    assert start == q * n + r;
    if r + 1 == n {
      assert start + 1 == (q + 1) * n + 0;
      ModOfMultiple(q + 1, n, 0);
    } else {
      ModOfMultiple(q, n, r + 1);
    }
  }

  lemma ModOfMultiple(q: nat, n: nat, r: nat)
    requires r < n
    ensures (q * n + r) % n == r
  {
    var x := q * n + r;
    var d := x / n;
    assert x == d * n + x % n;
    assert (d - q) * n == r - x % n;
    if d > q {
      AtLeastOnce(d - q, n);
    } else if d < q {
      AtLeastOnce(q - d, n);
    }
  }

  lemma AtLeastOnce(a: nat, n: nat)
    requires a > 0
    ensures a * n >= n
  {
  }

  // --- the policy object -----------------------------------------------------------------

  class MinLoad {
    var rotated: nat
    var mails: seq<Mail>
    const threshold: nat

    ghost function Value(): State
      reads this
    {
      State(rotated, mails, threshold)
    }

    constructor (threshold: nat)
      ensures Value() == Initial(threshold) && rotated == 0xFFFF_FFFF_FFFF_FFFF && mails == []
    {
      this.threshold := threshold;
      rotated := SIZE_MODULUS - 1;
      mails := [];
    }

    method Call(workers: seq<Actor>, loads: seq<nat>, mail: Option<Mail>)
      returns (to: Option<Actor>, next: Option<Mail>)
      requires |workers| == |loads|
      requires HasMail(Value(), mail) ==> loads != []
      modifies this
      ensures Value() == Place(old(Value()), loads, mail).state
      ensures var choice := Place(old(Value()), loads, mail).choice;
              if choice.Some? then to == Some(workers[choice.value.worker]) && next == Some(choice.value.mail)
              else to == None && next == None
    {
      if mail.None? && mails == [] {
        return None, None;
      }
      var copy := Rotate(loads);
      var selected := MinElement(copy);
      RotatedAt(loads, rotated, selected);
      if copy[selected] >= threshold {
        Hold(mail);
        return None, None;
      }
      next := Release(mail);
      to := Some(workers[(rotated + selected) % |workers|]);
    }

    method Rotate(loads: seq<nat>) returns (copy: seq<nat>)
      requires loads != []
      modifies this`rotated
      ensures rotated == NextPivot(old(rotated), |loads|)
      ensures copy == RotatedCopy(loads, rotated)
    {
      rotated := (rotated + 1) % SIZE_MODULUS % |loads|;
      copy := loads[rotated..] + loads[..rotated];
    }

    static method MinElement(s: seq<nat>) returns (k: nat)
      requires s != []
      ensures k == MinIndex(s)
    {
      k := 0;
      var i := 1;
      assert s[..1] == [s[0]];
      while i < |s|
        invariant 1 <= i <= |s|
        invariant k == MinIndex(s[..i])
      {
        assert s[..i + 1][..i] == s[..i];
        if s[i] < s[k] {
          k := i;
        }
        i := i + 1;
      }
      assert s[..i] == s;
    }

    method Hold(mail: Option<Mail>)
      modifies this`mails
      ensures mails == old(mails) + Listed(mail)
    {
      if mail.Some? {
        mails := mails + [mail.value];
      }
    }

    method Release(mail: Option<Mail>) returns (next: Option<Mail>)
      requires HasMail(Value(), mail)
      modifies this`mails
      ensures next.Some? && [next.value] + mails == old(mails) + Listed(mail)
    {
      if mails == [] {
        return mail;
      }
      if mail.Some? {
        mails := mails + [mail.value];
      }
      next := Some(mails[0]);
      mails := mails[1..];
    }
  }
}
