// How the router spreads mail over its workers, in whole runs: round robin while every mail is answered before
// the next arrives, and balance when nothing is answered at all.
module RouterFairness {
  import opened Mailbox
  import Policy
  import opened Router
  import opened RouterRuns

  // New mail for the policy.
  predicate Arrival(m: Mail) {
    m.content.Body? && !m.mid.Response?
  }

  // --- balance ---------------------------------------------------------------------------------

  ghost predicate Balanced(w: World)
    requires Valid(w.router)
  {
    forall a, b | a in w.router.workers && b in w.router.workers :: w.router.loads[a] <= w.router.loads[b] + 1
  }

  lemma ArrivalKeepsBalance(w: World, m: Mail)
    requires Good(w) && Balanced(w) && Legal(w, m) && Arrival(m)
    ensures var c := Advance(w, m);
            Good(c) && Balanced(c) && c.router.workers == w.router.workers
  {
    AdvanceGood(w, m);
    if !Rejected(w.router, m) {
      PlaceKeepsBalance(w, Some(m));
    }
  }

  lemma PlaceKeepsBalance(w: World, mail: Option<Mail>)
    requires Ordered(w) && Ticketed(w) && Placeable(w, mail) && Balanced(w)
    ensures var c := Place(w, mail);
            Valid(c.router) && Balanced(c) && c.router.workers == w.router.workers
  {
    NumbersAreFresh(w);
    var picked := PlaceEffect(w, mail);
  }

  /** With fixed workers and nothing but arrivals, registered loads within one of each other stay so. */
  lemma {:induction false} ArrivalsStayBalanced(w: World, ms: seq<Mail>)
    requires Good(w) && Balanced(w) && LegalRun(w, ms) && forall m | m in ms :: Arrival(m)
    ensures var e := Run(w, ms);
            Good(e) && Balanced(e) && e.router.workers == w.router.workers
    decreases |ms|
  {
    if ms != [] {
      assert ms[0] in ms;
      ArrivalKeepsBalance(w, ms[0]);
      ArrivalsStayBalanced(Advance(w, ms[0]), ms[1..]);
    }
  }

  // --- one mail at a time ------------------------------------------------------------------------

  // Nothing is held, nothing is unanswered and all registered loads are zero.
  ghost predicate Idle(w: World) {
    && Good(w) && w.router.policy.mails == []
    && (forall i | 0 <= i < |w.relays| :: i in w.answers)
    && (forall a | a in w.router.workers :: w.router.loads[a] == 0)
  }

  // The last relay, and no other, is unanswered; its worker's load is one.
  ghost predicate Busy(w: World) {
    && Good(w) && w.router.policy.mails == [] && w.relays != []
    && (forall i | 0 <= i < |w.relays| :: i in w.answers <==> i < |w.relays| - 1)
    && w.relays[|w.relays| - 1].worker in w.router.workers
    && (forall a | a in w.router.workers :: w.router.loads[a] == if a == w.relays[|w.relays| - 1].worker then 1 else 0)
  }

  // The pool and the threshold are those of `w`.
  predicate SamePool(w: World, c: World) {
    c.router.workers == w.router.workers && c.router.policy.threshold == w.router.policy.threshold
  }

  lemma IdleLoads(w: World)
    requires Idle(w)
    ensures LoadList(w.router) == seq(|w.router.workers|, _ => 0)
  {
    forall i | 0 <= i < |w.router.workers|
      ensures LoadList(w.router)[i] == 0
    {
      assert w.router.workers[i] in w.router.workers;
    }
  }

  // What an idle router does with new mail.
  lemma IdleDispatch(w: World, m: Mail)
    requires Idle(w) && w.router.workers != [] && w.router.policy.threshold > 0 && Arrival(m)
    ensures var n, pivot := |w.router.workers|, Policy.NextPivot(w.router.policy.rotated, |w.router.workers|);
            var a, c := w.router.workers[pivot], Place(w, Some(m));
            && c.router.policy == Policy.State(pivot, [], w.router.policy.threshold)
            && c.router.workers == w.router.workers && c.answers == w.answers
            && c.router.loads == w.router.loads[a := w.router.loads[a] + 1]
            && |c.relays| == |w.relays| + 1 && c.relays[..|w.relays|] == w.relays && c.relays[|w.relays|].worker == a
  {
    IdleLoads(w);
    Policy.IdlePlacement(w.router.policy, |w.router.workers|, m);
    DispatchFollowsPolicy(w.router, Some(m));
    assert RelaysIn([]) == [] && Dispatch(w.router, Some(m)).sends[1..] == [];
  }

  lemma IdleArrival(w: World, m: Mail)
    requires Idle(w) && w.router.workers != [] && w.router.policy.threshold > 0 && Legal(w, m) && Arrival(m)
    ensures var c := Advance(w, m);
            var pivot := Policy.NextPivot(w.router.policy.rotated, |w.router.workers|);
            && Busy(c) && SamePool(w, c) && c.router.policy.rotated == pivot
            && |c.relays| == |w.relays| + 1 && c.relays[..|w.relays|] == w.relays
            && c.relays[|w.relays|].worker == w.router.workers[pivot]
  {
    AdvanceGood(w, m);
    IdleDispatch(w, m);
  }

  lemma BusyAnswer(w: World, m: Mail)
    requires Busy(w) && Legal(w, m) && IsAnswer(m)
    ensures var c := Advance(w, m);
            Idle(c) && SamePool(w, c) && c.router.policy.rotated == w.router.policy.rotated && c.relays == w.relays
  {
    AnswerGood(w, m);
    var c := TakeAnswer(w, m);
    AllAnswered(w, c, IndexOf(m), m.content);
    NothingToPlace(c);
  }

  lemma AllAnswered(w: World, c: World, i: nat, content: Content)
    requires Valid(w.router) && Answered(w, c, i, content)
    requires forall k | 0 <= k < |w.relays| :: k in w.answers <==> k < |w.relays| - 1
    requires forall a | a in w.router.workers :: w.router.loads[a] == if a == w.relays[|w.relays| - 1].worker then 1 else 0
    ensures forall k | 0 <= k < |c.relays| :: k in c.answers
    ensures forall a | a in c.router.workers :: c.router.loads[a] == 0
  {
    assert i == |w.relays| - 1;
  }

  lemma NothingToPlace(w: World)
    requires Valid(w.router) && w.router.policy.mails == []
    ensures Place(w, None) == w
  {
    assert RelaysIn([]) == [] && w.relays + [] == w.relays && w.arrivals + [] == w.arrivals;
  }

  // --- round robin -----------------------------------------------------------------------------------

  // New mail, its answer, new mail, its answer, and so on.
  predicate Alternating(ms: seq<Mail>)
    decreases |ms|
  {
    ms == [] || (Arrival(ms[0]) && (|ms| == 1 || (IsAnswer(ms[1]) && Alternating(ms[2..]))))
  }

  function Turn(k: nat, n: nat): (i: nat)
    requires n > 0
    ensures i < n
  {
    k % n
  }

  // Workers take turns from relay `from` on.
  predicate InTurn(relays: seq<Relay>, workers: seq<Actor>, from: nat) {
    workers != [] && forall k | from <= k < |relays| :: relays[k].worker == workers[Turn(k, |workers|)]
  }

  // The next pick is the worker whose turn it is.
  predicate OnTurn(w: World) {
    && 0 < |w.router.workers| <= Policy.SIZE_MODULUS && w.router.policy.threshold > 0
    && Policy.NextPivot(w.router.policy.rotated, |w.router.workers|) == Turn(|w.relays|, |w.router.workers|)
  }

  // New mail and its answer: the worker whose turn it is gets the mail, and the turn passes on.
  lemma Exchange(w: World, x: Mail, y: Mail)
    requires Idle(w) && OnTurn(w) && Legal(w, x) && Arrival(x)
    requires Valid(Advance(w, x).router) && Legal(Advance(w, x), y) && IsAnswer(y)
    ensures var d := Advance(Advance(w, x), y);
            && Idle(d) && OnTurn(d) && SamePool(w, d)
            && |d.relays| == |w.relays| + 1 && d.relays[..|w.relays|] == w.relays
            && d.relays[|w.relays|].worker == w.router.workers[Turn(|w.relays|, |w.router.workers|)]
  {
    IdleArrival(w, x);
    BusyAnswer(Advance(w, x), y);
    NextOnTurn(w, Advance(Advance(w, x), y));
  }

  // Such runs can always go on: any new mail may come in, and then its answer.
  lemma ExchangeIsLegal(w: World, x: Mail, text: string)
    requires Idle(w) && w.router.workers != [] && w.router.policy.threshold > 0 && Arrival(x)
    ensures Legal(w, x)
    ensures var c := Advance(w, x);
            Unanswered(c, |w.relays|) && Legal(c, AnswerTo(c, |w.relays|, text)) && IsAnswer(AnswerTo(c, |w.relays|, text))
  {
    IdleArrival(w, x);
    UnansweredCanAnswer(Advance(w, x), |w.relays|, text);
  }

  lemma {:induction false} RoundRobinFrom(w: World, ms: seq<Mail>)
    requires Idle(w) && OnTurn(w) && LegalRun(w, ms) && Alternating(ms)
    ensures var e := Run(w, ms);
            && |e.relays| == |w.relays| + (|ms| + 1) / 2 && e.relays[..|w.relays|] == w.relays
            && InTurn(e.relays, w.router.workers, |w.relays|)
    decreases |ms|
  {
    if |ms| == 1 {
      LastArrival(w, ms);
    } else if |ms| > 1 {
      var d := FirstExchange(w, ms);
      RoundRobinFrom(d, ms[2..]);
      OneMoreInTurn(w.relays, d.relays, Run(d, ms[2..]).relays, w.router.workers);
    }
  }

  lemma LastArrival(w: World, ms: seq<Mail>)
    requires Idle(w) && OnTurn(w) && LegalRun(w, ms) && Alternating(ms) && |ms| == 1
    ensures var e := Run(w, ms);
            && |e.relays| == |w.relays| + 1 && e.relays[..|w.relays|] == w.relays
            && InTurn(e.relays, w.router.workers, |w.relays|)
  {
    RunOne(w, ms);
    IdleRelay(w, Run(w, ms), ms[0]);
    TurnTaken(w.relays, Run(w, ms).relays, w.router.workers);
  }

  // The relay alone.
  lemma IdleRelay(w: World, c: World, m: Mail)
    requires Idle(w) && OnTurn(w) && Legal(w, m) && Arrival(m) && c == Advance(w, m)
    ensures |c.relays| == |w.relays| + 1 && c.relays[..|w.relays|] == w.relays
    ensures c.relays[|w.relays|].worker == w.router.workers[Turn(|w.relays|, |w.router.workers|)]
  {
    IdleArrival(w, m);
  }

  lemma TurnTaken(before: seq<Relay>, after: seq<Relay>, workers: seq<Actor>)
    requires |after| == |before| + 1 && workers != [] && after[|before|].worker == workers[Turn(|before|, |workers|)]
    ensures InTurn(after, workers, |before|)
  {
  }

  lemma RunOne(w: World, ms: seq<Mail>)
    requires LegalRun(w, ms) && |ms| == 1
    ensures Valid(w.router) && Legal(w, ms[0]) && Run(w, ms) == Advance(w, ms[0])
  {
    assert ms[1..] == [];
  }

  lemma FirstExchange(w: World, ms: seq<Mail>) returns (d: World)
    requires Idle(w) && OnTurn(w) && LegalRun(w, ms) && Alternating(ms) && |ms| > 1
    ensures Idle(d) && OnTurn(d) && SamePool(w, d)
    ensures |d.relays| == |w.relays| + 1 && d.relays[..|w.relays|] == w.relays
    ensures d.relays[|w.relays|].worker == w.router.workers[Turn(|w.relays|, |w.router.workers|)]
    ensures LegalRun(d, ms[2..]) && Alternating(ms[2..]) && Run(w, ms) == Run(d, ms[2..])
  {
    TwoSteps(w, ms);
    Exchange(w, ms[0], ms[1]);
    d := Advance(Advance(w, ms[0]), ms[1]);
  }

  lemma TwoSteps(w: World, ms: seq<Mail>)
    requires LegalRun(w, ms) && |ms| > 1
    ensures Valid(w.router) && Legal(w, ms[0])
    ensures var c := Advance(w, ms[0]);
            && Valid(c.router) && Legal(c, ms[1])
            && LegalRun(Advance(c, ms[1]), ms[2..]) && Run(w, ms) == Run(Advance(c, ms[1]), ms[2..])
  {
    assert ms[1..][0] == ms[1] && ms[1..][1..] == ms[2..];
  }

  lemma NextOnTurn(w: World, d: World)
    requires OnTurn(w) && SamePool(w, d) && |d.relays| == |w.relays| + 1
    requires d.router.policy.rotated == Policy.NextPivot(w.router.policy.rotated, |w.router.workers|)
    ensures OnTurn(d)
  {
    Policy.NextOfPivot(|w.relays|, |w.router.workers|);
  }

  lemma OneMoreInTurn(before: seq<Relay>, mid: seq<Relay>, after: seq<Relay>, workers: seq<Actor>)
    requires |mid| == |before| + 1 && mid[..|before|] == before && |mid| <= |after| && after[..|mid|] == mid
    requires workers != [] && mid[|before|].worker == workers[Turn(|before|, |workers|)] && InTurn(after, workers, |mid|)
    ensures after[..|before|] == before && InTurn(after, workers, |before|)
  {
    assert after[..|mid|][..|before|] == after[..|before|];
    assert after[|before|] == after[..|mid|][|before|];
  }

  // --- from the start ------------------------------------------------------------------------------------

  predicate Puts(ps: seq<Mail>, ws: seq<Actor>) {
    |ps| == |ws| && forall i | 0 <= i < |ps| :: ps[i].content == Put(ws[i])
  }

  // Workers have joined and nothing else has happened.
  ghost predicate Fresh(w: World, threshold: nat, workers: seq<Actor>) {
    && Idle(w) && w.relays == [] && w.removed == {} && w.router.workers == workers
    && w.router.policy == Policy.Initial(threshold)
  }

  lemma FreshPut(w: World, threshold: nat, workers: seq<Actor>, m: Mail, a: Actor)
    requires Fresh(w, threshold, workers) && a !in workers && m.content == Put(a)
    ensures Legal(w, m) && Fresh(Advance(w, m), threshold, workers + [a])
  {
    AdvanceGood(w, m);
    assert a !in w.router.loads;
    assert Members(workers) - Members(workers + [a]) == {};
  }

  lemma {:induction false} FreshPuts(w: World, threshold: nat, workers: seq<Actor>, ps: seq<Mail>, ws: seq<Actor>)
    requires Fresh(w, threshold, workers) && Puts(ps, ws) && Distinct(workers + ws)
    ensures LegalRun(w, ps) && Fresh(Run(w, ps), threshold, workers + ws)
    decreases |ps|
  {
    if ps == [] {
      assert workers + ws == workers;
    } else {
      FirstIsNew(workers, ws);
      var c := FirstPut(w, threshold, workers, ps, ws[0]);
      RestOfPuts(workers, ps, ws);
      FreshPuts(c, threshold, workers + [ws[0]], ps[1..], ws[1..]);
    }
  }

  lemma FirstPut(w: World, threshold: nat, workers: seq<Actor>, ps: seq<Mail>, a: Actor) returns (c: World)
    requires Fresh(w, threshold, workers) && a !in workers && ps != [] && ps[0].content == Put(a)
    ensures Fresh(c, threshold, workers + [a])
    ensures LegalRun(c, ps[1..]) ==> LegalRun(w, ps) && Run(w, ps) == Run(c, ps[1..])
  {
    FreshPut(w, threshold, workers, ps[0], a);
    c := Advance(w, ps[0]);
  }

  lemma RestOfPuts(workers: seq<Actor>, ps: seq<Mail>, ws: seq<Actor>)
    requires Puts(ps, ws) && ps != []
    ensures Puts(ps[1..], ws[1..]) && ps[0].content == Put(ws[0]) && workers + [ws[0]] + ws[1..] == workers + ws
  {
  }

  lemma FirstIsNew(workers: seq<Actor>, ws: seq<Actor>)
    requires Distinct(workers + ws) && ws != []
    ensures ws[0] !in workers
  {
    assert (workers + ws)[|workers|] == ws[0];
    assert forall i | 0 <= i < |workers| :: (workers + ws)[i] == workers[i];
  }

  lemma {:induction false} RunSplit(w: World, ms: seq<Mail>, more: seq<Mail>)
    requires LegalRun(w, ms + more)
    ensures LegalRun(w, ms) && LegalRun(Run(w, ms), more) && Run(w, ms + more) == Run(Run(w, ms), more)
    decreases |ms|
  {
    if ms == [] {
      assert ms + more == more;
    } else {
      assert (ms + more)[0] == ms[0] && (ms + more)[1..] == ms[1..] + more;
      RunSplit(Advance(w, ms[0]), ms[1..], more);
    }
  }

  /** From the start, whose counter is the largest 64-bit number: after workers `ws` have joined, if every mail is
      answered before the next arrives, the k-th mail, counted from 0, goes to worker k modulo their number. */
  lemma RoundRobin(threshold: nat, ps: seq<Mail>, ws: seq<Actor>, ms: seq<Mail>)
    requires 0 < threshold < Policy.SIZE_MODULUS && 0 < |ws| <= Policy.SIZE_MODULUS && Distinct(ws) && Puts(ps, ws)
    requires LegalRun(Start(threshold), ps + ms) && Alternating(ms)
    ensures var e := Run(Start(threshold), ps + ms);
            |e.relays| == (|ms| + 1) / 2 && forall k | 0 <= k < |e.relays| :: e.relays[k].worker == ws[Turn(k, |ws|)]
  {
    var w := Start(threshold);
    StartGood(threshold);
    assert [] + ws == ws;
    FreshPuts(w, threshold, [], ps, ws);
    RunSplit(w, ps, ms);
    FreshRoundRobin(Run(w, ps), threshold, ws, ms);
  }

  lemma FreshRoundRobin(w: World, threshold: nat, ws: seq<Actor>, ms: seq<Mail>)
    requires Fresh(w, threshold, ws) && 0 < |ws| <= Policy.SIZE_MODULUS && threshold > 0
    requires LegalRun(w, ms) && Alternating(ms)
    ensures |Run(w, ms).relays| == (|ms| + 1) / 2 && InTurn(Run(w, ms).relays, ws, 0)
  {
    FirstTurn(|ws|);
    RoundRobinFrom(w, ms);
  }

  lemma FirstTurn(n: nat)
    requires 0 < n <= Policy.SIZE_MODULUS
    ensures Policy.NextPivot(Policy.SIZE_MODULUS - 1, n) == Turn(0, n)
  {
    Policy.SmallModulo(0, n);
  }
}
