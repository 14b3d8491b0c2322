// The minimum by rounds: the numbers are cut into batches of three, the batch minima, in
// whatever order they come back, are the numbers of the next round.
module Reduction {
  import opened Rounds
  import T = Triangle

  type Msg = Message<seq<int>>  // to itself: the numbers of a round

  const BATCH := 3

  datatype State = State(count: nat, current: map<nat, int>)

  datatype Effect = Effect(state: State, sent: seq<Msg>, out: seq<int>)

  // --- the handlers ------------------------------------------------------------------------

  function BatchCount(len: nat): (n: nat)
    ensures len > 1 ==> 0 < n < len
    ensures len > 0 ==> n > 0
    ensures (n - 1) * BATCH < len || len == 0
    ensures len <= n * BATCH
  {
    len / BATCH + if len % BATCH != 0 then 1 else 0
  }

  function BatchOf(data: seq<int>, k: nat): (b: seq<int>)
    requires k < BatchCount(|data|)
    ensures b != []
  {
    data[k * BATCH..if k * BATCH + BATCH < |data| then k * BATCH + BATCH else |data|]
  }

  function Batches(data: seq<int>): (r: seq<Task>)
    ensures |r| == BatchCount(|data|) && Numbered(r)
  {
    seq(BatchCount(|data|), k requires 0 <= k < BatchCount(|data|) => Batch(BatchOf(data, k), k))
  }

  predicate IsLeastKey(k: nat, keys: set<nat>) {
    k in keys && forall j | j in keys :: k <= j
  }

  lemma {:induction false} LeastKeyExists(keys: set<nat>)
    requires keys != {}
    ensures exists k :: IsLeastKey(k, keys)
  {
    var x :| x in keys;
    if keys - {x} == {} {
      assert keys == {x} && IsLeastKey(x, keys);
    } else {
      LeastKeyExists(keys - {x});
      var y :| IsLeastKey(y, keys - {x});
      var k := if x < y then x else y;
      forall j | j in keys
        ensures k <= j
      {
        assert j == x || j in keys - {x};
      }
      assert IsLeastKey(k, keys);
    }
  }

  // The values under some keys of a `std::map`, in key order.
  ghost function InKeyOrder(m: map<nat, int>, keys: set<nat>): seq<int>
    requires keys <= m.Keys
    decreases |keys|
  {
    if keys == {} then [] else
      LeastKeyExists(keys);
      var k :| IsLeastKey(k, keys);
      [m[k]] + InKeyOrder(m, keys - {k})
  }

  ghost function OnData(data: seq<int>): Effect {
    if |data| == 1 then Effect(State(0, map[]), [], [data[0]])
    else Effect(State(BatchCount(|data|), map[]), ToWorkers(Batches(data)), [])
  }

  ghost function OnResult(s: State, value: int, id: nat): Effect {
    var current := if id in s.current then s.current else s.current[id := value];
    Effect(s.(current := current), if s.count == |current| then [ToSelf(InKeyOrder(current, current.Keys))] else [], [])
  }

  /** A second answer for a batch is ignored: the first one stays. */
  lemma SecondAnswerIgnored(s: State, first: int, second: int, id: nat)
    requires id !in s.current
    ensures var t := OnResult(s, first, id).state;
            id in t.current && t.current[id] == first && OnResult(t, second, id).state == t
            && forall k | k != id :: (k in t.current <==> k in s.current) && (k in s.current ==> t.current[k] == s.current[k])
  {
  }

  // --- what a round computes ------------------------------------------------------------------

  function Minima(data: seq<int>): (r: seq<int>)
    ensures |r| == BatchCount(|data|)
  {
    seq(BatchCount(|data|), k requires 0 <= k < BatchCount(|data|) => T.MinOf(BatchOf(data, k)))
  }

  /** A round keeps the minimum and leaves one number for every three begun; from two numbers on, fewer than before. */
  lemma MinimaKeepMinimum(data: seq<int>)
    requires data != []
    ensures |Minima(data)| == (|data| + 2) / 3
    ensures Minima(data) != [] && T.MinOf(Minima(data)) == T.MinOf(data)
    ensures |data| > 1 ==> |Minima(data)| < |data|
  {
    var mins := Minima(data);
    var i :| 0 <= i < |data| && data[i] == T.MinOf(data);
    var k := i / BATCH;
    InItsBatch(data, i);
    var b := BatchOf(data, k);
    assert b[i - k * BATCH] == data[i] && data[i] in b;
    assert mins[k] in mins && mins[k] <= data[i];
    forall x | x in mins
      ensures T.MinOf(data) <= x
    {
      var j :| 0 <= j < |mins| && mins[j] == x;
      assert x in BatchOf(data, j);
      assert x in data;
    }
    assert mins[k] == data[i];
    T.MinOfUnique(mins, data[i]);
  }

  lemma InItsBatch(data: seq<int>, i: nat)
    requires i < |data|
    ensures i / BATCH < BatchCount(|data|)
    ensures i / BATCH * BATCH <= i < i / BATCH * BATCH + BATCH
  {
  }

  // Keys j, ..., n - 1 in order.
  lemma {:induction false} ConsecutiveKeys(m: map<nat, int>, keys: set<nat>, j: nat, n: nat)
    requires keys <= m.Keys && j <= n && forall k: nat :: k in keys <==> j <= k < n
    ensures |InKeyOrder(m, keys)| == n - j
    ensures forall i | 0 <= i < n - j :: InKeyOrder(m, keys)[i] == m[j + i]
    decreases n - j
  {
    if j == n {
      assert keys == {};
    } else {
      assert j in keys;
      LeastKeyExists(keys);
      var k :| IsLeastKey(k, keys) && InKeyOrder(m, keys) == [m[k]] + InKeyOrder(m, keys - {k});
      assert k == j;
      ConsecutiveKeys(m, keys - {j}, j + 1, n);
    }
  }

  // --- the actor and its messages -----------------------------------------------------------------

  datatype World = World(actor: State, inflight: multiset<Msg>, out: seq<int>)

  // A client's numbers arrive at an actor in any state.
  function Begin(s: State, data: seq<int>): World {
    World(s, multiset{ToSelf(data)}, [])
  }

  ghost function Handle(w: World, m: Msg, e: Effect): World {
    World(e.state, w.inflight - multiset{m} + multiset(e.sent), w.out + e.out)
  }

  ghost function Deliver(w: World, m: Msg): World
    requires m in w.inflight
  {
    match m
    case ToWorker(task) => w.(inflight := w.inflight - multiset{m} + multiset{Answer(task)})
    case Result(value, id) => Handle(w, m, OnResult(w.actor, value, id))
    case ToSelf(data) => Handle(w, m, OnData(data))
  }

  ghost predicate LegalRun(w: World, ms: seq<Msg>)
    decreases |ms|
  {
    ms != [] ==> ms[0] in w.inflight && LegalRun(Deliver(w, ms[0]), ms[1..])
  }

  ghost function Run(w: World, ms: seq<Msg>): World
    requires LegalRun(w, ms)
    decreases |ms|
  {
    if ms == [] then w else Run(Deliver(w, ms[0]), ms[1..])
  }

  datatype Phase = InRoundOf(data: seq<int>) | Between(data: seq<int>) | Finished

  ghost predicate RightResults(data: seq<int>, current: map<nat, int>) {
    forall k | k in current :: k < BatchCount(|data|) && current[k] == T.MinOf(BatchOf(data, k))
  }

  // A round over `data` is under way; `min` is the minimum of the numbers that came in.
  ghost predicate Computing(min: int, w: World, data: seq<int>) {
    && |data| > 1 && T.MinOf(data) == min
    && w.actor.count == BatchCount(|data|)
    && RightResults(data, w.actor.current) && |w.actor.current| < BatchCount(|data|)
    && InRound(w.inflight, Batches(data), w.actor.current.Keys)
    && w.out == []
  }

  ghost predicate HandingOver(min: int, w: World, data: seq<int>) {
    data != [] && T.MinOf(data) == min && w.inflight == multiset{ToSelf(data)} && w.out == []
  }

  ghost predicate Solved(min: int, w: World) {
    w.actor == State(0, map[]) && w.inflight == multiset{} && w.out == [min]
  }

  ghost predicate At(min: int, w: World, phase: Phase) {
    match phase
    case InRoundOf(data) => Computing(min, w, data)
    case Between(data) => HandingOver(min, w, data)
    case Finished => Solved(min, w)
  }

  // Deliveries after `len` numbers were handed over.
  function Later(len: nat): nat {
    if len <= 1 then 0 else 2 * BatchCount(len) + 1 + Later(BatchCount(len))
  }

  function JobLength(len: nat): nat {
    1 + Later(len)
  }

  ghost function Remaining(w: World, phase: Phase): nat {
    match phase
    case InRoundOf(data) => Deliveries(w.inflight, Batches(data), w.actor.current.Keys) + 1 + Later(BatchCount(|data|))
    case Between(data) => 1 + Later(|data|)
    case Finished => 0
  }

  lemma InFlight(min: int, w: World, phase: Phase, m: Msg)
    requires At(min, w, phase) && m in w.inflight
    ensures if m.ToSelf? then phase.Between? && m == ToSelf(phase.data) else phase.InRoundOf?
  {
    if phase.InRoundOf? && Belongs(m, Batches(phase.data)) {
      assert !m.ToSelf?;
    }
  }

  lemma WorkerDelivery(min: int, w: World, data: seq<int>, m: Msg)
    requires Computing(min, w, data) && m in w.inflight && m.ToWorker?
    ensures Computing(min, Deliver(w, m), data)
    ensures Remaining(Deliver(w, m), InRoundOf(data)) == Remaining(w, InRoundOf(data)) - 1
  {
    WorkerStep(w.inflight, Batches(data), w.actor.current.Keys, m.task);
  }

  lemma AnswerDelivery(min: int, w: World, data: seq<int>, m: Msg) returns (next: Phase)
    requires Computing(min, w, data) && m in w.inflight && m.Result?
    ensures At(min, Deliver(w, m), next)
    ensures Remaining(Deliver(w, m), next) == Remaining(w, InRoundOf(data)) - 1
  {
    var after, current := w.inflight - multiset{m}, w.actor.current[m.id := m.value];
    AnswerArrives(data, w.inflight, w.actor.current, m, after, current);
    RoundComplete(data, after, current);
    if |current| == w.actor.count {
      CollectedMinima(data, current);
      LastEffect(w, m, current, Minima(data));
      LastAnswer(min, w, data, Deliver(w, m));
      next := Between(Minima(data));
    } else {
      MoreEffect(w, m, after, current);
      MoreAnswers(min, w, data, after, Deliver(w, m));
      next := InRoundOf(data);
    }
  }

  lemma AnswerArrives(data: seq<int>, inflight: multiset<Msg>, before: map<nat, int>, m: Msg,
                      after: multiset<Msg>, current: map<nat, int>)
    requires RightResults(data, before) && InRound(inflight, Batches(data), before.Keys)
    requires m in inflight && m.Result? && after == inflight - multiset{m} && current == before[m.id := m.value]
    ensures m.id !in before && RightResults(data, current) && InRound(after, Batches(data), current.Keys)
    ensures Deliveries(after, Batches(data), current.Keys) + 1 == Deliveries(inflight, Batches(data), before.Keys)
  {
    AnswerStep(inflight, Batches(data), before.Keys, m);
    assert current.Keys == before.Keys + {m.id};
    ResultsGrow(data, before, m.id, m.value);
  }

  lemma RoundComplete(data: seq<int>, after: multiset<Msg>, current: map<nat, int>)
    requires RightResults(data, current) && InRound(after, Batches(data), current.Keys)
    ensures |current| <= BatchCount(|data|)
    ensures |current| == BatchCount(|data|) ==>
              && after == multiset{} && Deliveries(after, Batches(data), current.Keys) == 0
              && Covered(current.Keys, BatchCount(|data|))
  {
    FullWhenCounted(current.Keys, BatchCount(|data|));
    assert |current| == |current.Keys|;
    if |current| == BatchCount(|data|) {
      RoundEnds(after, Batches(data), current.Keys);
    }
  }

  lemma ResultsGrow(data: seq<int>, current: map<nat, int>, id: nat, value: int)
    requires RightResults(data, current) && id < BatchCount(|data|) && value == Work(Batches(data)[id])
    ensures RightResults(data, current[id := value])
  {
  }

  lemma LastAnswer(min: int, w: World, data: seq<int>, c: World)
    requires Computing(min, w, data) && Deliveries(w.inflight, Batches(data), w.actor.current.Keys) == 1
    requires c.inflight == multiset{ToSelf(Minima(data))} && c.out == w.out
    ensures HandingOver(min, c, Minima(data))
    ensures Remaining(c, Between(Minima(data))) == Remaining(w, InRoundOf(data)) - 1
  {
    MinimaKeepMinimum(data);
  }

  lemma MoreAnswers(min: int, w: World, data: seq<int>, after: multiset<Msg>, c: World)
    requires Computing(min, w, data) && c == World(State(w.actor.count, c.actor.current), after, w.out)
    requires RightResults(data, c.actor.current) && |c.actor.current| < BatchCount(|data|)
    requires InRound(after, Batches(data), c.actor.current.Keys)
    requires Deliveries(after, Batches(data), c.actor.current.Keys) + 1 == Deliveries(w.inflight, Batches(data), w.actor.current.Keys)
    ensures Computing(min, c, data) && Remaining(c, InRoundOf(data)) == Remaining(w, InRoundOf(data)) - 1
  {
  }

  lemma CollectedMinima(data: seq<int>, current: map<nat, int>)
    requires RightResults(data, current) && Covered(current.Keys, BatchCount(|data|))
    ensures InKeyOrder(current, current.Keys) == Minima(data)
  {
    ConsecutiveKeys(current, current.Keys, 0, BatchCount(|data|));
  }

  lemma LastEffect(w: World, m: Msg, current: map<nat, int>, data: seq<int>)
    requires m in w.inflight && m.Result? && m.id !in w.actor.current && w.inflight - multiset{m} == multiset{}
    requires current == w.actor.current[m.id := m.value] && w.actor.count == |current|
    requires InKeyOrder(current, current.Keys) == data
    ensures Deliver(w, m) == World(State(w.actor.count, current), multiset{ToSelf(data)}, w.out)
  {
    var next: Msg := ToSelf(data);
    assert multiset([next]) == multiset{next} && multiset{} + multiset{next} == multiset{next};
  }

  lemma MoreEffect(w: World, m: Msg, after: multiset<Msg>, current: map<nat, int>)
    requires m in w.inflight && m.Result? && m.id !in w.actor.current && after == w.inflight - multiset{m}
    requires current == w.actor.current[m.id := m.value] && w.actor.count != |current|
    ensures Deliver(w, m) == World(State(w.actor.count, current), after, w.out)
  {
    var none: seq<Msg> := [];
    assert multiset(none) == multiset{} && after + multiset{} == after;
  }

  lemma DataDelivery(min: int, w: World, data: seq<int>, m: Msg) returns (next: Phase)
    requires HandingOver(min, w, data) && m == ToSelf(data)
    ensures At(min, Deliver(w, m), next)
    ensures Remaining(Deliver(w, m), next) == Remaining(w, Between(data)) - 1
  {
    DataEffect(w, m, data);
    if |data| == 1 {
      next := Finished;
    } else {
      RoundBegins<seq<int>>(Batches(data));
      var none: map<nat, int> := map[];
      assert none.Keys == {};
      next := InRoundOf(data);
    }
  }

  lemma DataEffect(w: World, m: Msg, data: seq<int>)
    requires w.inflight == multiset{m} && m == ToSelf(data)
    ensures Deliver(w, m) == World(OnData(data).state, multiset(OnData(data).sent), w.out + OnData(data).out)
  {
    assert w.inflight - multiset{m} == multiset{};
    assert multiset{} + multiset(OnData(data).sent) == multiset(OnData(data).sent);
  }

  lemma OneDelivery(min: int, w: World, phase: Phase, m: Msg) returns (next: Phase)
    requires At(min, w, phase) && m in w.inflight
    ensures At(min, Deliver(w, m), next) && Remaining(Deliver(w, m), next) == Remaining(w, phase) - 1
  {
    InFlight(min, w, phase, m);
    match m {
      case ToWorker(_) =>
        WorkerDelivery(min, w, phase.data, m);
        next := phase;
      case Result(_, _) => next := AnswerDelivery(min, w, phase.data, m);
      case ToSelf(_) => next := DataDelivery(min, w, phase.data, m);
    }
  }

  lemma {:induction false} RunPhase(min: int, w: World, phase: Phase, ms: seq<Msg>) returns (last: Phase)
    requires At(min, w, phase) && LegalRun(w, ms)
    ensures At(min, Run(w, ms), last) && Remaining(Run(w, ms), last) == Remaining(w, phase) - |ms|
    decreases |ms|
  {
    if ms == [] {
      last := phase;
    } else {
      var next := OneDelivery(min, w, phase, ms[0]);
      last := RunPhase(min, Deliver(w, ms[0]), next, ms[1..]);
    }
  }

  lemma PhaseMeaning(min: int, w: World, phase: Phase)
    requires At(min, w, phase)
    ensures Remaining(w, phase) == 0 <==> phase.Finished?
    ensures phase.Finished? <==> w.inflight == multiset{}
    ensures !phase.Finished? ==> w.out == []
  {
    if phase.InRoundOf? {
      RoundGoesOn(w.inflight, Batches(phase.data), w.actor.current.Keys);
    } else if phase.Between? {
      assert ToSelf(phase.data) in w.inflight;
    }
  }

  /** For every order of deliveries: the reduction of a non-empty list takes exactly `JobLength` of
      them and reports once, at the last one, the minimum of the original numbers. */
  lemma EveryOrderReduces(s: State, data: seq<int>, ms: seq<Msg>)
    requires data != [] && LegalRun(Begin(s, data), ms)
    ensures var w := Run(Begin(s, data), ms);
            && |ms| <= JobLength(|data|)
            && (|ms| < JobLength(|data|) ==> w.inflight != multiset{} && w.out == [])
            && (|ms| == JobLength(|data|) ==> Solved(T.MinOf(data), w))
  {
    var last := RunPhase(T.MinOf(data), Begin(s, data), Between(data), ms);
    PhaseMeaning(T.MinOf(data), Run(Begin(s, data), ms), last);
  }

  /** The empty list is the one input for which nothing is ever reported: no batch is sent. */
  lemma EmptyNeverReports(s: State)
    ensures Deliver(Begin(s, []), ToSelf([])) == World(State(0, map[]), multiset{}, [])
  {
    DataEffect(Begin(s, []), ToSelf([]), []);
  }

  // --- the actor object -----------------------------------------------------------------------------

  class GetFinalResultActor {
    var count: nat
    var current: map<nat, int>

    ghost function Value(): State
      reads this
    {
      State(count, current)
    }

    constructor ()
      ensures Value() == State(0, map[])
    {
      count := 0;
      current := map[];
    }

    method HandleData(data: seq<int>) returns (sent: seq<Msg>, out: seq<int>)
      modifies this
      ensures Value() == OnData(data).state && sent == OnData(data).sent && out == OnData(data).out
    {
      sent, out := [], [];
      var len := |data|;
      if 1 == len {
        out := [data[0]];
        count := 0;
        current := map[];
        return;
      }
      var more := if len % BATCH != 0 then 1 else 0;
      count := len / BATCH + more;
      current := map[];
      var i, n := 0, 0;
      while i < len
        invariant 0 <= n <= BatchCount(len) && i == n * BATCH && (n < BatchCount(len) <==> i < len)
        invariant sent == ToWorkers<seq<int>>(Batches(data))[..n]
        decreases BatchCount(len) - n
      {
        var endIndex := if i + BATCH < len then i + BATCH else len;
        assert BatchOf(data, n) == data[i..endIndex];
        sent := sent + [ToWorker(Batch(data[i..endIndex], n))];
        n := n + 1;
        i := i + BATCH;
      }
    }

    method HandleResult(value: int, id: nat) returns (sent: seq<Msg>)
      modifies this`current
      ensures Value() == OnResult(old(Value()), value, id).state && sent == OnResult(old(Value()), value, id).sent
    {
      if id !in current {
        current := current[id := value];
      }
      sent := [];
      if count == |current| {
        var newData := CollectResults(current);
        sent := [ToSelf(newData)];
      }
    }

    // The loop over the result map, in key order.
    static method CollectResults(results: map<nat, int>) returns (newData: seq<int>)
      ensures newData == InKeyOrder(results, results.Keys)
    {
      newData := [];
      var rest := results.Keys;
      while rest != {}
        invariant rest <= results.Keys
        invariant newData + InKeyOrder(results, rest) == InKeyOrder(results, results.Keys)
        decreases |rest|
      {
        LeastKeyExists(rest);
        var k :| k in rest && IsLeastKey(k, rest);
        LeastFirst(results, rest, k);
        ghost var others := InKeyOrder(results, rest - {k});
        assert newData + ([results[k]] + others) == (newData + [results[k]]) + others;
        newData := newData + [results[k]];
        rest := rest - {k};
      }
    }
  }

  lemma LeastFirst(m: map<nat, int>, keys: set<nat>, k: nat)
    requires keys <= m.Keys && IsLeastKey(k, keys)
    ensures InKeyOrder(m, keys) == [m[k]] + InKeyOrder(m, keys - {k})
  {
    var j: nat :| IsLeastKey(j, keys) && InKeyOrder(m, keys) == [m[j]] + InKeyOrder(m, keys - {j});
    LeastKeyUnique(j, k, keys);
  }

  lemma LeastKeyUnique(j: nat, k: nat, keys: set<nat>)
    requires IsLeastKey(j, keys) && IsLeastKey(k, keys)
    ensures j == k
  {
    assert j in keys && k in keys;
  }
}
