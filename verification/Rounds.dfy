// One round of tasks: they are sent to workers all at once, each is answered exactly once, and
// the answers arrive in any order. The actors of the triangle jobs all work in such rounds.
module Rounds {
  import Triangle

  // A task for a worker; `id` is the position its answer reports.
  datatype Task =
    | Add(a: int, b: int, id: nat)
    | MinAdd(a: int, b: int, c: int, id: nat)
    | Batch(numbers: seq<int>, id: nat)

  // What the workers answer.
  function Work(t: Task): int {
    match t
    case Add(a, b, _) => a + b
    case MinAdd(a, b, c, _) => Triangle.Min(a, b) + c
    case Batch(numbers, _) => if numbers == [] then 999 else Triangle.MinOf(numbers)
  }

  // A message in flight: to a worker, from a worker, or from an actor to itself.
  datatype Message<C> = ToWorker(task: Task) | Result(value: int, id: nat) | ToSelf(control: C)

  function Answer<C>(t: Task): Message<C> {
    Result(Work(t), t.id)
  }

  function ToWorkers<C>(tasks: seq<Task>): seq<Message<C>> {
    seq(|tasks|, i requires 0 <= i < |tasks| => ToWorker(tasks[i]))
  }

  predicate Numbered(tasks: seq<Task>) {
    forall i | 0 <= i < |tasks| :: tasks[i].id == i
  }

  // Exactly one message stands for an open task, none for a finished one.
  ghost predicate Slot<C>(inflight: multiset<Message<C>>, task: Task, done: bool) {
    inflight[ToWorker(task)] + inflight[Answer(task)] == if done then 0 else 1
  }

  // A message of this round.
  ghost predicate Belongs<C>(m: Message<C>, tasks: seq<Task>) {
    match m
    case ToWorker(task) => task.id < |tasks| && task == tasks[task.id]
    case Result(_, id) => id < |tasks| && m == Answer(tasks[id])
    case ToSelf(_) => false
  }

  ghost predicate InRound<C>(inflight: multiset<Message<C>>, tasks: seq<Task>, done: set<nat>) {
    && Numbered(tasks)
    && (forall id | id in done :: id < |tasks|)
    && (forall id | 0 <= id < |tasks| :: Slot(inflight, tasks[id], id in done))
    && (forall m | m in inflight :: Belongs(m, tasks))
  }

  // Deliveries still to come for one task: two before it is worked on, then one for its answer.
  ghost function Owed<C>(inflight: multiset<Message<C>>, task: Task, done: bool): nat {
    if done then 0 else if ToWorker(task) in inflight then 2 else 1
  }

  // Deliveries still to come for the first n tasks.
  ghost function OwedBelow<C>(inflight: multiset<Message<C>>, tasks: seq<Task>, done: set<nat>, n: nat): nat
    requires n <= |tasks|
  {
    if n == 0 then 0 else OwedBelow(inflight, tasks, done, n - 1) + Owed(inflight, tasks[n - 1], n - 1 in done)
  }

  // Deliveries still to come in this round.
  ghost function Deliveries<C>(inflight: multiset<Message<C>>, tasks: seq<Task>, done: set<nat>): nat {
    OwedBelow(inflight, tasks, done, |tasks|)
  }

  lemma {:induction false} AllOwe<C>(inflight: multiset<Message<C>>, tasks: seq<Task>, done: set<nat>, n: nat, k: nat)
    requires n <= |tasks|
    requires forall id | 0 <= id < n :: Owed(inflight, tasks[id], id in done) == k
    ensures OwedBelow(inflight, tasks, done, n) == k * n
  {
    if n > 0 {
      AllOwe(inflight, tasks, done, n - 1, k);
    }
  }

  // When one task owes one less and the others owe the same, the total is one less.
  lemma {:induction false} OneOwesLess<C>(before: multiset<Message<C>>, after: multiset<Message<C>>, tasks: seq<Task>,
                                          done: set<nat>, done': set<nat>, id: nat, n: nat)
    requires n <= |tasks| && id < |tasks|
    requires forall k | 0 <= k < |tasks| ::
               Owed(after, tasks[k], k in done') + (if k == id then 1 else 0) == Owed(before, tasks[k], k in done)
    ensures OwedBelow(after, tasks, done', n) + (if id < n then 1 else 0) == OwedBelow(before, tasks, done, n)
  {
    if n > 0 {
      OneOwesLess(before, after, tasks, done, done', id, n - 1);
    }
  }

  // Every index below n is there.
  ghost predicate Covered(done: set<nat>, n: nat) {
    forall i: nat | i < n :: i in done
  }

  // As many distinct indices below n as there are: all of them.
  lemma {:induction false} FullWhenCounted(done: set<nat>, n: nat)
    requires forall i | i in done :: i < n
    ensures |done| <= n && (|done| == n <==> Covered(done, n))
  {
    if n == 0 {
      assert done == {};
    } else if n - 1 in done {
      FullWhenCounted(done - {n - 1}, n - 1);
      assert Covered(done, n) <==> Covered(done - {n - 1}, n - 1);
    } else {
      FullWhenCounted(done, n - 1);
    }
  }

  // --- how a round begins, goes on and ends -----------------------------------------------

  lemma {:induction false} SentOnce<C>(tasks: seq<Task>, n: nat, m: Message<C>)
    requires Numbered(tasks) && n <= |tasks|
    ensures multiset(ToWorkers<C>(tasks)[..n])[m] == if m.ToWorker? && m.task.id < n && m.task == tasks[m.task.id] then 1 else 0
    decreases n
  {
    var all := ToWorkers<C>(tasks);
    if n > 0 {
      SentOnce(tasks, n - 1, m);
      assert all[..n] == all[..n - 1] + [all[n - 1]];
    }
  }

  lemma RoundBegins<C>(tasks: seq<Task>)
    requires Numbered(tasks)
    ensures InRound(multiset(ToWorkers<C>(tasks)), tasks, {})
    ensures Deliveries(multiset(ToWorkers<C>(tasks)), tasks, {}) == 2 * |tasks|
  {
    var inflight := multiset(ToWorkers<C>(tasks));
    assert ToWorkers<C>(tasks)[..|tasks|] == ToWorkers<C>(tasks);
    forall m: Message<C>
      ensures inflight[m] == if m.ToWorker? && m.task.id < |tasks| && m.task == tasks[m.task.id] then 1 else 0
    {
      SentOnce(tasks, |tasks|, m);
    }
    assert forall id | 0 <= id < |tasks| :: Slot(inflight, tasks[id], false);
    forall id | 0 <= id < |tasks|
      ensures Owed(inflight, tasks[id], false) == 2
    {
      assert inflight[ToWorker(tasks[id])] == 1;
    }
    AllOwe(inflight, tasks, {}, |tasks|, 2);
  }

  // A worker takes a task and answers it.
  lemma WorkerStep<C>(inflight: multiset<Message<C>>, tasks: seq<Task>, done: set<nat>, task: Task)
    requires InRound(inflight, tasks, done) && ToWorker(task) in inflight
    ensures var after := inflight - multiset{ToWorker(task)} + multiset{Answer(task)};
            InRound(after, tasks, done) && Deliveries(after, tasks, done) == Deliveries(inflight, tasks, done) - 1
  {
    var after := inflight - multiset{ToWorker(task)} + multiset{Answer<C>(task)};
    var taken: Message<C> := ToWorker(task);
    assert Belongs(taken, tasks);
    var id := task.id;
    assert Slot(inflight, task, id in done);
    forall k | 0 <= k < |tasks|
      ensures Slot(after, tasks[k], k in done)
      ensures k != id ==> after[ToWorker(tasks[k])] == inflight[ToWorker(tasks[k])]
    {
      assert Slot(inflight, tasks[k], k in done) && Slot(after, tasks[k], k in done);
    }
    forall m | m in after
      ensures Belongs(m, tasks)
    {
      assert m == Answer<C>(task) || m in inflight;
    }
    OneOwesLess(inflight, after, tasks, done, done, id, |tasks|);
  }

  // An answer is delivered: it is the right one, and the first for its position.
  lemma AnswerStep<C>(inflight: multiset<Message<C>>, tasks: seq<Task>, done: set<nat>, m: Message<C>)
    requires InRound(inflight, tasks, done) && m.Result? && m in inflight
    ensures m.id < |tasks| && m.id !in done && m.value == Work(tasks[m.id])
    ensures InRound(inflight - multiset{m}, tasks, done + {m.id})
    ensures Deliveries(inflight - multiset{m}, tasks, done + {m.id}) == Deliveries(inflight, tasks, done) - 1
  {
    var after := inflight - multiset{m};
    assert Belongs(m, tasks);
    var id := m.id;
    assert Slot(inflight, tasks[id], id in done);
    forall k | 0 <= k < |tasks|
      ensures Slot(after, tasks[k], k in done + {id})
      ensures after[ToWorker(tasks[k])] == inflight[ToWorker(tasks[k])]
    {
      assert Slot(inflight, tasks[k], k in done);
    }
    forall x | x in after
      ensures Belongs(x, tasks)
    {
      assert x in inflight;
    }
    OneOwesLess(inflight, after, tasks, done, done + {id}, id, |tasks|);
  }

  // With every position reported, nothing of the round is left in flight.
  lemma RoundEnds<C>(inflight: multiset<Message<C>>, tasks: seq<Task>, done: set<nat>)
    requires InRound(inflight, tasks, done) && Covered(done, |tasks|)
    ensures inflight == multiset{} && Deliveries(inflight, tasks, done) == 0
  {
    forall m
      ensures m !in inflight
    {
      if Belongs(m, tasks) {
        var id := if m.ToWorker? then m.task.id else m.id;
        assert Slot(inflight, tasks[id], id in done);
      }
    }
    AllOwe(inflight, tasks, done, |tasks|, 0);
  }

  // Otherwise some message is still on its way.
  lemma RoundGoesOn<C>(inflight: multiset<Message<C>>, tasks: seq<Task>, done: set<nat>)
    requires InRound(inflight, tasks, done) && |done| < |tasks|
    ensures inflight != multiset{}
  {
    FullWhenCounted(done, |tasks|);
    var id: nat :| id < |tasks| && id !in done;
    assert Slot(inflight, tasks[id], id in done);
  }

  // --- the workers ---------------------------------------------------------------------------

  /** The counter: sums, minimum then sum, and the minimum of a batch, which must not be empty. */
  method Count(t: Task) returns (r: int)
    requires t.Batch? ==> t.numbers != []
    ensures r == Work(t)
  {
    match t {
      case Add(a, b, _) => r := a + b;
      case MinAdd(a, b, c, _) => r := if a < b then a + c else b + c;
      case Batch(numbers, _) => r := BatchMinimum(numbers);
    }
  }

  /** The calculator: sums, and the minimum of a batch, 999 for the empty one. */
  method Calculate(t: Task) returns (r: int)
    requires !t.MinAdd?
    ensures r == Work(t)
    ensures t.Batch? && t.numbers == [] ==> r == 999
  {
    match t {
      case Add(a, b, _) => r := a + b;
      case Batch(numbers, _) =>
        if numbers == [] {
          return 999;
        }
        r := BatchMinimum(numbers);
    }
  }

  // The loop both share.
  method BatchMinimum(numbers: seq<int>) returns (r: int)
    requires numbers != []
    ensures r == Triangle.MinOf(numbers)
  {
    r := numbers[0];
    var i := 0;
    while i < |numbers|
      invariant 0 <= i <= |numbers|
      invariant r in numbers && forall k | 0 <= k < i :: r <= numbers[k]
    {
      if numbers[i] < r {
        r := numbers[i];
      }
      i := i + 1;
    }
    Triangle.MinOfUnique(numbers, r);
  }
}
