// The in-place actor: answers overwrite the row they were computed from, and a counter decides
// when a level is complete.
module Priority {
  import opened Rounds
  import T = Triangle

  datatype Control = StartLevel | EndLevel

  type Msg = Message<Control>

  // `awaiting` is set while the actor waits for the minimum of the last row.
  datatype State = State(level: nat, count: nat, triangle: seq<seq<int>>, results: seq<int>, awaiting: bool)

  datatype Effect = Effect(state: State, sent: seq<Msg>, out: seq<int>)

  // Between jobs.
  predicate Idle(s: State) {
    s.level == 1 && s.count == 0 && !s.awaiting
  }

  // --- the handlers ------------------------------------------------------------------------

  function FirstResults(t: T.Triangle): (r: seq<int>)
    ensures |r| == |t| && r[0] == t[0][0] && forall j | 0 < j < |r| :: r[j] == 0
  {
    seq(|t|, j requires 0 <= j < |t| => if j == 0 then t[0][0] else 0)
  }

  function OnTriangle(s: State, t: T.Triangle): Effect {
    Effect(s.(triangle := t, results := FirstResults(t)), [ToSelf(StartLevel)], [])
  }

  // The level and the columns that starting a level touches exist.
  predicate CanStart(s: State) {
    0 < s.level < |s.triangle| && s.level < |s.triangle[s.level]| && s.level <= |s.results|
  }

  function TaskAt(above: seq<int>, row: seq<int>, level: nat, j: nat): Task
    requires 0 < level <= |above| && level < |row| && j <= level
  {
    if j == 0 then Add(above[0], row[j], j)
    else if j == level then Add(above[j - 1], row[j], j)
    else Add(T.Min(above[j - 1], above[j]), row[j], j)
  }

  function Tasks(above: seq<int>, row: seq<int>, level: nat): (r: seq<Task>)
    requires 0 < level <= |above| && level < |row|
    ensures |r| == level + 1 && Numbered(r)
  {
    seq(level + 1, j requires 0 <= j < level + 1 => TaskAt(above, row, level, j))
  }

  function OnStart(s: State): Effect
    requires CanStart(s)
  {
    Effect(s, ToWorkers(Tasks(s.results, s.triangle[s.level], s.level)), [])
  }

  function OnResult(s: State, value: int, position: nat): Effect
    requires position < |s.results|
  {
    var r := s.(results := s.results[position := value], count := s.count + 1);
    if r.level != r.count - 1 then Effect(r, [], [])
    else if r.level == |r.triangle| - 1 then Effect(r.(level := 1, count := 0), [ToSelf(EndLevel)], [])
    else Effect(r.(level := r.level + 1, count := 0), [ToSelf(StartLevel)], [])
  }

  function OnEnd(s: State): Effect {
    Effect(s.(awaiting := true), [ToWorker(Batch(s.results, 0))], [])
  }

  function OnFinal(s: State, value: int): Effect {
    Effect(s.(awaiting := false), [], [value])
  }

  // --- the actor and its messages --------------------------------------------------------------

  // `done` records the positions reported on the current level; the actor only keeps their number.
  datatype World = World(actor: State, inflight: multiset<Msg>, out: seq<int>, done: set<nat>)

  function Begin(s: State, t: T.Triangle): World {
    World(OnTriangle(s, t).state, multiset{ToSelf(StartLevel)}, [], {})
  }

  predicate Enabled(w: World, m: Msg) {
    && m in w.inflight
    && (m == ToSelf(StartLevel) ==> CanStart(w.actor))
    && (m.Result? && !w.actor.awaiting ==> m.id < |w.actor.results|)
  }

  function Handle(w: World, m: Msg, e: Effect, done: set<nat>): World {
    World(e.state, w.inflight - multiset{m} + multiset(e.sent), w.out + e.out, done)
  }

  function Deliver(w: World, m: Msg): World
    requires Enabled(w, m)
  {
    match m
    case ToWorker(task) => w.(inflight := w.inflight - multiset{m} + multiset{Answer(task)})
    case Result(value, id) =>
      if w.actor.awaiting then Handle(w, m, OnFinal(w.actor, value), w.done)
      else
        var e := OnResult(w.actor, value, id);
        Handle(w, m, e, if e.state.count == 0 then {} else w.done + {id})
    case ToSelf(StartLevel) => Handle(w, m, OnStart(w.actor), w.done)
    case ToSelf(EndLevel) => Handle(w, m, OnEnd(w.actor), w.done)
  }

  ghost predicate LegalRun(w: World, ms: seq<Msg>)
    decreases |ms|
  {
    ms != [] ==> Enabled(w, ms[0]) && LegalRun(Deliver(w, ms[0]), ms[1..])
  }

  ghost function Run(w: World, ms: seq<Msg>): World
    requires LegalRun(w, ms)
    decreases |ms|
  {
    if ms == [] then w else Run(Deliver(w, ms[0]), ms[1..])
  }

  // --- what every run keeps ---------------------------------------------------------------------

  datatype Phase = InLevel(r: nat) | Between(r: nat) | Closing | Awaiting | Finished

  // The tasks of level `r` are made from the values of level `r - 1` alone.
  function RowTasks(t: T.Triangle, r: nat): (tasks: seq<Task>)
    requires 0 < r < |t|
    ensures |tasks| == r + 1 && Numbered(tasks)
  {
    Tasks(T.Row(t, r - 1), t[r], r)
  }

  ghost predicate Loaded(t: T.Triangle, w: World) {
    w.actor.triangle == t && |w.actor.results| == |t| && !w.actor.awaiting && w.out == []
  }

  ghost predicate RightResults(t: T.Triangle, results: seq<int>, r: nat, done: set<nat>)
    requires r < |t|
  {
    forall j | j in done :: j <= r && j < |results| && results[j] == T.Cell(t, r, j)
  }

  ghost predicate Computing(t: T.Triangle, w: World, r: nat) {
    && 0 < r < |t| && Loaded(t, w)
    && w.actor.level == r && w.actor.count == |w.done| <= r
    && RightResults(t, w.actor.results, r, w.done)
    && InRound(w.inflight, RowTasks(t, r), w.done)
  }

  ghost predicate HandingOver(t: T.Triangle, w: World, r: nat) {
    && r + 1 < |t| && Loaded(t, w)
    && w.actor.level == r + 1 && w.actor.count == 0 && w.done == {}
    && w.actor.results[..r + 1] == T.Row(t, r)
    && w.inflight == multiset{ToSelf(StartLevel)}
  }

  ghost predicate ClosingDown(t: T.Triangle, w: World) {
    && Loaded(t, w) && Idle(w.actor) && w.actor.results == T.Row(t, |t| - 1)
    && w.inflight == multiset{ToSelf(EndLevel)}
  }

  function FinalTask(t: T.Triangle): seq<Task> {
    [Batch(T.Row(t, |t| - 1), 0)]
  }

  ghost predicate AwaitingMinimum(t: T.Triangle, w: World) {
    && w.actor.awaiting && w.actor.level == 1 && w.actor.count == 0 && w.out == []
    && InRound(w.inflight, FinalTask(t), {})
  }

  ghost predicate Solved(t: T.Triangle, w: World) {
    Idle(w.actor) && w.inflight == multiset{} && w.out == [T.Best(t)]
  }

  ghost predicate At(t: T.Triangle, w: World, phase: Phase) {
    match phase
    case InLevel(r) => Computing(t, w, r)
    case Between(r) => HandingOver(t, w, r)
    case Closing => ClosingDown(t, w)
    case Awaiting => AwaitingMinimum(t, w)
    case Finished => Solved(t, w)
  }

  // Deliveries after level `r` is complete, in a triangle of n rows.
  function Later(n: nat, r: nat): nat
    decreases n - r
  {
    if r + 1 >= n then 3 else 1 + 2 * (r + 2) + Later(n, r + 1)
  }

  ghost function Remaining(t: T.Triangle, w: World, phase: Phase): nat
    requires At(t, w, phase)
  {
    match phase
    case InLevel(r) => Deliveries(w.inflight, RowTasks(t, r), w.done) + Later(|t|, r)
    case Between(r) => Later(|t|, r)
    case Closing => 3
    case Awaiting => Deliveries(w.inflight, FinalTask(t), {})
    case Finished => 0
  }

  function JobLength(n: nat): nat {
    Later(n, 0)
  }

  lemma BeginsBetween(s: State, t: T.Triangle)
    requires Idle(s) && |t| >= 2
    ensures At(t, Begin(s, t), Between(0)) && Remaining(t, Begin(s, t), Between(0)) == JobLength(|t|)
  {
    assert FirstResults(t)[..1] == T.Row(t, 0);
  }

  lemma TaskValue(t: T.Triangle, r: nat, j: nat)
    requires 0 < r < |t| && j <= r
    ensures Work(RowTasks(t, r)[j]) == T.Cell(t, r, j)
  {
  }

  lemma InFlight(t: T.Triangle, w: World, phase: Phase, m: Msg)
    requires At(t, w, phase) && m in w.inflight
    ensures m == ToSelf(StartLevel) ==> phase.Between?
    ensures m == ToSelf(EndLevel) ==> phase.Closing?
    ensures !m.ToSelf? ==> phase.InLevel? || phase.Awaiting?
  {
    if phase.InLevel? && Belongs(m, RowTasks(t, phase.r)) {
      assert !m.ToSelf?;
    }
    if phase.Awaiting? && Belongs(m, FinalTask(t)) {
      assert !m.ToSelf?;
    }
  }

  lemma WorkerDelivery(t: T.Triangle, w: World, phase: Phase, m: Msg)
    requires At(t, w, phase) && (phase.InLevel? || phase.Awaiting?) && m in w.inflight && m.ToWorker?
    ensures Enabled(w, m) && At(t, Deliver(w, m), phase)
    ensures Remaining(t, Deliver(w, m), phase) == Remaining(t, w, phase) - 1
  {
    if phase.InLevel? {
      WorkerStep(w.inflight, RowTasks(t, phase.r), w.done, m.task);
    } else {
      WorkerStep(w.inflight, FinalTask(t), {}, m.task);
    }
  }

  // An answer of the level: in place, whatever the order.
  lemma AnswerDelivery(t: T.Triangle, w: World, r: nat, m: Msg) returns (next: Phase)
    requires Computing(t, w, r) && m in w.inflight && m.Result?
    ensures Enabled(w, m) && At(t, Deliver(w, m), next)
    ensures Remaining(t, Deliver(w, m), next) == Remaining(t, w, InLevel(r)) - 1
  {
    var after, done := w.inflight - multiset{m}, w.done + {m.id};
    AnswerStep(w.inflight, RowTasks(t, r), w.done, m);
    var results := w.actor.results[m.id := m.value];
    ResultsGrow(t, w.actor.results, r, w.done, m.id, m.value);
    FullWhenCounted(done, r + 1);
    if |done| == r + 1 {
      RoundEnds(after, RowTasks(t, r), done);
      LevelComplete(t, results, r, done);
      LastEffect(w, m, results);
      LastAnswer(t, w, r, results, Deliver(w, m));
      next := if r + 1 == |t| then Closing else Between(r);
    } else {
      MoreEffect(w, m, after, results);
      MoreAnswers(t, w, r, after, results, done, Deliver(w, m));
      next := InLevel(r);
    }
  }

  lemma ResultsGrow(t: T.Triangle, results: seq<int>, r: nat, done: set<nat>, id: nat, value: int)
    requires 0 < r < |t| && |results| == |t| && RightResults(t, results, r, done)
    requires id <= r && value == Work(RowTasks(t, r)[id])
    ensures RightResults(t, results[id := value], r, done + {id})
  {
    TaskValue(t, r, id);
  }

  lemma LevelComplete(t: T.Triangle, results: seq<int>, r: nat, done: set<nat>)
    requires r < |t| && |results| == |t| && RightResults(t, results, r, done) && Covered(done, r + 1)
    ensures results[..r + 1] == T.Row(t, r)
  {
    forall j: nat | j <= r
      ensures results[j] == T.Row(t, r)[j]
    {
      assert j in done;
    }
  }

  lemma LastEffect(w: World, m: Msg, results: seq<int>)
    requires Enabled(w, m) && m.Result? && !w.actor.awaiting && results == w.actor.results[m.id := m.value]
    requires w.actor.count == w.actor.level && w.inflight - multiset{m} == multiset{}
    ensures var last := w.actor.level == |w.actor.triangle| - 1;
            Deliver(w, m) == World(State(if last then 1 else w.actor.level + 1, 0, w.actor.triangle, results, false),
                                   multiset{ToSelf(if last then EndLevel else StartLevel)}, w.out, {})
  {
    var start: Msg, end: Msg := ToSelf(StartLevel), ToSelf(EndLevel);
    assert multiset([start]) == multiset{start} && multiset([end]) == multiset{end};
    assert multiset{} + multiset{start} == multiset{start} && multiset{} + multiset{end} == multiset{end};
  }

  lemma MoreEffect(w: World, m: Msg, after: multiset<Msg>, results: seq<int>)
    requires Enabled(w, m) && m.Result? && !w.actor.awaiting && results == w.actor.results[m.id := m.value]
    requires w.actor.count != w.actor.level && after == w.inflight - multiset{m}
    ensures Deliver(w, m) == World(State(w.actor.level, w.actor.count + 1, w.actor.triangle, results, false),
                                   after, w.out, w.done + {m.id})
  {
    var none: seq<Msg> := [];
    assert multiset(none) == multiset{} && after + multiset{} == after;
  }

  lemma LastAnswer(t: T.Triangle, w: World, r: nat, results: seq<int>, c: World)
    requires Computing(t, w, r) && Deliveries(w.inflight, RowTasks(t, r), w.done) == 1
    requires |results| == |t| && results[..r + 1] == T.Row(t, r)
    requires c == World(State(if r == |t| - 1 then 1 else r + 1, 0, t, results, false),
                        multiset{ToSelf(if r == |t| - 1 then EndLevel else StartLevel)}, [], {})
    ensures var next := if r + 1 == |t| then Closing else Between(r);
            At(t, c, next) && Remaining(t, c, next) == Remaining(t, w, InLevel(r)) - 1
  {
    if r + 1 == |t| {
      assert results[..r + 1] == results;
      assert ClosingDown(t, c);
    } else {
      assert HandingOver(t, c, r);
    }
  }

  lemma MoreAnswers(t: T.Triangle, w: World, r: nat, after: multiset<Msg>, results: seq<int>, done: set<nat>, c: World)
    requires Computing(t, w, r) && |results| == |t| && RightResults(t, results, r, done)
    requires InRound(after, RowTasks(t, r), done) && |done| <= r && |done| == |w.done| + 1
    requires Deliveries(after, RowTasks(t, r), done) + 1 == Deliveries(w.inflight, RowTasks(t, r), w.done)
    requires c == World(State(r, w.actor.count + 1, t, results, false), after, [], done)
    ensures Computing(t, c, r) && Remaining(t, c, InLevel(r)) == Remaining(t, w, InLevel(r)) - 1
  {
  }

  lemma SameTasks(t: T.Triangle, above: seq<int>, r: nat)
    requires 0 < r < |t| && r <= |above| && above[..r] == T.Row(t, r - 1)
    ensures Tasks(above, t[r], r) == RowTasks(t, r)
  {
    forall j | 0 <= j <= r
      ensures Tasks(above, t[r], r)[j] == RowTasks(t, r)[j]
    {
      assert j > 0 ==> above[j - 1] == above[..r][j - 1];
      assert j < r ==> above[j] == above[..r][j];
    }
  }

  lemma StartDelivery(t: T.Triangle, w: World, r: nat, m: Msg)
    requires HandingOver(t, w, r) && m == ToSelf(StartLevel)
    ensures Enabled(w, m) && At(t, Deliver(w, m), InLevel(r + 1))
    ensures Remaining(t, Deliver(w, m), InLevel(r + 1)) == Remaining(t, w, Between(r)) - 1
  {
    assert |t[r + 1]| > r + 1;
    SameTasks(t, w.actor.results, r + 1);
    StartEffect(w, m, RowTasks(t, r + 1));
    RoundBegins<Control>(RowTasks(t, r + 1));
    FreshLevel(t, w.actor, r + 1, Deliver(w, m), multiset(ToWorkers(RowTasks(t, r + 1))));
  }

  lemma StartEffect(w: World, m: Msg, tasks: seq<Task>)
    requires w.inflight == multiset{m} && m == ToSelf(StartLevel) && CanStart(w.actor)
    requires tasks == Tasks(w.actor.results, w.actor.triangle[w.actor.level], w.actor.level)
    ensures Deliver(w, m) == World(w.actor, multiset(ToWorkers(tasks)), w.out, w.done)
  {
    assert w.inflight - multiset{m} == multiset{};
    assert multiset{} + multiset(ToWorkers<Control>(tasks)) == multiset(ToWorkers<Control>(tasks));
  }

  lemma FreshLevel(t: T.Triangle, s: State, r: nat, c: World, inflight: multiset<Msg>)
    requires 0 < r < |t| && c == World(s, inflight, [], {}) && Loaded(t, c) && s.level == r && s.count == 0
    requires InRound(inflight, RowTasks(t, r), {}) && Deliveries(inflight, RowTasks(t, r), {}) == 2 * (r + 1)
    ensures Computing(t, c, r) && Remaining(t, c, InLevel(r)) == 2 * (r + 1) + Later(|t|, r)
  {
  }

  lemma EndDelivery(t: T.Triangle, w: World, m: Msg)
    requires ClosingDown(t, w) && m == ToSelf(EndLevel)
    ensures Enabled(w, m) && At(t, Deliver(w, m), Awaiting)
    ensures Remaining(t, Deliver(w, m), Awaiting) == Remaining(t, w, Closing) - 1
  {
    var tasks := FinalTask(t);
    assert ToWorkers<Control>(tasks) == [ToWorker(tasks[0])];
    RoundBegins<Control>(tasks);
    var sent: seq<Msg> := ToWorkers(tasks);
    assert w.inflight - multiset{m} == multiset{} && multiset{} + multiset(sent) == multiset(sent);
    assert Deliver(w, m).inflight == multiset(sent);
  }

  lemma FinalDelivery(t: T.Triangle, w: World, m: Msg)
    requires AwaitingMinimum(t, w) && m in w.inflight && m.Result?
    ensures Enabled(w, m) && At(t, Deliver(w, m), Finished)
    ensures Remaining(t, w, Awaiting) == 1
  {
    var tasks := FinalTask(t);
    AnswerStep(w.inflight, tasks, {}, m);
    assert {} + {m.id} == {m.id};
    var after := w.inflight - multiset{m};
    assert Covered({m.id}, 1);
    RoundEnds(after, tasks, {} + {m.id});
    var none: seq<Msg> := [];
    assert multiset(none) == multiset{} && after + multiset{} == after;
  }

  lemma OneDelivery(t: T.Triangle, w: World, phase: Phase, m: Msg) returns (next: Phase)
    requires At(t, w, phase) && m in w.inflight
    ensures Enabled(w, m) && At(t, Deliver(w, m), next)
    ensures Remaining(t, Deliver(w, m), next) == Remaining(t, w, phase) - 1
  {
    InFlight(t, w, phase, m);
    match m {
      case ToWorker(_) =>
        WorkerDelivery(t, w, phase, m);
        next := phase;
      case Result(_, _) =>
        if phase.InLevel? {
          next := AnswerDelivery(t, w, phase.r, m);
        } else {
          FinalDelivery(t, w, m);
          next := Finished;
        }
      case ToSelf(StartLevel) =>
        StartDelivery(t, w, phase.r, m);
        next := InLevel(phase.r + 1);
      case ToSelf(EndLevel) =>
        EndDelivery(t, w, m);
        next := Awaiting;
    }
  }

  lemma {:induction false} RunPhase(t: T.Triangle, w: World, phase: Phase, ms: seq<Msg>) returns (last: Phase)
    requires At(t, w, phase) && LegalRun(w, ms)
    ensures At(t, Run(w, ms), last)
    ensures Remaining(t, Run(w, ms), last) == Remaining(t, w, phase) - |ms|
    decreases |ms|
  {
    if ms == [] {
      last := phase;
    } else {
      var next := OneDelivery(t, w, phase, ms[0]);
      last := RunPhase(t, Deliver(w, ms[0]), next, ms[1..]);
    }
  }

  lemma PhaseMeaning(t: T.Triangle, w: World, phase: Phase)
    requires At(t, w, phase)
    ensures Remaining(t, w, phase) == 0 <==> phase.Finished?
    ensures phase.Finished? <==> w.inflight == multiset{}
    ensures !phase.Finished? ==> w.out == []
  {
    match phase {
      case InLevel(r) =>
        RoundGoesOn(w.inflight, RowTasks(t, r), w.done);
        LaterPositive(|t|, r);
      case Between(r) =>
        assert ToSelf(StartLevel) in w.inflight;
        LaterPositive(|t|, r);
      case Closing => assert ToSelf(EndLevel) in w.inflight;
      case Awaiting =>
        RoundGoesOn(w.inflight, FinalTask(t), {});
        assert OwedBelow(w.inflight, FinalTask(t), {}, 1) > 0;
      case Finished =>
    }
  }

  lemma LaterPositive(n: nat, r: nat)
    ensures Later(n, r) > 0
  {
  }

  /** For every order of deliveries and every triangle of two rows or more: a job takes exactly
      `JobLength` of them, no handler reaches outside the triangle, nothing is reported before
      the last one, and then the optimum is reported and the actor is ready for the next job. */
  lemma EveryOrderSolves(s: State, t: T.Triangle, ms: seq<Msg>)
    requires Idle(s) && |t| >= 2 && LegalRun(Begin(s, t), ms)
    ensures var w := Run(Begin(s, t), ms);
            && |ms| <= JobLength(|t|)
            && (forall m | m in w.inflight :: Enabled(w, m))
            && (|ms| < JobLength(|t|) ==> w.inflight != multiset{} && w.out == [])
            && (|ms| == JobLength(|t|) ==> Solved(t, w))
  {
    BeginsBetween(s, t);
    var last := RunPhase(t, Begin(s, t), Between(0), ms);
    var w := Run(Begin(s, t), ms);
    PhaseMeaning(t, w, last);
    forall m | m in w.inflight
      ensures Enabled(w, m)
    {
      var _ := OneDelivery(t, w, last, m);
    }
  }

  /** The first level can be started exactly when the triangle has at least two rows. */
  lemma FirstLevelExists(s: State, t: T.Triangle)
    requires Idle(s)
    ensures Enabled(Begin(s, t), ToSelf(StartLevel)) <==> |t| >= 2
  {
    assert |t| >= 2 ==> |t[1]| > 1;
  }

  // --- the actor object -------------------------------------------------------------------------

  class PriorityActor {
    var level: nat
    var count: nat
    var triangleData: seq<seq<int>>
    var lastLevelResults: array<int>
    var awaiting: bool

    ghost function Value(): State
      reads this, lastLevelResults
    {
      State(level, count, triangleData, lastLevelResults[..], awaiting)
    }

    constructor ()
      ensures Idle(Value()) && fresh(lastLevelResults)
    {
      level := 1;
      count := 0;
      triangleData := [];
      lastLevelResults := new int[0];
      awaiting := false;
    }

    method HandleTriangle(t: T.Triangle) returns (sent: seq<Msg>)
      modifies this`triangleData, this`lastLevelResults
      ensures fresh(lastLevelResults)
      ensures Value() == OnTriangle(old(Value()), t).state && sent == OnTriangle(old(Value()), t).sent
    {
      lastLevelResults := new int[|t|](_ => 0);
      lastLevelResults[0] := t[0][0];
      triangleData := [];
      var k := 0;
      while k < |t|
        invariant 0 <= k <= |t| && triangleData == t[..k]
        invariant lastLevelResults[..] == FirstResults(t)
        invariant fresh(lastLevelResults)
        modifies this`triangleData
      {
        triangleData := triangleData + [t[k]];
        k := k + 1;
      }
      sent := [ToSelf(StartLevel)];
    }

    method HandleStart() returns (sent: seq<Msg>)
      requires CanStart(Value())
      ensures Value() == OnStart(Value()).state && sent == OnStart(Value()).sent
    {
      sent := [];
      var i := level;
      ghost var tasks := Tasks(lastLevelResults[..], triangleData[i], i);
      var j := 0;
      while j < i + 1
        invariant 0 <= j <= i + 1
        invariant sent == ToWorkers<Control>(tasks)[..j]
      {
        if j == 0 {
          sent := sent + [ToWorker(Add(lastLevelResults[0], triangleData[i][j], j))];
        } else if j == i {
          sent := sent + [ToWorker(Add(lastLevelResults[j - 1], triangleData[i][j], j))];
        } else {
          sent := sent + [ToWorker(Add(T.Min(lastLevelResults[j - 1], lastLevelResults[j]), triangleData[i][j], j))];
        }
        j := j + 1;
      }
    }

    method HandleResult(value: int, position: nat) returns (sent: seq<Msg>)
      requires position < lastLevelResults.Length
      modifies this`level, this`count, lastLevelResults
      ensures Value() == OnResult(old(Value()), value, position).state
      ensures sent == OnResult(old(Value()), value, position).sent
    {
      lastLevelResults[position] := value;
      count := count + 1;
      sent := [];
      if level == count - 1 {
        if level == |triangleData| - 1 {
          level := 1;
          count := 0;
          sent := [ToSelf(EndLevel)];
        } else {
          level := level + 1;
          count := 0;
          sent := [ToSelf(StartLevel)];
        }
      }
    }

    method HandleEnd() returns (sent: seq<Msg>)
      modifies this`awaiting
      ensures Value() == OnEnd(old(Value())).state && sent == OnEnd(old(Value())).sent
    {
      awaiting := true;
      sent := [ToWorker(Batch(lastLevelResults[..], 0))];
    }

    method HandleFinal(value: int) returns (out: seq<int>)
      modifies this`awaiting
      ensures Value() == OnFinal(old(Value()), value).state && out == OnFinal(old(Value()), value).out
    {
      awaiting := false;
      out := [value];
    }
  }
}
