// The row-by-row actor: one round of tasks per triangle row, answers in any order.
module CountPath {
  import opened Rounds
  import T = Triangle

  type Msg = Message<nat>  // to itself: the row to start

  datatype State = State(index: nat, current: map<nat, int>, data: seq<seq<int>>)

  // What a handler leaves behind, sends, and reports to the client.
  datatype Effect = Effect(state: State, sent: seq<Msg>, out: seq<seq<int>>)

  // Between jobs.
  predicate Idle(s: State) {
    s.index == 0 && s.current == map[]
  }

  // --- the handlers ------------------------------------------------------------------------

  function OnTriangle(s: State, data: T.Triangle): Effect {
    Effect(s.(data := data, current := s.current[0 := data[0][0]]), [ToSelf(1)], [])
  }

  function Overwrite(row: seq<int>, current: map<nat, int>): (r: seq<int>)
    ensures |r| == |row|
  {
    seq(|row|, j requires 0 <= j < |row| => if j in current then current[j] else row[j])
  }

  // The rows and columns that starting a row touches exist.
  predicate CanStart(s: State, index: nat) {
    && 0 < index <= |s.data|
    && |s.data[index - 1]| >= index
    && (forall k | k in s.current :: k < |s.data[index - 1]|)
    && (index < |s.data| ==> |s.data[index]| > index)
  }

  // The tasks of row `index`, from the row above.
  function TaskAt(above: seq<int>, row: seq<int>, index: nat, i: nat): Task
    requires 0 < index <= |above| && index < |row| && i <= index
  {
    if i == 0 then Add(above[0], row[0], i)
    else if i == index then Add(above[i - 1], row[i], i)
    else MinAdd(above[i - 1], above[i], row[i], i)
  }

  function Tasks(above: seq<int>, row: seq<int>, index: nat): (r: seq<Task>)
    requires 0 < index <= |above| && index < |row|
    ensures |r| == index + 1 && Numbered(r)
  {
    seq(index + 1, i requires 0 <= i < index + 1 => TaskAt(above, row, index, i))
  }

  function OnRow(s: State, index: nat): Effect
    requires CanStart(s, index)
  {
    var above := Overwrite(s.data[index - 1], s.current);
    var data := s.data[index - 1 := above];
    if index == |data| then Effect(State(0, map[], data), [], [above])
    else Effect(State(index, map[], data), ToWorkers(Tasks(above, data[index], index)), [])
  }

  function OnResult(s: State, value: int, id: nat): Effect {
    var current := if id in s.current then s.current else s.current[id := value];
    Effect(s.(current := current), if s.index + 1 == |current| then [ToSelf(s.index + 1)] else [], [])
  }

  /** A second answer for a position is ignored: the first one stays. */
  lemma SecondAnswerIgnored(s: State, first: int, second: int, id: nat)
    requires id !in s.current
    ensures var t := OnResult(s, first, id).state;
            id in t.current && t.current[id] == first && OnResult(t, second, id).state == t
            && forall k | k != id :: (k in t.current <==> k in s.current) && (k in s.current ==> t.current[k] == s.current[k])
  {
  }

  // --- the actor and its messages -------------------------------------------------------------

  datatype World = World(actor: State, inflight: multiset<Msg>, out: seq<seq<int>>)

  function Begin(s: State, t: T.Triangle): World {
    var e := OnTriangle(s, t);
    World(e.state, multiset(e.sent), e.out)
  }

  predicate Enabled(w: World, m: Msg) {
    m in w.inflight && (m.ToSelf? ==> CanStart(w.actor, m.control))
  }

  function Handle(w: World, m: Msg, e: Effect): World {
    World(e.state, w.inflight - multiset{m} + multiset(e.sent), w.out + e.out)
  }

  // Any message in flight may be the next one to be delivered.
  function Deliver(w: World, m: Msg): World
    requires Enabled(w, m)
  {
    match m
    case ToWorker(task) => w.(inflight := w.inflight - multiset{m} + multiset{Answer(task)})
    case Result(value, id) => Handle(w, m, OnResult(w.actor, value, id))
    case ToSelf(index) => Handle(w, m, OnRow(w.actor, index))
  }

  ghost predicate LegalRun(w: World, ms: seq<Msg>)
    decreases |ms|
  {
    ms != [] ==> Enabled(w, ms[0]) && LegalRun(Deliver(w, ms[0]), ms[1..])
  }

  ghost function Run(w: World, ms: seq<Msg>): World
    requires LegalRun(w, ms)
    decreases |ms|
  {
    if ms == [] then w else Run(Deliver(w, ms[0]), ms[1..])
  }

  // --- what every run keeps ---------------------------------------------------------------------

  // Row `r` is being computed; or its results are complete and are being handed over; or all is done.
  datatype Phase = InRow(r: nat) | Between(r: nat) | Finished

  // Rows from `r` on are still those of the triangle.
  ghost predicate Intact(t: T.Triangle, s: State, r: nat) {
    && |s.data| == |t|
    && (forall i | 0 <= i < |t| :: |s.data[i]| == |t[i]|)
    && (forall i | r <= i < |t| :: s.data[i] == t[i])
  }

  ghost predicate RightResults(t: T.Triangle, current: map<nat, int>, r: nat)
    requires r < |t|
  {
    forall id | id in current :: id <= r && current[id] == T.Cell(t, r, id)
  }

  function RowTasks(t: T.Triangle, r: nat): (tasks: seq<Task>)
    requires 0 < r < |t|
    ensures |tasks| == r + 1 && Numbered(tasks)
  {
    Tasks(T.Row(t, r - 1), t[r], r)
  }

  ghost predicate Computing(t: T.Triangle, w: World, r: nat) {
    && 0 < r < |t| && w.actor.index == r && Intact(t, w.actor, r)
    && RightResults(t, w.actor.current, r) && |w.actor.current| <= r
    && InRound(w.inflight, RowTasks(t, r), w.actor.current.Keys)
    && w.out == []
  }

  ghost predicate HandingOver(t: T.Triangle, w: World, r: nat) {
    && r < |t| && w.actor.index == r && Intact(t, w.actor, r)
    && RightResults(t, w.actor.current, r) && Covered(w.actor.current.Keys, r + 1)
    && w.inflight == multiset{ToSelf(r + 1)}
    && w.out == []
  }

  ghost predicate Solved(t: T.Triangle, w: World) {
    && Idle(w.actor) && w.inflight == multiset{}
    && |w.out| == 1 && |w.out[0]| == |t[|t| - 1]| && w.out[0][..|t|] == T.Row(t, |t| - 1)
  }

  ghost predicate At(t: T.Triangle, w: World, phase: Phase) {
    match phase
    case InRow(r) => Computing(t, w, r)
    case Between(r) => HandingOver(t, w, r)
    case Finished => Solved(t, w)
  }

  // Deliveries after row `r` was handed over, in a triangle of n rows.
  function Later(n: nat, r: nat): nat
    decreases n - r
  {
    if r + 1 >= n then 0 else 2 * (r + 2) + 1 + Later(n, r + 1)
  }

  // All deliveries of a job.
  function JobLength(n: nat): nat {
    1 + Later(n, 0)
  }

  ghost function Remaining(t: T.Triangle, w: World, phase: Phase): nat
    requires At(t, w, phase)
  {
    match phase
    case InRow(r) => Deliveries(w.inflight, RowTasks(t, r), w.actor.current.Keys) + 1 + Later(|t|, r)
    case Between(r) => 1 + Later(|t|, r)
    case Finished => 0
  }

  lemma BeginsBetween(s: State, t: T.Triangle)
    requires Idle(s)
    ensures At(t, Begin(s, t), Between(0)) && Remaining(t, Begin(s, t), Between(0)) == JobLength(|t|)
  {
  }

  // The task sent for a column is worth that column's cell.
  lemma TaskValue(t: T.Triangle, r: nat, j: nat)
    requires 0 < r < |t| && j <= r
    ensures Work(RowTasks(t, r)[j]) == T.Cell(t, r, j)
  {
  }

  // Which messages can be in flight in which phase.
  lemma InFlight(t: T.Triangle, w: World, phase: Phase, m: Msg)
    requires At(t, w, phase) && m in w.inflight
    ensures if m.ToSelf? then phase.Between? && m == ToSelf(phase.r + 1) else phase.InRow?
  {
    if phase.InRow? && Belongs(m, RowTasks(t, phase.r)) {
      assert !m.ToSelf?;
    }
  }

  lemma WorkerDelivery(t: T.Triangle, w: World, r: nat, m: Msg)
    requires Computing(t, w, r) && m in w.inflight && m.ToWorker?
    ensures Computing(t, Deliver(w, m), r)
    ensures Remaining(t, Deliver(w, m), InRow(r)) == Remaining(t, w, InRow(r)) - 1
  {
    WorkerStep(w.inflight, RowTasks(t, r), w.actor.current.Keys, m.task);
  }

  lemma AnswerDelivery(t: T.Triangle, w: World, r: nat, m: Msg) returns (next: Phase)
    requires Computing(t, w, r) && m in w.inflight && m.Result?
    ensures At(t, Deliver(w, m), next)
    ensures Remaining(t, Deliver(w, m), next) == Remaining(t, w, InRow(r)) - 1
  {
    AnswerStep(w.inflight, RowTasks(t, r), w.actor.current.Keys, m);
    var after, current := w.inflight - multiset{m}, w.actor.current[m.id := m.value];
    assert current.Keys == w.actor.current.Keys + {m.id};
    ResultsGrow(t, r, w.actor.current, m.id, m.value);
    ResultEffect(w, m, after, current);
    next := AfterAnswer(t, w, r, m, after, current, Deliver(w, m));
  }

  lemma ResultsGrow(t: T.Triangle, r: nat, current: map<nat, int>, id: nat, value: int)
    requires 0 < r < |t| && id <= r && RightResults(t, current, r) && value == Work(RowTasks(t, r)[id])
    ensures RightResults(t, current[id := value], r)
  {
    TaskValue(t, r, id);
  }

  lemma AfterAnswer(t: T.Triangle, w: World, r: nat, m: Msg, after: multiset<Msg>, current: map<nat, int>, c: World)
    returns (next: Phase)
    requires Computing(t, w, r) && RightResults(t, current, r) && InRound(after, RowTasks(t, r), current.Keys)
    requires Deliveries(after, RowTasks(t, r), current.Keys) + 1 == Deliveries(w.inflight, RowTasks(t, r), w.actor.current.Keys)
    requires c == World(State(r, current, w.actor.data), Ready(after, r, |current|), w.out)
    ensures At(t, c, next)
    ensures Remaining(t, c, next) == Remaining(t, w, InRow(r)) - 1
  {
    FullWhenCounted(current.Keys, r + 1);
    assert |current| == |current.Keys|;
    if |current| == r + 1 {
      RoundEnds(after, RowTasks(t, r), current.Keys);
      LastAnswer(t, w, r, c);
      next := Between(r);
    } else {
      MoreAnswers(t, w, r, after, c);
      next := InRow(r);
    }
  }

  lemma LastAnswer(t: T.Triangle, w: World, r: nat, c: World)
    requires Computing(t, w, r) && Deliveries(w.inflight, RowTasks(t, r), w.actor.current.Keys) == 1
    requires c == World(State(r, c.actor.current, w.actor.data), multiset{ToSelf(r + 1)}, w.out)
    requires Covered(c.actor.current.Keys, r + 1) && RightResults(t, c.actor.current, r)
    ensures HandingOver(t, c, r) && Remaining(t, c, Between(r)) == Remaining(t, w, InRow(r)) - 1
  {
  }

  lemma MoreAnswers(t: T.Triangle, w: World, r: nat, after: multiset<Msg>, c: World)
    requires Computing(t, w, r) && c == World(State(r, c.actor.current, w.actor.data), after, w.out)
    requires RightResults(t, c.actor.current, r) && |c.actor.current| <= r && InRound(after, RowTasks(t, r), c.actor.current.Keys)
    requires Deliveries(after, RowTasks(t, r), c.actor.current.Keys) + 1 == Deliveries(w.inflight, RowTasks(t, r), w.actor.current.Keys)
    ensures Computing(t, c, r) && Remaining(t, c, InRow(r)) == Remaining(t, w, InRow(r)) - 1
  {
  }

  // The messages in flight once `count` results of row `r` are in.
  function Ready(after: multiset<Msg>, r: nat, count: nat): multiset<Msg> {
    if r + 1 != count then after else if after == multiset{} then multiset{ToSelf(r + 1)} else after + multiset{ToSelf(r + 1)}
  }

  lemma ResultEffect(w: World, m: Msg, after: multiset<Msg>, current: map<nat, int>)
    requires m in w.inflight && m.Result? && m.id !in w.actor.current
    requires after == w.inflight - multiset{m} && current == w.actor.current[m.id := m.value]
    ensures Deliver(w, m) ==
            World(State(w.actor.index, current, w.actor.data), Ready(after, w.actor.index, |current|), w.out)
  {
    var start: Msg := ToSelf(w.actor.index + 1);
    assert multiset([start]) == multiset{start} && multiset{} + multiset{start} == multiset{start};
    var none: seq<Msg> := [];
    assert multiset(none) == multiset{} && after + multiset{} == after && w.out + [] == w.out;
  }

  lemma CompleteRow(t: T.Triangle, s: State, r: nat)
    requires r < |t| && Intact(t, s, r) && RightResults(t, s.current, r) && Covered(s.current.Keys, r + 1)
    ensures Overwrite(s.data[r], s.current)[..r + 1] == T.Row(t, r)
    ensures CanStart(s, r + 1)
  {
    assert |t[r]| > r;
    assert r + 1 < |t| ==> |t[r + 1]| > r + 1;
  }

  lemma RowDelivery(t: T.Triangle, w: World, r: nat, m: Msg) returns (next: Phase)
    requires HandingOver(t, w, r) && m == ToSelf(r + 1)
    ensures Enabled(w, m) && At(t, Deliver(w, m), next)
    ensures Remaining(t, Deliver(w, m), next) == Remaining(t, w, Between(r)) - 1
  {
    CompleteRow(t, w.actor, r);
    var above := Overwrite(w.actor.data[r], w.actor.current);
    if r + 1 == |t| {
      LastEffect(w, r, m, above);
      next := Finished;
    } else {
      SameTasks(t, above, r + 1);
      StartEffect(t, w, r, m, above);
      NextRow(t, w, r, above, Deliver(w, m));
      next := InRow(r + 1);
    }
  }

  lemma LastEffect(w: World, r: nat, m: Msg, above: seq<int>)
    requires w.inflight == multiset{m} && m == ToSelf(r + 1) && CanStart(w.actor, r + 1) && r + 1 == |w.actor.data|
    requires above == Overwrite(w.actor.data[r], w.actor.current)
    ensures Deliver(w, m) == World(State(0, map[], w.actor.data[r := above]), multiset{}, w.out + [above])
  {
    var none: seq<Msg> := [];
    assert multiset(none) == multiset{} && w.inflight - multiset{m} == multiset{} && multiset{} + multiset(none) == multiset(none);
  }

  lemma NextRow(t: T.Triangle, w: World, r: nat, above: seq<int>, c: World)
    requires r + 1 < |t| && Intact(t, w.actor, r) && |above| == |w.actor.data[r]|
    requires c == World(State(r + 1, map[], w.actor.data[r := above]), multiset(ToWorkers(RowTasks(t, r + 1))), [])
    ensures Computing(t, c, r + 1)
    ensures Remaining(t, c, InRow(r + 1)) == Later(|t|, r)
  {
    StillIntact(t, w.actor, r, above);
    RoundBegins<nat>(RowTasks(t, r + 1));
    FreshRow(t, r + 1, c, multiset(ToWorkers(RowTasks(t, r + 1))));
  }

  lemma StillIntact(t: T.Triangle, s: State, r: nat, above: seq<int>)
    requires r < |t| && Intact(t, s, r) && |above| == |s.data[r]|
    ensures Intact(t, State(r + 1, map[], s.data[r := above]), r + 1)
  {
  }

  lemma FreshRow(t: T.Triangle, r: nat, c: World, inflight: multiset<Msg>)
    requires 0 < r < |t| && c == World(State(r, map[], c.actor.data), inflight, []) && Intact(t, c.actor, r)
    requires InRound(inflight, RowTasks(t, r), {}) && Deliveries(inflight, RowTasks(t, r), {}) == 2 * (r + 1)
    ensures Computing(t, c, r) && Remaining(t, c, InRow(r)) == 2 * (r + 1) + 1 + Later(|t|, r)
  {
    assert c.actor.current.Keys == {};
  }

  lemma StartEffect(t: T.Triangle, w: World, r: nat, m: Msg, above: seq<int>)
    requires w.inflight == multiset{m} && m == ToSelf(r + 1) && r + 1 < |t| && CanStart(w.actor, r + 1)
    requires above == Overwrite(w.actor.data[r], w.actor.current)
    requires |w.actor.data| == |t| && w.actor.data[r + 1] == t[r + 1]
    requires Tasks(above, t[r + 1], r + 1) == RowTasks(t, r + 1)
    ensures Deliver(w, m) ==
            World(State(r + 1, map[], w.actor.data[r := above]), multiset(ToWorkers(RowTasks(t, r + 1))), w.out)
  {
    var sent := ToWorkers<nat>(RowTasks(t, r + 1));
    assert OnRow(w.actor, r + 1).sent == sent;
    assert multiset{} + multiset(sent) == multiset(sent) && w.inflight - multiset{m} == multiset{} && w.out + [] == w.out;
  }

  lemma SameTasks(t: T.Triangle, above: seq<int>, r: nat)
    requires 0 < r < |t| && r <= |above| && above[..r] == T.Row(t, r - 1)
    ensures Tasks(above, t[r], r) == RowTasks(t, r)
  {
    forall i | 0 <= i <= r
      ensures Tasks(above, t[r], r)[i] == RowTasks(t, r)[i]
    {
      assert i > 0 ==> above[i - 1] == above[..r][i - 1];
      assert i < r ==> above[i] == above[..r][i];
    }
  }

  // One delivery: the phase advances and the number of deliveries to come drops by one.
  lemma OneDelivery(t: T.Triangle, w: World, phase: Phase, m: Msg) returns (next: Phase)
    requires At(t, w, phase) && m in w.inflight
    ensures Enabled(w, m) && At(t, Deliver(w, m), next)
    ensures Remaining(t, Deliver(w, m), next) == Remaining(t, w, phase) - 1
  {
    InFlight(t, w, phase, m);
    match m {
      case ToWorker(_) =>
        WorkerDelivery(t, w, phase.r, m);
        next := phase;
      case Result(_, _) => next := AnswerDelivery(t, w, phase.r, m);
      case ToSelf(_) => next := RowDelivery(t, w, phase.r, m);
    }
  }

  lemma {:induction false} RunPhase(t: T.Triangle, w: World, phase: Phase, ms: seq<Msg>) returns (last: Phase)
    requires At(t, w, phase) && LegalRun(w, ms)
    ensures At(t, Run(w, ms), last)
    ensures Remaining(t, Run(w, ms), last) == Remaining(t, w, phase) - |ms|
    decreases |ms|
  {
    if ms == [] {
      last := phase;
    } else {
      var next := OneDelivery(t, w, phase, ms[0]);
      last := RunPhase(t, Deliver(w, ms[0]), next, ms[1..]);
    }
  }

  lemma PhaseMeaning(t: T.Triangle, w: World, phase: Phase)
    requires At(t, w, phase)
    ensures Remaining(t, w, phase) == 0 <==> phase.Finished?
    ensures phase.Finished? <==> w.inflight == multiset{}
    ensures !phase.Finished? ==> w.out == []
  {
    if phase.InRow? {
      RoundGoesOn(w.inflight, RowTasks(t, phase.r), w.actor.current.Keys);
    } else if phase.Between? {
      assert ToSelf(phase.r + 1) in w.inflight;
    }
  }

  /** For every order of deliveries: a job takes exactly `JobLength` of them, no handler ever reaches
      outside the triangle, nothing is reported before the last delivery, and then the
      reported row starts with the dynamic program's last row and the actor is idle again. */
  lemma EveryOrderSolves(s: State, t: T.Triangle, ms: seq<Msg>)
    requires Idle(s) && LegalRun(Begin(s, t), ms)
    ensures var w := Run(Begin(s, t), ms);
            && |ms| <= JobLength(|t|)
            && (forall m | m in w.inflight :: Enabled(w, m))
            && (|ms| < JobLength(|t|) ==> w.inflight != multiset{} && w.out == [])
            && (|ms| == JobLength(|t|) ==> At(t, w, Finished))
  {
    BeginsBetween(s, t);
    var last := RunPhase(t, Begin(s, t), Between(0), ms);
    var w := Run(Begin(s, t), ms);
    PhaseMeaning(t, w, last);
    forall m | m in w.inflight
      ensures Enabled(w, m)
    {
      var _ := OneDelivery(t, w, last, m);
    }
  }

  // --- the actor object ---------------------------------------------------------------------------

  class CountPathActor {
    var index: nat
    var current: map<nat, int>
    var data: seq<seq<int>>

    ghost function Value(): State
      reads this
    {
      State(index, current, data)
    }

    constructor ()
      ensures Idle(Value())
    {
      index := 0;
      current := map[];
      data := [];
    }

    method HandleTriangle(t: T.Triangle) returns (sent: seq<Msg>)
      modifies this
      ensures Value() == OnTriangle(old(Value()), t).state && sent == OnTriangle(old(Value()), t).sent
    {
      data := t;
      current := current[0 := t[0][0]];
      sent := [ToSelf(1)];
    }

    method HandleRow(row: nat) returns (sent: seq<Msg>, out: seq<seq<int>>)
      requires CanStart(Value(), row)
      modifies this
      ensures Value() == OnRow(old(Value()), row).state
      ensures sent == OnRow(old(Value()), row).sent && out == OnRow(old(Value()), row).out
    {
      CopyResults(row);
      sent, out := [], [];
      if row == |data| {
        out := [data[row - 1]];
        index := 0;
        current := map[];
        return;
      }
      index := row;
      current := map[];
      ghost var tasks := Tasks(data[row - 1], data[row], row);
      var i := 0;
      while i < row + 1
        invariant 0 <= i <= row + 1
        invariant sent == ToWorkers<nat>(tasks)[..i]
      {
        if i == 0 {
          sent := sent + [ToWorker(Add(data[row - 1][0], data[row][0], i))];
        } else if i == row {
          sent := sent + [ToWorker(Add(data[row - 1][i - 1], data[row][i], i))];
        } else {
          sent := sent + [ToWorker(MinAdd(data[row - 1][i - 1], data[row - 1][i], data[row][i], i))];
        }
        i := i + 1;
      }
    }

    // Copies the collected results into the previous row, entry by entry.
    method CopyResults(row: nat)
      requires CanStart(Value(), row)
      modifies this`data
      ensures data == old(data)[row - 1 := Overwrite(old(data)[row - 1], current)]
    {
      ghost var before := data[row - 1];
      var rest := current.Keys;
      while rest != {}
        invariant rest <= current.Keys && |data| == |old(data)|
        invariant data == old(data)[row - 1 := data[row - 1]] && |data[row - 1]| == |before|
        invariant forall j | 0 <= j < |before| ::
                    data[row - 1][j] == if j in current && j !in rest then current[j] else before[j]
        decreases |rest|
      {
        var k :| k in rest;
        data := data[row - 1 := data[row - 1][k := current[k]]];
        rest := rest - {k};
      }
      assert data[row - 1] == Overwrite(before, current);
    }

    method HandleResult(value: int, id: nat) returns (sent: seq<Msg>)
      modifies this`current
      ensures Value() == OnResult(old(Value()), value, id).state && sent == OnResult(old(Value()), value, id).sent
    {
      if id !in current {
        current := current[id := value];
      }
      sent := [];
      if index + 1 == |current| {
        sent := [ToSelf(index + 1)];
      }
    }
  }
}
