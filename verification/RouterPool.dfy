// Which workers are registered, and who is told to exit.
module RouterPool {
  import opened Mailbox
  import Policy
  import opened Router
  import opened RouterRuns

  predicate Joins(m: Mail, a: Actor) {
    m.content == Put(a)
  }

  // A control message that ends the worker's registration; a dead router no longer reacts to exits.
  predicate Ends(alive: bool, m: Mail, a: Actor) {
    m.content == Delete(a) || m.content == DownMsg(a) || m.content == DeleteAll || (m.content == ExitMsg && alive)
  }

  /** One step of the pool: registered afterwards is who joins, and who was registered and is not removed; a removed worker's
      load is forgotten. The router dies by an exit, or by a failure that leaves it without workers, and never
      comes back. */
  lemma PoolStep(s: State, m: Mail, a: Actor)
    requires Valid(s) && Acceptable(s, m)
    ensures a in s.workers && Ends(s.alive, m, a) ==> a !in Step(s, m).state.loads
    ensures var t := Step(s, m).state;
            && (a in t.workers <==> Joins(m, a) || (a in s.workers && !Ends(s.alive, m, a)))
            && (t.alive <==> s.alive && m.content != ExitMsg && !(m.content.DownMsg? && t.workers == []))
  {
    if m.content.Body? && IsAnswer(m) {
      DispatchKeepsPool(Answer(s, m.sender.value, m.mid, m.content).state, None);
    } else if m.content.Body? && !Rejected(s, m) {
      DispatchKeepsPool(s, Some(m));
    } else {
      ControlMovesPool(s, m, a);
    }
  }

  lemma ControlMovesPool(s: State, m: Mail, a: Actor)
    requires Valid(s) && Acceptable(s, m) && (!m.content.Body? || Rejected(s, m))
    ensures a in s.workers && Ends(s.alive, m, a) ==> a !in Step(s, m).state.loads
    ensures var t := Step(s, m).state;
            && (a in t.workers <==> Joins(m, a) || (a in s.workers && !Ends(s.alive, m, a)))
            && (t.alive <==> s.alive && m.content != ExitMsg && !(m.content.DownMsg? && t.workers == []))
  {
    match m.content
    case Put(b) =>
    case Delete(b) =>
    case DownMsg(b) =>
    case _ =>
  }

  lemma DispatchKeepsPool(s: State, mail: Option<Mail>)
    requires Valid(s) && (Policy.HasMail(s.policy, mail) ==> s.workers != [])
    ensures Dispatch(s, mail).state.workers == s.workers && Dispatch(s, mail).state.alive == s.alive
  {
    DispatchFollowsPolicy(s, mail);
  }

  // Step `i` registered `a`, and none since has ended that.
  ghost predicate JoinedSince(threshold: nat, ms: seq<Mail>, n: nat, a: Actor)
    requires n <= |ms|
  {
    exists i :: 0 <= i < n && Joins(ms[i], a) && StayedFrom(threshold, ms, i + 1, n, a)
  }

  ghost predicate StayedFrom(threshold: nat, ms: seq<Mail>, i: nat, n: nat, a: Actor)
    requires n <= |ms|
  {
    forall j: nat | i <= j < n :: !EndsAt(threshold, ms, j, a)
  }

  ghost predicate EndsAt(threshold: nat, ms: seq<Mail>, j: nat, a: Actor)
    requires j < |ms|
  {
    LegalRun(Start(threshold), ms[..j]) && Ends(Run(Start(threshold), ms[..j]).router.alive, ms[j], a)
  }

  /** In every run: a worker is registered exactly if it has joined and has not been deleted, failed, cleared or told to exit
      since. */
  lemma {:induction false} RegisteredExact(threshold: nat, ms: seq<Mail>, n: nat, a: Actor)
    requires LegalRun(Start(threshold), ms) && n <= |ms| && LegalRun(Start(threshold), ms[..n])
    ensures a in Run(Start(threshold), ms[..n]).router.workers <==> JoinedSince(threshold, ms, n, a)
    decreases n
  {
    if n > 0 {
      var k := n - 1;
      RunStep(Start(threshold), ms, k);
      RegisteredExact(threshold, ms, k, a);
      var w := Run(Start(threshold), ms[..k]);
      AdvanceIsStep(w, ms[k]);
      PoolStep(w.router, ms[k], a);
      JoinedSnoc(threshold, ms, k, a);
    } else {
      assert ms[..0] == [];
    }
  }

  lemma JoinedSnoc(threshold: nat, ms: seq<Mail>, k: nat, a: Actor)
    requires k < |ms|
    ensures JoinedSince(threshold, ms, k + 1, a) <==>
            Joins(ms[k], a) || (JoinedSince(threshold, ms, k, a) && !EndsAt(threshold, ms, k, a))
  {
    if Joins(ms[k], a) {
      assert StayedFrom(threshold, ms, k + 1, k + 1, a);
    }
    if JoinedSince(threshold, ms, k, a) && !EndsAt(threshold, ms, k, a) {
      var i :| 0 <= i < k && Joins(ms[i], a) && StayedFrom(threshold, ms, i + 1, k, a);
      assert StayedFrom(threshold, ms, i + 1, k + 1, a);
    }
    if JoinedSince(threshold, ms, k + 1, a) && !Joins(ms[k], a) {
      var i :| 0 <= i < k + 1 && Joins(ms[i], a) && StayedFrom(threshold, ms, i + 1, k + 1, a);
      assert StayedFrom(threshold, ms, i + 1, k, a) && !EndsAt(threshold, ms, k, a);
    }
  }

  // --- exits ------------------------------------------------------------------------------------------

  function ExitsTo(sends: seq<Send>, a: Actor): nat
    decreases |sends|
  {
    if sends == [] then 0 else (if sends[0] == ExitTo(a) then 1 else 0) + ExitsTo(sends[1..], a)
  }

  lemma {:induction false} NoExits(sends: seq<Send>, a: Actor)
    requires forall x | x in sends :: !x.ExitTo?
    ensures ExitsTo(sends, a) == 0
    decreases |sends|
  {
    if sends != [] {
      assert sends[0] in sends;
      NoExits(sends[1..], a);
    }
  }

  lemma {:induction false} ExitsCounted(workers: seq<Actor>, a: Actor)
    requires Distinct(workers)
    ensures ExitsTo(Exits(workers), a) == if a in workers then 1 else 0
    decreases |workers|
  {
    if workers != [] {
      assert Exits(workers)[1..] == Exits(workers[1..]);
      assert workers[0] !in workers[1..];
      ExitsCounted(workers[1..], a);
    }
  }

  /** Each step tells a worker to exit exactly once if it is the router's own exit and the worker is registered, and otherwise
      not at all; the first exit ends all registrations, so no worker is told twice. */
  lemma ExitsOnce(s: State, m: Mail, a: Actor)
    requires Valid(s) && Acceptable(s, m)
    ensures ExitsTo(Step(s, m).sends, a) == if m.content == ExitMsg && s.alive && a in s.workers then 1 else 0
  {
    var sends := Step(s, m).sends;
    if m.content == ExitMsg && s.alive {
      ExitsCounted(s.workers, a);
    } else {
      NothingExits(s, m);
      NoExits(sends, a);
    }
  }

  lemma NothingExits(s: State, m: Mail)
    requires Valid(s) && Acceptable(s, m) && !(m.content == ExitMsg && s.alive)
    ensures forall x | x in Step(s, m).sends :: !x.ExitTo?
  {
  }
}
